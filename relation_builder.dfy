/**
 * Links menus to backend endpoints.  For every menu, in order, it first
 * links each endpoint that a call site in the same frontend file resolves
 * to (confidence HIGH), then each endpoint whose first path segment equals
 * the menu route's (confidence MEDIUM); the list is finally reduced to the
 * first relation per (menu route, API path, API method).
 */
module RelationBuilder {
  import opened Wrappers
  import opened JavaText
  import opened Records
  import Gather
  import Dedup

  const HIGH := "HIGH"
  const MEDIUM := "MEDIUM"
  /** The reason given for a HIGH relation ("menu and API call appear in the same frontend file"). */
  const SAME_FILE_REASON := "menu与API调用出现在同一前端文件"
  /** The reason given for a MEDIUM relation ("menu route and API path share a business prefix"). */
  const SHARED_PREFIX_REASON := "菜单路由与API路径具有相同业务前缀"

  // ---------------------------------------------------------------- normalize

  predicate NoUpperAscii(s: string) {
    forall c :: c in s ==> !IsUpperAscii(c)
  }

  /**
   * normalize: lower-case (ASCII), trim, delete every scheme-and-host
   * segment, root the path with '/' and collapse runs of '/'.
   */
  function Normalize(path: string): string {
    CollapseSlashes(Rooted(StripHosts(Trim(ToLowerCase(path)))))
  }

  /** The rooting step of normalize: a '/' is put in front unless one is there. */
  function Rooted(s: string): (r: string)
    ensures r != [] && r[0] == '/'
    ensures StartsWith(s, "/") ==> r == s
  {
    if StartsWith(s, "/") then s else "/" + s
  }

  /** A normalized path is rooted, has no "//" and no upper-case ASCII letter. */
  lemma NormalizeShape(path: string)
    ensures var n := Normalize(path);
      n != [] && n[0] == '/' && NoDoubleSlash(n) && NoUpperAscii(n)
  {
    var lower := ToLowerCase(path);
    var rooted := Rooted(StripHosts(Trim(lower)));
    CollapseSlashesNoDouble(rooted);
    assert NoUpperAscii(lower) by {
      forall c | c in lower ensures !IsUpperAscii(c) {
        var i :| 0 <= i < |lower| && lower[i] == c;
      }
    }
    TrimChars(lower);
    StripHostsChars(Trim(lower));
    assert NoUpperAscii(rooted) by {
      var stripped := StripHosts(Trim(lower));
      assert rooted == stripped || rooted == "/" + stripped;
    }
    CollapseSlashesChars(rooted);
  }

  /**
   * A path that is already lower-case, trimmed, rooted, free of "//" and of
   * scheme-and-host segments is its own normal form.
   */
  lemma NormalizeKeeps(path: string)
    requires path != [] && path[0] == '/' && NoDoubleSlash(path)
    requires IsTrimmed(path) && NoUpperAscii(path) && HostFree(path)
    ensures Normalize(path) == path
  {
    assert ToLowerCase(path) == path;
    StripHostsKeeps(path);
    assert StartsWith(path, "/");
    CollapseSlashesKeeps(path);
  }

  /** Lower-casing a URL keeps its scheme, and its host stays free of '/'. */
  lemma LowerUrl(scheme: string, h: string, p: string)
    requires scheme == "http://" || scheme == "https://"
    requires h != [] && '/' !in h
    ensures ToLowerCase(scheme + h + p) == scheme + ToLowerCase(h) + ToLowerCase(p)
    ensures '/' !in ToLowerCase(h)
  {
    var lh := ToLowerCase(h);
    assert ToLowerCase(scheme) == scheme;
    ToLowerCaseAppend(scheme, h);
    ToLowerCaseAppend(scheme + h, p);
    forall i | 0 <= i < |lh| ensures lh[i] != '/' {
      assert h[i] != '/';
    }
  }

  /** normalize deletes a leading scheme and host: a URL whose path is rooted normalizes like its path. */
  lemma NormalizeDropsHost(scheme: string, h: string, p: string)
    requires scheme == "http://" || scheme == "https://"
    requires h != [] && '/' !in h
    requires p != [] && p[0] == '/'
    ensures Normalize(scheme + h + p) == Normalize(p)
  {
    var lh, lp := ToLowerCase(h), ToLowerCase(p);
    LowerUrl(scheme, h, p);
    var lower := scheme + lh + lp;
    assert lp[0] == '/' && lower[0] == 'h';
    assert Trim(lp) == TrimEnd(lp);
    assert Trim(lower) == TrimEnd(lower);
    TrimEndAppend(scheme + lh, lp);
    StripHostsDeletesHead(scheme, lh, TrimEnd(lp));
    assert StripHosts(Trim(lower)) == StripHosts(Trim(lp));
  }

  /** normalize ignores ASCII case: a path and its lower-case form normalize alike. */
  lemma NormalizeIgnoresCase(path: string)
    ensures Normalize(ToLowerCase(path)) == Normalize(path)
  {
    var lower := ToLowerCase(path);
    assert ToLowerCase(lower) == lower;
  }

  lemma LowerCaseExample()
    ensures ToLowerCase("/User/List") == "/user/list"
  {
    var r := ToLowerCase("/User/List");
    assert r[0] == '/' && r[1] == 'u' && r[2] == 's' && r[3] == 'e' && r[4] == 'r';
    assert r[5] == '/' && r[6] == 'l' && r[7] == 'i' && r[8] == 's' && r[9] == 't';
  }

  /** "/user/list" is rooted, trimmed and free of "//". */
  lemma UserListShape(q: string)
    requires q == "/user/list"
    ensures q != [] && q[0] == '/' && NoDoubleSlash(q)
    ensures IsTrimmed(q)
  {
    assert NoDoubleSlash("/user") && NoDoubleSlash("/list");
    NoDoubleSlashJoin("/user", "/list");
    assert q == "/user" + "/list";
  }

  /** "/user/list" has no upper-case ASCII letter: it is the lower-case form of "/User/List". */
  lemma UserListLower(q: string)
    requires q == "/user/list"
    ensures NoUpperAscii(q)
  {
    LowerCaseExample();
    forall c | c in q ensures !IsUpperAscii(c) {
      var i :| 0 <= i < |q| && q[i] == c;
      assert q[i] == ToLowerCase("/User/List")[i];
    }
  }

  lemma NormalizeKeepsExample(q: string)
    requires q == "/user/list"
    ensures Normalize(q) == q
  {
    UserListShape(q);
    UserListLower(q);
    NoColonHostFree(q);
    NormalizeKeeps(q);
  }

  /** normalize("/User/List") is "/user/list". */
  lemma NormalizePathExample()
    ensures Normalize("/User/List") == "/user/list"
  {
    LowerCaseExample();
    NormalizeIgnoresCase("/User/List");
    NormalizeKeepsExample("/user/list");
  }

  /** normalize("https://h.example/User/List") is "/user/list": the scheme and host are deleted. */
  lemma NormalizeUrlExample()
    ensures Normalize("https://h.example/User/List") == "/user/list"
  {
    assert "https://h.example/User/List" == "https://" + "h.example" + "/User/List";
    NormalizeDropsHost("https://", "h.example", "/User/List");
    NormalizePathExample();
  }

  // ---------------------------------------------------------------- firstSegment and isLikelyRelated

  /** The rest of firstSegment, on the normalized path: drop the leading '/', keep up to the next '/'. */
  function SegmentOf(normalized: string): string {
    var rest := if StartsWith(normalized, "/") then normalized[1..] else normalized;
    var k := IndexFrom(rest, '/', 0);
    var idx: int := if k < |rest| then k else -1;
    if idx > 0 then rest[..idx] else rest
  }

  /** firstSegment. */
  function FirstSegment(path: string): string {
    SegmentOf(Normalize(path))
  }

  /** `seg` is the first segment of the rooted path `n`: all of it after the '/', or up to the second '/'. */
  predicate LeadsWith(n: string, seg: string) {
    '/' !in seg && (n == "/" + seg || StartsWith(n, "/" + seg + "/"))
  }

  /** On a rooted path without "//", SegmentOf yields its first segment. */
  lemma SegmentOfLeads(n: string)
    requires n != [] && n[0] == '/' && NoDoubleSlash(n)
    ensures LeadsWith(n, SegmentOf(n))
  {
    var rest := n[1..];
    assert StartsWith(n, "/");
    var k := IndexFrom(rest, '/', 0);
    if k < |rest| {
      NoDoubleSlashAt(n, 0);
      assert n == "/" + rest[..k] + "/" + rest[k + 1..];
      assert StartsWith(n, "/" + rest[..k] + "/");
    } else {
      assert n == "/" + rest;
    }
  }

  /** On a rooted path without "//", no other text is its first segment. */
  lemma SegmentOfUnique(n: string, seg: string)
    requires n != [] && n[0] == '/' && NoDoubleSlash(n) && LeadsWith(n, seg)
    ensures seg == SegmentOf(n)
  {
    var rest := n[1..];
    assert StartsWith(n, "/");
    if n == "/" + seg {
      assert rest == seg;
    } else {
      assert n[..|seg| + 2] == "/" + seg + "/";
      assert rest[|seg|] == '/';
      assert forall j :: 0 <= j < |seg| ==> rest[j] == seg[j];
      NoDoubleSlashAt(n, 0);
      assert rest[..|seg|] == seg;
    }
  }

  /** FirstSegment yields the first segment of the normalized path, and no other text is one. */
  lemma FirstSegmentSpec(path: string, seg: string)
    ensures LeadsWith(Normalize(path), FirstSegment(path))
    ensures LeadsWith(Normalize(path), seg) ==> seg == FirstSegment(path)
  {
    NormalizeShape(path);
    SegmentOfLeads(Normalize(path));
    if LeadsWith(Normalize(path), seg) {
      SegmentOfUnique(Normalize(path), seg);
    }
  }

  /** isLikelyRelated: both first segments are equal and not blank. */
  predicate IsLikelyRelated(route: string, apiPath: string) {
    var r := FirstSegment(route);
    var a := FirstSegment(apiPath);
    !IsBlank(r) && r == a
  }

  /** A route and a path are related exactly when their normalized forms lead with the same non-blank segment. */
  lemma IsLikelyRelatedSpec(route: string, apiPath: string)
    ensures IsLikelyRelated(route, apiPath) <==>
      exists seg :: !IsBlank(seg) && LeadsWith(Normalize(route), seg) && LeadsWith(Normalize(apiPath), seg)
    ensures IsLikelyRelated(route, apiPath) <==> IsLikelyRelated(apiPath, route)
  {
    var r := FirstSegment(route);
    FirstSegmentSpec(route, r);
    FirstSegmentSpec(apiPath, r);
    if exists seg :: !IsBlank(seg) && LeadsWith(Normalize(route), seg) && LeadsWith(Normalize(apiPath), seg) {
      var seg :| !IsBlank(seg) && LeadsWith(Normalize(route), seg) && LeadsWith(Normalize(apiPath), seg);
      FirstSegmentSpec(route, seg);
      FirstSegmentSpec(apiPath, seg);
    }
  }

  // ---------------------------------------------------------------- matchByPath

  /** An endpoint matches a normalized URL when either normalized path equals or ends with the other. */
  predicate PathMatches(normalizedUrl: string, api: ApiAsset) {
    var p := Normalize(api.path);
    p == normalizedUrl || EndsWith(p, normalizedUrl) || EndsWith(normalizedUrl, p)
  }

  /** The first endpoint, in list order, that matches. */
  function FirstMatch(normalizedUrl: string, apis: seq<ApiAsset>): Option<ApiAsset> {
    if apis == [] then None
    else if PathMatches(normalizedUrl, apis[0]) then Some(apis[0])
    else FirstMatch(normalizedUrl, apis[1..])
  }

  /** What matchByPath returns for a call site's URL (None for Java's null). */
  function MatchedApi(url: string, apis: seq<ApiAsset>): Option<ApiAsset> {
    FirstMatch(Normalize(url), apis)
  }

  /** The match is the first endpoint that matches; there is none only when no endpoint matches. */
  lemma FirstMatchSpec(normalizedUrl: string, apis: seq<ApiAsset>) returns (i: nat)
    ensures FirstMatch(normalizedUrl, apis).None? <==> forall k :: 0 <= k < |apis| ==> !PathMatches(normalizedUrl, apis[k])
    ensures FirstMatch(normalizedUrl, apis).Some? ==>
      && i < |apis| && apis[i] == FirstMatch(normalizedUrl, apis).value
      && PathMatches(normalizedUrl, apis[i])
      && forall j :: 0 <= j < i ==> !PathMatches(normalizedUrl, apis[j])
  {
    var p := (a: ApiAsset) => PathMatches(normalizedUrl, a);
    FirstMatchFirstWhere(normalizedUrl, apis, p);
    i := FirstWhereSpec(apis, p);
  }

  /** The search for a match is the search for the first element satisfying `p`. */
  lemma {:induction false} FirstMatchFirstWhere(normalizedUrl: string, apis: seq<ApiAsset>, p: ApiAsset -> bool)
    requires forall a :: p(a) == PathMatches(normalizedUrl, a)
    ensures FirstMatch(normalizedUrl, apis) == FirstWhere(apis, p)
    decreases |apis|
  {
    if apis != [] {
      FirstMatchFirstWhere(normalizedUrl, apis[1..], p);
    }
  }

  /** The first element of `xs`, in order, that satisfies `p`. */
  function FirstWhere<T>(xs: seq<T>, p: T -> bool): Option<T> {
    if xs == [] then None
    else if p(xs[0]) then Some(xs[0])
    else FirstWhere(xs[1..], p)
  }

  /** The search finds nothing exactly when no element qualifies; otherwise it finds the first that does. */
  lemma {:induction false} FirstWhereSpec<T>(xs: seq<T>, p: T -> bool) returns (i: nat)
    ensures FirstWhere(xs, p).None? <==> forall k :: 0 <= k < |xs| ==> !p(xs[k])
    ensures FirstWhere(xs, p).Some? ==>
      i < |xs| && xs[i] == FirstWhere(xs, p).value && p(xs[i]) && forall j :: 0 <= j < i ==> !p(xs[j])
    decreases |xs|
  {
    i := 0;
    if xs != [] && !p(xs[0]) {
      var t := FirstWhereSpec(xs[1..], p);
      i := t + 1;
      forall k | 1 <= k < |xs| ensures xs[k] == xs[1..][k - 1] { }
    }
  }

  /** matchByPath: the loop over the endpoints with its early return. */
  method MatchByPath(url: string, apis: seq<ApiAsset>) returns (matched: Option<ApiAsset>)
    ensures matched == MatchedApi(url, apis)
  {
    var normalized := Normalize(url);
    var i := 0;
    while i < |apis|
      invariant i <= |apis|
      invariant FirstMatch(normalized, apis[i..]) == FirstMatch(normalized, apis)
    {
      var p := Normalize(apis[i].path);
      if p == normalized || EndsWith(p, normalized) || EndsWith(normalized, p) {
        return Some(apis[i]);
      }
      assert apis[i..][1..] == apis[i + 1..];
      i := i + 1;
    }
    return None;
  }

  // ---------------------------------------------------------------- the two kinds of relation

  /**
   * The endpoint each call site resolves to, in call-site order.  matchByPath
   * depends only on the URL and the endpoint list, so every menu sees the
   * same resolution of a call site.
   */
  function Matches(usages: seq<FrontendApiUsage>, apis: seq<ApiAsset>): (m: seq<Option<ApiAsset>>)
    ensures |m| == |usages|
  {
    if usages == [] then []
    else Matches(usages[..|usages| - 1], apis) + [MatchedApi(usages[|usages| - 1].url, apis)]
  }

  lemma {:induction false} MatchesAt(usages: seq<FrontendApiUsage>, apis: seq<ApiAsset>, j: nat)
    requires j < |usages|
    ensures Matches(usages, apis)[j] == MatchedApi(usages[j].url, apis)
  {
    if j < |usages| - 1 {
      MatchesAt(usages[..|usages| - 1], apis, j);
    }
  }

  /** The relation a menu and an endpoint form with the given confidence and reason. */
  function Relate(menu: MenuAsset, api: ApiAsset, confidence: string, reason: string): MenuApiRelation {
    MenuApiRelation(menu.route, menu.title, api.path, api.httpMethod, confidence, reason)
  }

  /**
   * What call site j adds for a menu, given the endpoint each call site
   * resolves to: a HIGH relation when the site is in the menu's file and
   * resolves to an endpoint.
   */
  function HighAt(menu: MenuAsset, usages: seq<FrontendApiUsage>, matches: seq<Option<ApiAsset>>, j: nat): Option<MenuApiRelation>
    requires j < |usages| == |matches|
  {
    if menu.sourceFile != usages[j].sourceFile then None
    else match matches[j]
      case Some(api) => Some(Relate(menu, api, HIGH, SAME_FILE_REASON))
      case None => None
  }

  /**
   * What endpoint k adds for a menu: a MEDIUM relation when `related` holds
   * of the route and the endpoint's path (buildRelations uses isLikelyRelated).
   */
  function MediumAt(menu: MenuAsset, apis: seq<ApiAsset>, related: (string, string) -> bool, k: nat): Option<MenuApiRelation>
    requires k < |apis|
  {
    if related(menu.route, apis[k].path) then Some(Relate(menu, apis[k], MEDIUM, SHARED_PREFIX_REASON))
    else None
  }

  /** The HIGH relations of a menu over the first n call sites, in call-site order. */
  function HighFor(menu: MenuAsset, usages: seq<FrontendApiUsage>, matches: seq<Option<ApiAsset>>, n: nat): seq<MenuApiRelation>
    requires n <= |usages| == |matches|
  {
    if n == 0 then [] else HighFor(menu, usages, matches, n - 1) + OptionToSeq(HighAt(menu, usages, matches, n - 1))
  }

  /** The MEDIUM relations of a menu over the first n endpoints, in endpoint order. */
  function MediumFor(menu: MenuAsset, apis: seq<ApiAsset>, related: (string, string) -> bool, n: nat): seq<MenuApiRelation>
    requires n <= |apis|
  {
    if n == 0 then [] else MediumFor(menu, apis, related, n - 1) + OptionToSeq(MediumAt(menu, apis, related, n - 1))
  }

  /** What menu mi contributes before deduplication: its HIGH relations, then its MEDIUM ones. */
  function MenuRelations(menus: seq<MenuAsset>, apis: seq<ApiAsset>, usages: seq<FrontendApiUsage>, matches: seq<Option<ApiAsset>>, related: (string, string) -> bool, mi: nat): seq<MenuApiRelation>
    requires mi < |menus| && |usages| == |matches|
  {
    HighFor(menus[mi], usages, matches, |usages|) + MediumFor(menus[mi], apis, related, |apis|)
  }

  /** MenuRelations as a function of the menu index (nothing past the last menu). */
  function MenuBlocks(menus: seq<MenuAsset>, apis: seq<ApiAsset>, usages: seq<FrontendApiUsage>, matches: seq<Option<ApiAsset>>, related: (string, string) -> bool): nat -> seq<MenuApiRelation>
    requires |usages| == |matches|
  {
    (mi: nat) => if mi < |menus| then MenuRelations(menus, apis, usages, matches, related, mi) else []
  }

  /** The relations of the first n menus before deduplication, menu by menu. */
  function RelationsOf(menus: seq<MenuAsset>, apis: seq<ApiAsset>, usages: seq<FrontendApiUsage>, matches: seq<Option<ApiAsset>>, related: (string, string) -> bool, n: nat): seq<MenuApiRelation>
    requires n <= |menus| && |usages| == |matches|
  {
    Gather.Concat(n, MenuBlocks(menus, apis, usages, matches, related))
  }

  /** The key deduplication compares: menu route, API path and API method. */
  function RelationKey(r: MenuApiRelation): (string, string, string) {
    (r.menuRoute, r.apiPath, r.apiMethod)
  }

  /** Everything the menus contribute, before deduplication. */
  function AllRelations(menus: seq<MenuAsset>, apis: seq<ApiAsset>, usages: seq<FrontendApiUsage>): seq<MenuApiRelation> {
    RelationsOf(menus, apis, usages, Matches(usages, apis), IsLikelyRelated, |menus|)
  }

  /** What buildRelations returns. */
  function Relations(menus: seq<MenuAsset>, apis: seq<ApiAsset>, usages: seq<FrontendApiUsage>): seq<MenuApiRelation> {
    Dedup.FirstByKey(AllRelations(menus, apis, usages), RelationKey)
  }

  // ---------------------------------------------------------------- the loops

  lemma HighStep(menu: MenuAsset, usages: seq<FrontendApiUsage>, matches: seq<Option<ApiAsset>>, j: nat, before: seq<MenuApiRelation>)
    requires j < |usages| == |matches|
    ensures before + HighFor(menu, usages, matches, j + 1)
         == before + HighFor(menu, usages, matches, j) + OptionToSeq(HighAt(menu, usages, matches, j))
  {
  }

  lemma MediumStep(menu: MenuAsset, apis: seq<ApiAsset>, related: (string, string) -> bool, k: nat, before: seq<MenuApiRelation>)
    requires k < |apis|
    ensures before + MediumFor(menu, apis, related, k + 1)
         == before + MediumFor(menu, apis, related, k) + OptionToSeq(MediumAt(menu, apis, related, k))
  {
  }

  /** The inner loop over the call sites: appends the menu's HIGH relations. */
  method AddSameFileRelations(menu: MenuAsset, apis: seq<ApiAsset>, usages: seq<FrontendApiUsage>, relations: seq<MenuApiRelation>)
    returns (out: seq<MenuApiRelation>)
    ensures out == relations + HighFor(menu, usages, Matches(usages, apis), |usages|)
  {
    ghost var matches := Matches(usages, apis);
    out := relations;
    for j := 0 to |usages|
      invariant out == relations + HighFor(menu, usages, matches, j)
    {
      HighStep(menu, usages, matches, j, relations);
      if menu.sourceFile == usages[j].sourceFile {
        var matchedApi := MatchByPath(usages[j].url, apis);
        MatchesAt(usages, apis, j);
        if matchedApi.Some? {
          out := out + [Relate(menu, matchedApi.value, HIGH, SAME_FILE_REASON)];
        }
      }
    }
  }

  /**
   * The inner loop over the endpoints: appends the menu's MEDIUM relations.
   * The relatedness test is a parameter; buildRelations passes IsLikelyRelated.
   */
  method AddSharedPrefixRelations(menu: MenuAsset, apis: seq<ApiAsset>, related: (string, string) -> bool, relations: seq<MenuApiRelation>)
    returns (out: seq<MenuApiRelation>)
    ensures out == relations + MediumFor(menu, apis, related, |apis|)
  {
    out := relations;
    for k := 0 to |apis|
      invariant out == relations + MediumFor(menu, apis, related, k)
    {
      MediumStep(menu, apis, related, k, relations);
      if related(menu.route, apis[k].path) {
        out := out + [Relate(menu, apis[k], MEDIUM, SHARED_PREFIX_REASON)];
      }
    }
  }

  /** deduplicate: keeps a relation unless one already kept has the same route, path and method. */
  method Deduplicate(relations: seq<MenuApiRelation>) returns (deduped: seq<MenuApiRelation>)
    ensures deduped == Dedup.FirstByKey(relations, RelationKey)
  {
    deduped := [];
    for i := 0 to |relations|
      invariant deduped == Dedup.FirstByKey(relations[..i], RelationKey)
    {
      assert relations[..i + 1][..i] == relations[..i];
      var present := Dedup.HasKey(deduped, RelationKey, RelationKey(relations[i]));
      if !present {
        deduped := deduped + [relations[i]];
      }
    }
    assert relations[..|relations|] == relations;
  }

  /** buildRelations. */
  method BuildRelations(menus: seq<MenuAsset>, apis: seq<ApiAsset>, usages: seq<FrontendApiUsage>)
    returns (result: seq<MenuApiRelation>)
    ensures result == Relations(menus, apis, usages)
  {
    ghost var matches := Matches(usages, apis);
    var relations := [];
    for m := 0 to |menus|
      invariant relations == RelationsOf(menus, apis, usages, matches, IsLikelyRelated, m)
    {
      RelationsOfStep(menus, apis, usages, matches, IsLikelyRelated, m);
      relations := AddSameFileRelations(menus[m], apis, usages, relations);
      relations := AddSharedPrefixRelations(menus[m], apis, IsLikelyRelated, relations);
    }
    result := Deduplicate(relations);
  }

  // ---------------------------------------------------------------- what each menu contributes

  /** HighAt as a function of the call-site index (nothing past the last one). */
  function HighCandidates(menu: MenuAsset, usages: seq<FrontendApiUsage>, matches: seq<Option<ApiAsset>>): nat -> Option<MenuApiRelation>
    requires |usages| == |matches|
  {
    (j: nat) => if j < |usages| then HighAt(menu, usages, matches, j) else None
  }

  /** MediumAt as a function of the endpoint index (nothing past the last one). */
  function MediumCandidates(menu: MenuAsset, apis: seq<ApiAsset>, related: (string, string) -> bool): nat -> Option<MenuApiRelation> {
    (k: nat) => if k < |apis| then MediumAt(menu, apis, related, k) else None
  }

  lemma HighCandidatesAt(menu: MenuAsset, usages: seq<FrontendApiUsage>, matches: seq<Option<ApiAsset>>, j: nat)
    requires j < |usages| == |matches|
    ensures HighCandidates(menu, usages, matches)(j) == HighAt(menu, usages, matches, j)
  {
  }

  lemma MediumCandidatesAt(menu: MenuAsset, apis: seq<ApiAsset>, related: (string, string) -> bool, k: nat)
    requires k < |apis|
    ensures MediumCandidates(menu, apis, related)(k) == MediumAt(menu, apis, related, k)
  {
  }

  /** The HIGH loop keeps exactly the call sites' candidates, in call-site order. */
  lemma {:induction false} HighForAreSomes(menu: MenuAsset, usages: seq<FrontendApiUsage>, matches: seq<Option<ApiAsset>>, n: nat)
    requires n <= |usages| == |matches|
    ensures HighFor(menu, usages, matches, n) == Gather.Somes(n, HighCandidates(menu, usages, matches))
  {
    if n > 0 {
      HighForAreSomes(menu, usages, matches, n - 1);
      HighCandidatesAt(menu, usages, matches, n - 1);
    }
  }

  /** The MEDIUM loop keeps exactly the endpoints' candidates, in endpoint order. */
  lemma {:induction false} MediumForAreSomes(menu: MenuAsset, apis: seq<ApiAsset>, related: (string, string) -> bool, n: nat)
    requires n <= |apis|
    ensures MediumFor(menu, apis, related, n) == Gather.Somes(n, MediumCandidates(menu, apis, related))
  {
    if n > 0 {
      MediumForAreSomes(menu, apis, related, n - 1);
      MediumCandidatesAt(menu, apis, related, n - 1);
    }
  }

  /** Call site j yields r exactly when it is in the menu's file, resolves to an endpoint, and r links the two. */
  lemma HighAtSpec(menu: MenuAsset, usages: seq<FrontendApiUsage>, matches: seq<Option<ApiAsset>>, j: nat, r: MenuApiRelation)
    requires j < |usages| == |matches|
    ensures HighAt(menu, usages, matches, j) == Some(r) <==>
      usages[j].sourceFile == menu.sourceFile && matches[j].Some? && r == Relate(menu, matches[j].value, HIGH, SAME_FILE_REASON)
  {
  }

  /** Every HIGH relation of a menu is the candidate of some call site. */
  lemma HighForSound(menu: MenuAsset, usages: seq<FrontendApiUsage>, matches: seq<Option<ApiAsset>>, r: MenuApiRelation)
    returns (j: nat)
    requires |usages| == |matches| && r in HighFor(menu, usages, matches, |usages|)
    ensures j < |usages| && HighAt(menu, usages, matches, j) == Some(r)
  {
    var cands := HighCandidates(menu, usages, matches);
    HighForAreSomes(menu, usages, matches, |usages|);
    Gather.SomesSound(|usages|, cands, r);
    j :| 0 <= j < |usages| && cands(j) == Some(r);
    HighCandidatesAt(menu, usages, matches, j);
  }

  /** Every call site's candidate is among the menu's HIGH relations. */
  lemma HighForComplete(menu: MenuAsset, usages: seq<FrontendApiUsage>, matches: seq<Option<ApiAsset>>, j: nat)
    requires j < |usages| == |matches| && HighAt(menu, usages, matches, j).Some?
    ensures HighAt(menu, usages, matches, j).value in HighFor(menu, usages, matches, |usages|)
  {
    HighForAreSomes(menu, usages, matches, |usages|);
    HighCandidatesAt(menu, usages, matches, j);
    Gather.SomesComplete(|usages|, HighCandidates(menu, usages, matches), j);
  }

  /** A menu's HIGH relations are those of the call sites in its own file, each naming the endpoint the site resolves to. */
  lemma HighForMember(menu: MenuAsset, usages: seq<FrontendApiUsage>, matches: seq<Option<ApiAsset>>, r: MenuApiRelation)
    requires |usages| == |matches|
    ensures r in HighFor(menu, usages, matches, |usages|) <==>
      exists j :: 0 <= j < |usages| && usages[j].sourceFile == menu.sourceFile
        && matches[j].Some? && r == Relate(menu, matches[j].value, HIGH, SAME_FILE_REASON)
  {
    if r in HighFor(menu, usages, matches, |usages|) {
      var j := HighForSound(menu, usages, matches, r);
      HighAtSpec(menu, usages, matches, j, r);
    }
    forall j | 0 <= j < |usages| && usages[j].sourceFile == menu.sourceFile
        && matches[j].Some? && r == Relate(menu, matches[j].value, HIGH, SAME_FILE_REASON)
      ensures r in HighFor(menu, usages, matches, |usages|)
    {
      HighAtSpec(menu, usages, matches, j, r);
      HighForComplete(menu, usages, matches, j);
    }
  }

  /** A menu's MEDIUM relations are those of the endpoints whose path is related to its route, in endpoint order. */
  lemma MediumForMember(menu: MenuAsset, apis: seq<ApiAsset>, related: (string, string) -> bool, r: MenuApiRelation)
    ensures r in MediumFor(menu, apis, related, |apis|) <==>
      exists k :: 0 <= k < |apis| && related(menu.route, apis[k].path)
        && r == Relate(menu, apis[k], MEDIUM, SHARED_PREFIX_REASON)
  {
    var cands := MediumCandidates(menu, apis, related);
    MediumForAreSomes(menu, apis, related, |apis|);
    if r in MediumFor(menu, apis, related, |apis|) {
      Gather.SomesSound(|apis|, cands, r);
      var k :| 0 <= k < |apis| && cands(k) == Some(r);
      MediumCandidatesAt(menu, apis, related, k);
      assert related(menu.route, apis[k].path);
    }
    if exists k :: 0 <= k < |apis| && related(menu.route, apis[k].path)
        && r == Relate(menu, apis[k], MEDIUM, SHARED_PREFIX_REASON) {
      var k :| 0 <= k < |apis| && related(menu.route, apis[k].path)
        && r == Relate(menu, apis[k], MEDIUM, SHARED_PREFIX_REASON);
      MediumCandidatesAt(menu, apis, related, k);
      Gather.SomesComplete(|apis|, cands, k);
    }
  }

  /** Relation r is one that menu mi contributes before deduplication. */
  predicate FromMenu(menus: seq<MenuAsset>, apis: seq<ApiAsset>, usages: seq<FrontendApiUsage>, matches: seq<Option<ApiAsset>>, related: (string, string) -> bool, mi: nat, r: MenuApiRelation)
    requires mi < |menus| && |usages| == |matches|
  {
    r in MenuRelations(menus, apis, usages, matches, related, mi)
  }

  lemma MenuBlocksAt(menus: seq<MenuAsset>, apis: seq<ApiAsset>, usages: seq<FrontendApiUsage>, matches: seq<Option<ApiAsset>>, related: (string, string) -> bool, mi: nat)
    requires mi < |menus| && |usages| == |matches|
    ensures MenuBlocks(menus, apis, usages, matches, related)(mi) == MenuRelations(menus, apis, usages, matches, related, mi)
  {
  }

  /** Every relation listed before deduplication comes from one of the first n menus, menu mi. */
  lemma RelationsOfSound(menus: seq<MenuAsset>, apis: seq<ApiAsset>, usages: seq<FrontendApiUsage>, matches: seq<Option<ApiAsset>>, related: (string, string) -> bool, n: nat, r: MenuApiRelation)
    returns (mi: nat)
    requires n <= |menus| && |usages| == |matches|
    requires r in RelationsOf(menus, apis, usages, matches, related, n)
    ensures mi < n && FromMenu(menus, apis, usages, matches, related, mi, r)
  {
    mi := Gather.ConcatSound(n, MenuBlocks(menus, apis, usages, matches, related), r);
    MenuBlocksAt(menus, apis, usages, matches, related, mi);
  }

  /** What any of the first n menus contributes is listed before deduplication. */
  lemma RelationsOfComplete(menus: seq<MenuAsset>, apis: seq<ApiAsset>, usages: seq<FrontendApiUsage>, matches: seq<Option<ApiAsset>>, related: (string, string) -> bool, n: nat, mi: nat, r: MenuApiRelation)
    requires n <= |menus| && |usages| == |matches|
    requires mi < n && FromMenu(menus, apis, usages, matches, related, mi, r)
    ensures r in RelationsOf(menus, apis, usages, matches, related, n)
  {
    MenuBlocksAt(menus, apis, usages, matches, related, mi);
    Gather.ConcatComplete(n, MenuBlocks(menus, apis, usages, matches, related), mi, r);
  }

  /** The list for n menus begins with the list for fewer menus. */
  lemma RelationsOfPrefix(menus: seq<MenuAsset>, apis: seq<ApiAsset>, usages: seq<FrontendApiUsage>, matches: seq<Option<ApiAsset>>, related: (string, string) -> bool, m: nat, n: nat)
    requires m <= n <= |menus| && |usages| == |matches|
    ensures |RelationsOf(menus, apis, usages, matches, related, m)| <= |RelationsOf(menus, apis, usages, matches, related, n)|
    ensures RelationsOf(menus, apis, usages, matches, related, n)[..|RelationsOf(menus, apis, usages, matches, related, m)|] == RelationsOf(menus, apis, usages, matches, related, m)
  {
    Gather.ConcatPrefix(m, n, MenuBlocks(menus, apis, usages, matches, related));
  }

  /** One more menu appends its HIGH relations, then its MEDIUM ones. */
  lemma RelationsOfStep(menus: seq<MenuAsset>, apis: seq<ApiAsset>, usages: seq<FrontendApiUsage>, matches: seq<Option<ApiAsset>>, related: (string, string) -> bool, mi: nat)
    requires mi < |menus| && |usages| == |matches|
    ensures RelationsOf(menus, apis, usages, matches, related, mi + 1)
         == RelationsOf(menus, apis, usages, matches, related, mi)
            + HighFor(menus[mi], usages, matches, |usages|)
            + MediumFor(menus[mi], apis, related, |apis|)
  {
    MenuBlocksAt(menus, apis, usages, matches, related, mi);
  }

  // ---------------------------------------------------------------- what buildRelations promises

  /** A HIGH relation: a call site in the menu's own file resolves to the endpoint named. */
  predicate CoLocated(menu: MenuAsset, apis: seq<ApiAsset>, usages: seq<FrontendApiUsage>, r: MenuApiRelation) {
    exists j :: 0 <= j < |usages| && usages[j].sourceFile == menu.sourceFile
      && MatchedApi(usages[j].url, apis).Some?
      && r == Relate(menu, MatchedApi(usages[j].url, apis).value, HIGH, SAME_FILE_REASON)
  }

  /** A MEDIUM relation: the endpoint's path is likely related to the menu's route. */
  predicate SharesPrefix(menu: MenuAsset, apis: seq<ApiAsset>, r: MenuApiRelation) {
    exists k :: 0 <= k < |apis| && IsLikelyRelated(menu.route, apis[k].path)
      && r == Relate(menu, apis[k], MEDIUM, SHARED_PREFIX_REASON)
  }

  /** The HIGH relations of a menu are exactly its co-located ones. */
  lemma CoLocatedSpec(menu: MenuAsset, apis: seq<ApiAsset>, usages: seq<FrontendApiUsage>, r: MenuApiRelation)
    ensures r in HighFor(menu, usages, Matches(usages, apis), |usages|) <==> CoLocated(menu, apis, usages, r)
  {
    var matches := Matches(usages, apis);
    HighForMember(menu, usages, matches, r);
    if r in HighFor(menu, usages, matches, |usages|) {
      var j :| 0 <= j < |usages| && usages[j].sourceFile == menu.sourceFile
        && matches[j].Some? && r == Relate(menu, matches[j].value, HIGH, SAME_FILE_REASON);
      MatchesAt(usages, apis, j);
    }
    if CoLocated(menu, apis, usages, r) {
      var j :| 0 <= j < |usages| && usages[j].sourceFile == menu.sourceFile
        && MatchedApi(usages[j].url, apis).Some?
        && r == Relate(menu, MatchedApi(usages[j].url, apis).value, HIGH, SAME_FILE_REASON);
      MatchesAt(usages, apis, j);
    }
  }

  /** What menu mi contributes is its co-located HIGH relations and its related MEDIUM ones. */
  lemma FromMenuSpec(menus: seq<MenuAsset>, apis: seq<ApiAsset>, usages: seq<FrontendApiUsage>, mi: nat, r: MenuApiRelation)
    requires mi < |menus|
    ensures FromMenu(menus, apis, usages, Matches(usages, apis), IsLikelyRelated, mi, r) <==>
      CoLocated(menus[mi], apis, usages, r) || SharesPrefix(menus[mi], apis, r)
  {
    CoLocatedSpec(menus[mi], apis, usages, r);
    MediumForMember(menus[mi], apis, IsLikelyRelated, r);
  }

  /**
   * Every relation returned comes from some menu: either a call site in
   * that menu's file resolves to the endpoint (HIGH) or the endpoint's
   * first path segment is the route's (MEDIUM).
   */
  lemma RelationSound(menus: seq<MenuAsset>, apis: seq<ApiAsset>, usages: seq<FrontendApiUsage>, r: MenuApiRelation)
    requires r in Relations(menus, apis, usages)
    ensures exists mi :: 0 <= mi < |menus| && (CoLocated(menus[mi], apis, usages, r) || SharesPrefix(menus[mi], apis, r))
  {
    var raw := AllRelations(menus, apis, usages);
    var out := Dedup.FirstByKey(raw, RelationKey);
    var idx := Dedup.FirstByKeyIndices(raw, RelationKey);
    var k :| 0 <= k < |out| && out[k] == r;
    assert raw[idx[k]] == r;
    var mi := RelationsOfSound(menus, apis, usages, Matches(usages, apis), IsLikelyRelated, |menus|, r);
    FromMenuSpec(menus, apis, usages, mi, r);
  }

  /** No two relations returned share a route, path and method. */
  lemma RelationsDistinctKeys(menus: seq<MenuAsset>, apis: seq<ApiAsset>, usages: seq<FrontendApiUsage>)
    ensures forall i, j :: 0 <= i < j < |Relations(menus, apis, usages)| ==>
      RelationKey(Relations(menus, apis, usages)[i]) != RelationKey(Relations(menus, apis, usages)[j])
  {
    Dedup.FirstByKeyDistinct(AllRelations(menus, apis, usages), RelationKey);
  }

  /**
   * Every relation some menu contributes is represented in the result: a
   * relation with the same route, path and method is returned.
   */
  lemma RelationComplete(menus: seq<MenuAsset>, apis: seq<ApiAsset>, usages: seq<FrontendApiUsage>, mi: nat, r: MenuApiRelation)
    requires mi < |menus|
    requires CoLocated(menus[mi], apis, usages, r) || SharesPrefix(menus[mi], apis, r)
    ensures exists s :: s in Relations(menus, apis, usages) && RelationKey(s) == RelationKey(r)
  {
    var raw := AllRelations(menus, apis, usages);
    FromMenuSpec(menus, apis, usages, mi, r);
    RelationsOfComplete(menus, apis, usages, Matches(usages, apis), IsLikelyRelated, |menus|, mi, r);
    var p :| 0 <= p < |raw| && raw[p] == r;
    assert Dedup.HasKey(raw, RelationKey, RelationKey(r));
    Dedup.FirstByKeyKeys(raw, RelationKey, RelationKey(r));
    var out := Dedup.FirstByKey(raw, RelationKey);
    var q :| 0 <= q < |out| && RelationKey(out[q]) == RelationKey(r);
    assert out[q] in out;
  }

  /** The first relation carrying the key of a HIGH relation of menu mi lies in mi's HIGH block when no earlier menu has that key. */
  lemma HighWinsFirst(menus: seq<MenuAsset>, apis: seq<ApiAsset>, usages: seq<FrontendApiUsage>, matches: seq<Option<ApiAsset>>, related: (string, string) -> bool, mi: nat, h: MenuApiRelation)
    returns (f: nat)
    requires mi < |menus| && |usages| == |matches|
    requires h in HighFor(menus[mi], usages, matches, |usages|)
    requires !Dedup.HasKey(RelationsOf(menus, apis, usages, matches, related, mi), RelationKey, RelationKey(h))
    ensures var before := RelationsOf(menus, apis, usages, matches, related, mi);
      var high := HighFor(menus[mi], usages, matches, |usages|);
      var raw := RelationsOf(menus, apis, usages, matches, related, |menus|);
      |before| <= f < |before| + |high| <= |raw| && raw[f] == high[f - |before|] && raw[f] in high
      && RelationKey(raw[f]) == RelationKey(h) && Dedup.IsFirstOfKey(raw, RelationKey, f)
  {
    var before := RelationsOf(menus, apis, usages, matches, related, mi);
    var high := HighFor(menus[mi], usages, matches, |usages|);
    var medium := MediumFor(menus[mi], apis, related, |apis|);
    var raw := RelationsOf(menus, apis, usages, matches, related, |menus|);
    RelationsOfStep(menus, apis, usages, matches, related, mi);
    RelationsOfPrefix(menus, apis, usages, matches, related, mi + 1, |menus|);
    f := Dedup.FirstInBlock(raw, before, high, medium, RelationKey, h);
  }
  /**
   * Within a menu the HIGH relations come before the MEDIUM ones, so when no
   * earlier menu produced the key of one of its HIGH relations, the
   * relation returned for that key is HIGH and belongs to this menu.
   */
  lemma HighWins(menus: seq<MenuAsset>, apis: seq<ApiAsset>, usages: seq<FrontendApiUsage>, mi: nat, h: MenuApiRelation)
    requires mi < |menus| && CoLocated(menus[mi], apis, usages, h)
    requires !Dedup.HasKey(RelationsOf(menus, apis, usages, Matches(usages, apis), IsLikelyRelated, mi), RelationKey, RelationKey(h))
    ensures exists s :: s in Relations(menus, apis, usages) && RelationKey(s) == RelationKey(h)
    ensures forall s :: s in Relations(menus, apis, usages) && RelationKey(s) == RelationKey(h) ==>
      s.confidence == HIGH && s.menuTitle == menus[mi].title
    ensures h in Relations(menus, apis, usages)
  {
    var menu := menus[mi];
    var matches := Matches(usages, apis);
    var raw := AllRelations(menus, apis, usages);
    var out := Dedup.FirstByKey(raw, RelationKey);
    CoLocatedSpec(menu, apis, usages, h);
    var f := HighWinsFirst(menus, apis, usages, matches, IsLikelyRelated, mi, h);
    var first := raw[f];
    HighForMember(menu, usages, matches, first);
    Dedup.FirstByKeyKeepsFirst(raw, RelationKey, f);
    Dedup.FirstByKeyDistinct(raw, RelationKey);
    forall s | s in out && RelationKey(s) == RelationKey(h)
      ensures s.confidence == HIGH && s.menuTitle == menu.title
    {
      Dedup.DistinctKeysSame(out, RelationKey, s, first);
    }
    assert first == h;
  }


  /** The first relation with m's key sits in menu mi's MEDIUM block when neither earlier menus nor mi's HIGH block have that key. */
  lemma MediumWinsFirst(menus: seq<MenuAsset>, apis: seq<ApiAsset>, usages: seq<FrontendApiUsage>, matches: seq<Option<ApiAsset>>, related: (string, string) -> bool, mi: nat, m: MenuApiRelation)
    returns (f: nat)
    requires mi < |menus| && |usages| == |matches|
    requires m in MediumFor(menus[mi], apis, related, |apis|)
    requires !Dedup.HasKey(RelationsOf(menus, apis, usages, matches, related, mi), RelationKey, RelationKey(m))
    requires !Dedup.HasKey(HighFor(menus[mi], usages, matches, |usages|), RelationKey, RelationKey(m))
    ensures var medium := MediumFor(menus[mi], apis, related, |apis|);
      var raw := RelationsOf(menus, apis, usages, matches, related, |menus|);
      f < |raw| && raw[f] in medium && RelationKey(raw[f]) == RelationKey(m) && Dedup.IsFirstOfKey(raw, RelationKey, f)
  {
    var before := RelationsOf(menus, apis, usages, matches, related, mi);
    var high := HighFor(menus[mi], usages, matches, |usages|);
    var medium := MediumFor(menus[mi], apis, related, |apis|);
    var raw := RelationsOf(menus, apis, usages, matches, related, |menus|);
    RelationsOfStep(menus, apis, usages, matches, related, mi);
    RelationsOfPrefix(menus, apis, usages, matches, related, mi + 1, |menus|);
    Dedup.HasKeyAppend(before, high, RelationKey, RelationKey(m));
    assert before + high + medium + [] == before + high + medium;
    f := Dedup.FirstInBlock(raw, before + high, medium, [], RelationKey, m);
  }

  /**
   * The first menu to produce a key wins even with a MEDIUM relation: when
   * no earlier menu produced the key of one of menu mi's MEDIUM relations
   * and none of mi's own HIGH relations has it, the relation returned for
   * that key is MEDIUM and belongs to menu mi, whatever later menus add.
   */
  lemma MediumWins(menus: seq<MenuAsset>, apis: seq<ApiAsset>, usages: seq<FrontendApiUsage>, mi: nat, m: MenuApiRelation)
    requires mi < |menus| && SharesPrefix(menus[mi], apis, m)
    requires !Dedup.HasKey(RelationsOf(menus, apis, usages, Matches(usages, apis), IsLikelyRelated, mi), RelationKey, RelationKey(m))
    requires forall h :: CoLocated(menus[mi], apis, usages, h) ==> RelationKey(h) != RelationKey(m)
    ensures exists s :: s in Relations(menus, apis, usages) && RelationKey(s) == RelationKey(m)
    ensures forall s :: s in Relations(menus, apis, usages) && RelationKey(s) == RelationKey(m) ==>
      s.confidence == MEDIUM && s.menuTitle == menus[mi].title
    ensures m in Relations(menus, apis, usages)
  {
    var menu := menus[mi];
    var matches := Matches(usages, apis);
    var raw := AllRelations(menus, apis, usages);
    var out := Dedup.FirstByKey(raw, RelationKey);
    var high := HighFor(menu, usages, matches, |usages|);
    MediumForMember(menu, apis, IsLikelyRelated, m);
    assert !Dedup.HasKey(high, RelationKey, RelationKey(m)) by {
      forall i | 0 <= i < |high| ensures RelationKey(high[i]) != RelationKey(m) {
        CoLocatedSpec(menu, apis, usages, high[i]);
      }
    }
    var f := MediumWinsFirst(menus, apis, usages, matches, IsLikelyRelated, mi, m);
    var first := raw[f];
    MediumForMember(menu, apis, IsLikelyRelated, first);
    Dedup.FirstByKeyKeepsFirst(raw, RelationKey, f);
    Dedup.FirstByKeyDistinct(raw, RelationKey);
    forall s | s in out && RelationKey(s) == RelationKey(m)
      ensures s.confidence == MEDIUM && s.menuTitle == menu.title
    {
      Dedup.DistinctKeysSame(out, RelationKey, s, first);
    }
    assert first == m;
  }
}
