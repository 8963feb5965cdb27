/**
 * FrontendScanner: finds navigation menus and HTTP calls in Vue, JavaScript
 * and HTML text.  Menus come from `<el-menu-item>` tags and anchors, line by
 * line, and from route objects over the whole text; API usages come from
 * axios, `$http`/`request`/`http` clients and `fetch` calls over the whole
 * text.  Both kinds of record are then merged by their identity keys.
 */
module FrontendScanner {
  import opened Wrappers
  import opened JavaText
  import opened Records
  import Dedup
  import Gather

  /**
   * One result of Matcher.find() over the whole text: where the match
   * starts and the text of its first two groups.
   */
  datatype Found = Found(start: nat, group1: string, group2: string)

  /**
   * The patterns that are not written out here.  The per-line ones give
   * groups 1 and 2 of the first match on the line; the whole-text ones give
   * every match of successive find() calls, in order.
   *   menuItemTag     MENU_ITEM_TAG: (index-or-to value, item text)
   *   aHref           A_HREF: (href value, anchor text)
   *   routeObject     ROUTE_OBJECT: group1 path, group2 title
   *   axiosCall       AXIOS_CALL: group1 verb, group2 url
   *   httpClientCall  HTTP_CLIENT_CALL: group1 verb, group2 url
   *   fetchCall       FETCH_CALL: group1 url
   */
  datatype FrontendPatterns = FrontendPatterns(
    menuItemTag: string -> Option<(string, string)>,
    aHref: string -> Option<(string, string)>,
    routeObject: string -> seq<Found>,
    axiosCall: string -> seq<Found>,
    httpClientCall: string -> seq<Found>,
    fetchCall: string -> seq<Found>)

  function Min(a: int, b: int): int {
    if a < b then a else b
  }

  // ---------------------------------------------------------------- line numbers

  /** The number of '\n' characters in s. */
  function CountNewlines(s: string): (n: nat)
    ensures n <= |s|
  {
    if s == [] then 0 else CountNewlines(s[..|s| - 1]) + (if s[|s| - 1] == '\n' then 1 else 0)
  }

  /** lineNumber as a function: one more than the '\n' characters before the position, counting no further than the end of the text. */
  function LineOf(content: string, position: nat): (line: nat)
    ensures 1 <= line <= |content| + 1
  {
    1 + CountNewlines(content[..Min(position, |content|)])
  }

  /** lineNumber: counts '\n' below the position and below the length of the text. */
  method LineNumber(content: string, position: nat) returns (lines: nat)
    ensures lines == LineOf(content, position)
  {
    lines := 1;
    var i := 0;
    while i < position && i < |content|
      invariant i <= position && i <= |content|
      invariant lines == 1 + CountNewlines(content[..i])
    {
      assert content[..i + 1][..i] == content[..i];
      if content[i] == '\n' {
        lines := lines + 1;
      }
      i := i + 1;
    }
  }

  lemma {:induction false} CountNewlinesMonotone(s: string, i: nat, j: nat)
    requires i <= j <= |s|
    ensures CountNewlines(s[..i]) <= CountNewlines(s[..j])
    decreases j - i
  {
    if i < j {
      CountNewlinesMonotone(s, i, j - 1);
      assert s[..j][..j - 1] == s[..j - 1];
    }
  }

  /** A later position is never on an earlier line. */
  lemma LineOfMonotone(content: string, p: nat, q: nat)
    requires p <= q
    ensures LineOf(content, p) <= LineOf(content, q)
  {
    CountNewlinesMonotone(content, Min(p, |content|), Min(q, |content|));
  }

  /** Moving one character forward changes the line exactly when that character is '\n'. */
  lemma LineOfStep(content: string, p: nat)
    requires p < |content|
    ensures LineOf(content, p + 1) == LineOf(content, p) + (if content[p] == '\n' then 1 else 0)
  {
    assert content[..p + 1][..p] == content[..p];
  }

  // ---------------------------------------------------------------- menus

  /** The record a `<el-menu-item>` tag on line i gives: trimmed text as title, trimmed index/to as route, named line i + 1. */
  function TagMenu(lines: seq<string>, i: nat, file: string, pats: FrontendPatterns): Option<MenuAsset>
    requires i < |lines|
  {
    match pats.menuItemTag(lines[i])
    case Some(groups) => Some(MenuAsset(Trim(groups.1), Trim(groups.0), file, i + 1))
    case None => None
  }

  /** A line yields a tag record exactly when the tag pattern matches it; title and route are the trimmed groups. */
  lemma TagMenuSpec(lines: seq<string>, i: nat, file: string, pats: FrontendPatterns)
    requires i < |lines|
    ensures TagMenu(lines, i, file, pats).Some? <==> pats.menuItemTag(lines[i]).Some?
    ensures TagMenu(lines, i, file, pats).Some? ==>
      var m := TagMenu(lines, i, file, pats).value;
      && m.route == Trim(pats.menuItemTag(lines[i]).value.0)
      && m.title == Trim(pats.menuItemTag(lines[i]).value.1)
      && m.sourceFile == file
      && m.line == i + 1
  {
  }

  /** An anchor target that scanMenus accepts as a menu route. */
  predicate IsMenuHref(href: string) {
    StartsWith(href, "/") || StartsWith(href, "#")
  }

  /** The record an anchor on line i gives, when its trimmed href starts with '/' or '#'; it names line i + 1. */
  function AnchorMenu(lines: seq<string>, i: nat, file: string, pats: FrontendPatterns): Option<MenuAsset>
    requires i < |lines|
  {
    match pats.aHref(lines[i])
    case Some(groups) =>
      var href := Trim(groups.0);
      if IsMenuHref(href) then Some(MenuAsset(Trim(groups.1), href, file, i + 1)) else None
    case None => None
  }

  /** An anchor yields a menu exactly when its trimmed href starts with '/' or '#'; the route is that trimmed href. */
  lemma AnchorMenuSpec(lines: seq<string>, i: nat, file: string, pats: FrontendPatterns)
    requires i < |lines|
    ensures AnchorMenu(lines, i, file, pats).Some? <==>
      pats.aHref(lines[i]).Some? && IsMenuHref(Trim(pats.aHref(lines[i]).value.0))
    ensures AnchorMenu(lines, i, file, pats).Some? ==>
      var m := AnchorMenu(lines, i, file, pats).value;
      && m.route == Trim(pats.aHref(lines[i]).value.0)
      && (m.route[0] == '/' || m.route[0] == '#')
      && m.title == Trim(pats.aHref(lines[i]).value.1)
      && m.sourceFile == file
      && m.line == i + 1
  {
  }

  /** The record a route object gives: trimmed title and path, on the line where the match starts. */
  function RouteMenu(content: string, file: string, f: Found): MenuAsset {
    MenuAsset(Trim(f.group2), Trim(f.group1), file, LineOf(content, f.start))
  }

  /** The records of scanMenus' line loop for the first n lines, in line order. */
  function TagMenusOf(lines: seq<string>, n: nat, file: string, pats: FrontendPatterns): seq<MenuAsset>
    requires n <= |lines|
  {
    if n == 0 then [] else
      TagMenusOf(lines, n - 1, file, pats)
      + OptionToSeq(TagMenu(lines, n - 1, file, pats)) + OptionToSeq(AnchorMenu(lines, n - 1, file, pats))
  }

  /** The records of scanMenus' route loop, one per route object, in match order. */
  function RouteMenusOf(content: string, file: string, routes: seq<Found>): seq<MenuAsset> {
    if routes == [] then []
    else RouteMenusOf(content, file, routes[..|routes| - 1]) + [RouteMenu(content, file, routes[|routes| - 1])]
  }

  /** Everything scanMenus returns: the per-line records, then the route-object records. */
  function MenusOf(content: string, file: string, pats: FrontendPatterns): seq<MenuAsset> {
    var lines := SplitLines(content);
    TagMenusOf(lines, |lines|, file, pats) + RouteMenusOf(content, file, pats.routeObject(content))
  }

  /** One more route object appends its record to what the route objects before it gave. */
  lemma RouteMenusStep(content: string, file: string, routes: seq<Found>, k: nat, tagged: seq<MenuAsset>)
    requires k < |routes|
    ensures tagged + RouteMenusOf(content, file, routes[..k + 1])
      == tagged + RouteMenusOf(content, file, routes[..k]) + [RouteMenu(content, file, routes[k])]
  {
    assert routes[..k + 1][..k] == routes[..k];
  }

  /** The body of scanMenus' line loop for line i: the tag record and the anchor record it adds, if any. */
  method MenusAt(lines: seq<string>, i: nat, file: string, pats: FrontendPatterns)
    returns (tag: Option<MenuAsset>, anchor: Option<MenuAsset>)
    requires i < |lines|
    ensures tag == TagMenu(lines, i, file, pats)
    ensures anchor == AnchorMenu(lines, i, file, pats)
  {
    tag, anchor := None, None;
    var menuTag := pats.menuItemTag(lines[i]);
    if menuTag.Some? {
      tag := Some(MenuAsset(Trim(menuTag.value.1), Trim(menuTag.value.0), file, i + 1));
    }
    var aTag := pats.aHref(lines[i]);
    if aTag.Some? {
      var href := Trim(aTag.value.0);
      if StartsWith(href, "/") || StartsWith(href, "#") {
        anchor := Some(MenuAsset(Trim(aTag.value.1), href, file, i + 1));
      }
    }
  }

  /** The line loop of scanMenus. */
  method ScanMenuLines(lines: seq<string>, file: string, pats: FrontendPatterns) returns (menuAssets: seq<MenuAsset>)
    ensures menuAssets == TagMenusOf(lines, |lines|, file, pats)
  {
    menuAssets := [];
    for i := 0 to |lines|
      invariant menuAssets == TagMenusOf(lines, i, file, pats)
    {
      var tag, anchor := MenusAt(lines, i, file, pats);
      menuAssets := menuAssets + OptionToSeq(tag) + OptionToSeq(anchor);
    }
  }

  /** The body of scanMenus' route loop: the record for one route-object match. */
  method MakeRouteMenu(content: string, file: string, f: Found) returns (menu: MenuAsset)
    ensures menu == RouteMenu(content, file, f)
  {
    var line := LineNumber(content, f.start);
    menu := MenuAsset(Trim(f.group2), Trim(f.group1), file, line);
  }

  /** The route loop of scanMenus: appends one record per route object to what the line loop found. */
  method AddRouteMenus(content: string, file: string, routes: seq<Found>, tagged: seq<MenuAsset>)
    returns (menuAssets: seq<MenuAsset>)
    ensures menuAssets == tagged + RouteMenusOf(content, file, routes)
  {
    menuAssets := tagged;
    for k := 0 to |routes|
      invariant menuAssets == tagged + RouteMenusOf(content, file, routes[..k])
    {
      var menu := MakeRouteMenu(content, file, routes[k]);
      RouteMenusStep(content, file, routes, k, tagged);
      menuAssets := menuAssets + [menu];
    }
    assert routes[..|routes|] == routes;
  }

  /** scanMenus: the line loop, then one record per route object in the whole text. */
  method ScanMenus(content: string, file: string, pats: FrontendPatterns) returns (menuAssets: seq<MenuAsset>)
    ensures menuAssets == MenusOf(content, file, pats)
  {
    menuAssets := ScanMenuLines(SplitLines(content), file, pats);
    menuAssets := AddRouteMenus(content, file, pats.routeObject(content), menuAssets);
  }

  /** m is the tag record or the accepted anchor record of line i. */
  predicate MenuOfLine(lines: seq<string>, i: nat, file: string, pats: FrontendPatterns, m: MenuAsset)
    requires i < |lines|
  {
    TagMenu(lines, i, file, pats) == Some(m) || AnchorMenu(lines, i, file, pats) == Some(m)
  }

  /** TagMenu as a function of the line index (nothing past the last line). */
  function TagMenus(lines: seq<string>, file: string, pats: FrontendPatterns): nat -> Option<MenuAsset> {
    (i: nat) => if i < |lines| then TagMenu(lines, i, file, pats) else None
  }

  /** AnchorMenu as a function of the line index (nothing past the last line). */
  function AnchorMenus(lines: seq<string>, file: string, pats: FrontendPatterns): nat -> Option<MenuAsset> {
    (i: nat) => if i < |lines| then AnchorMenu(lines, i, file, pats) else None
  }

  lemma TagMenusAt(lines: seq<string>, i: nat, file: string, pats: FrontendPatterns)
    requires i < |lines|
    ensures TagMenus(lines, file, pats)(i) == TagMenu(lines, i, file, pats)
  {
  }

  lemma AnchorMenusAt(lines: seq<string>, i: nat, file: string, pats: FrontendPatterns)
    requires i < |lines|
    ensures AnchorMenus(lines, file, pats)(i) == AnchorMenu(lines, i, file, pats)
  {
  }

  /** The line loop keeps, line by line, the tag record and then the anchor record. */
  lemma {:induction false} TagMenusAreSomes(lines: seq<string>, n: nat, file: string, pats: FrontendPatterns)
    requires n <= |lines|
    ensures TagMenusOf(lines, n, file, pats) == Gather.Somes2(n, TagMenus(lines, file, pats), AnchorMenus(lines, file, pats))
  {
    if n > 0 {
      TagMenusAreSomes(lines, n - 1, file, pats);
      TagMenusAt(lines, n - 1, file, pats);
      AnchorMenusAt(lines, n - 1, file, pats);
    }
  }

  /** Every line-loop record is the tag record or the accepted anchor record of the line it names. */
  lemma TagMenuSound(lines: seq<string>, n: nat, file: string, pats: FrontendPatterns, m: MenuAsset)
    requires n <= |lines| && m in TagMenusOf(lines, n, file, pats)
    ensures exists i :: 0 <= i < n && MenuOfLine(lines, i, file, pats, m) && m.line == i + 1
  {
    var tags, anchors := TagMenus(lines, file, pats), AnchorMenus(lines, file, pats);
    TagMenusAreSomes(lines, n, file, pats);
    Gather.Somes2Sound(n, tags, anchors, m);
    var i :| 0 <= i < n && (tags(i) == Some(m) || anchors(i) == Some(m));
    TagMenusAt(lines, i, file, pats);
    AnchorMenusAt(lines, i, file, pats);
    TagMenuSpec(lines, i, file, pats);
    AnchorMenuSpec(lines, i, file, pats);
    assert MenuOfLine(lines, i, file, pats, m);
  }

  /** Every menu tag and every accepted anchor yields its record. */
  lemma TagMenuComplete(lines: seq<string>, n: nat, file: string, pats: FrontendPatterns, i: nat)
    requires i < n <= |lines|
    ensures TagMenu(lines, i, file, pats).Some? ==> TagMenu(lines, i, file, pats).value in TagMenusOf(lines, n, file, pats)
    ensures AnchorMenu(lines, i, file, pats).Some? ==> AnchorMenu(lines, i, file, pats).value in TagMenusOf(lines, n, file, pats)
  {
    var tags, anchors := TagMenus(lines, file, pats), AnchorMenus(lines, file, pats);
    TagMenusAreSomes(lines, n, file, pats);
    Gather.Somes2Complete(n, tags, anchors, i);
    TagMenusAt(lines, i, file, pats);
    AnchorMenusAt(lines, i, file, pats);
  }

  /** RouteMenu as a function of the match. */
  function RouteMenuOf(content: string, file: string): Found -> MenuAsset {
    f => RouteMenu(content, file, f)
  }

  /** The route loop's result is RouteMenu applied to each match, in match order. */
  lemma {:induction false} RouteMenusMap(content: string, file: string, routes: seq<Found>)
    ensures RouteMenusOf(content, file, routes) == Gather.MapSeq(routes, RouteMenuOf(content, file))
  {
    if routes != [] {
      RouteMenusMap(content, file, routes[..|routes| - 1]);
      assert RouteMenuOf(content, file)(routes[|routes| - 1]) == RouteMenu(content, file, routes[|routes| - 1]);
    }
  }

  /** The route loop gives exactly one record per route object, in match order: the k-th record is the k-th match's. */
  lemma RouteMenusInMatchOrder(content: string, file: string, routes: seq<Found>)
    ensures |RouteMenusOf(content, file, routes)| == |routes|
    ensures forall k :: 0 <= k < |routes| ==> RouteMenusOf(content, file, routes)[k] == RouteMenu(content, file, routes[k])
  {
    RouteMenusMap(content, file, routes);
    Gather.MapSeqIndex(routes, RouteMenuOf(content, file));
  }

  /** Every menu record names the file, has trimmed title and route, and a line number of at least 1. */
  lemma MenuShape(content: string, file: string, pats: FrontendPatterns, m: MenuAsset)
    requires m in MenusOf(content, file, pats)
    ensures m.sourceFile == file
    ensures IsTrimmed(m.title) && IsTrimmed(m.route)
    ensures m.line >= 1
  {
    var lines, routes := SplitLines(content), pats.routeObject(content);
    if m in TagMenusOf(lines, |lines|, file, pats) {
      TagMenuSound(lines, |lines|, file, pats, m);
      var i :| 0 <= i < |lines| && MenuOfLine(lines, i, file, pats, m) && m.line == i + 1;
      TagMenuSpec(lines, i, file, pats);
      AnchorMenuSpec(lines, i, file, pats);
    } else {
      RouteMenusInMatchOrder(content, file, routes);
      var k :| 0 <= k < |routes| && RouteMenusOf(content, file, routes)[k] == m;
    }
  }

  // ---------------------------------------------------------------- API usages

  /**
   * The record collectUsages makes for one match: with the verb in group 1
   * it upper-cases that verb and takes the url from group 2, otherwise it
   * uses GET and the url from group 1.
   */
  function UsageAt(content: string, file: string, f: Found, methodInGroup1: bool): FrontendApiUsage {
    FrontendApiUsage(
      if methodInGroup1 then ToUpperCase(f.group1) else "GET",
      if methodInGroup1 then f.group2 else f.group1,
      file,
      LineOf(content, f.start))
  }

  /** One record per match, in match order. */
  function UsagesOf(content: string, file: string, matches: seq<Found>, methodInGroup1: bool): seq<FrontendApiUsage> {
    if matches == [] then []
    else UsagesOf(content, file, matches[..|matches| - 1], methodInGroup1) + [UsageAt(content, file, matches[|matches| - 1], methodInGroup1)]
  }

  /** One more match appends its record to what the matches before it gave. */
  lemma UsagesStep(content: string, file: string, matches: seq<Found>, k: nat, methodInGroup1: bool, before: seq<FrontendApiUsage>)
    requires k < |matches|
    ensures before + UsagesOf(content, file, matches[..k + 1], methodInGroup1)
      == before + UsagesOf(content, file, matches[..k], methodInGroup1) + [UsageAt(content, file, matches[k], methodInGroup1)]
  {
    assert matches[..k + 1][..k] == matches[..k];
  }

  /** Everything scanApiUsages returns: axios calls, then client calls, then fetch calls. */
  function ApiUsagesOf(content: string, file: string, pats: FrontendPatterns): seq<FrontendApiUsage> {
    UsagesOf(content, file, pats.axiosCall(content), true)
    + UsagesOf(content, file, pats.httpClientCall(content), true)
    + UsagesOf(content, file, pats.fetchCall(content), false)
  }

  /** The body of collectUsages' loop (and of scanApiUsages' fetch loop): the record for one match. */
  method MakeUsage(content: string, file: string, f: Found, methodInGroup1: bool) returns (usage: FrontendApiUsage)
    ensures usage == UsageAt(content, file, f, methodInGroup1)
  {
    var verb := if methodInGroup1 then ToUpperCase(f.group1) else "GET";
    var url := if methodInGroup1 then f.group2 else f.group1;
    var line := LineNumber(content, f.start);
    usage := FrontendApiUsage(verb, url, file, line);
  }

  /** The list scanApiUsages fills; collectUsages appends to it. */
  class UsageList {
    var items: seq<FrontendApiUsage>

    constructor ()
      ensures items == []
    {
      items := [];
    }

    /** collectUsages: one record per match of the pattern over the whole text, appended in match order. */
    method CollectUsages(content: string, file: string, pattern: string -> seq<Found>, methodInGroup1: bool)
      modifies this
      ensures items == old(items) + UsagesOf(content, file, pattern(content), methodInGroup1)
    {
      var matches := pattern(content);
      ghost var before := items;
      for k := 0 to |matches|
        invariant items == before + UsagesOf(content, file, matches[..k], methodInGroup1)
      {
        var usage := MakeUsage(content, file, matches[k], methodInGroup1);
        UsagesStep(content, file, matches, k, methodInGroup1, before);
        items := items + [usage];
      }
      assert matches[..|matches|] == matches;
    }
  }

  /** scanApiUsages: axios and client calls through collectUsages, then its own loop over fetch calls. */
  method ScanApiUsages(content: string, file: string, pats: FrontendPatterns) returns (usages: seq<FrontendApiUsage>)
    ensures usages == ApiUsagesOf(content, file, pats)
  {
    var list := new UsageList();
    list.CollectUsages(content, file, pats.axiosCall, true);
    list.CollectUsages(content, file, pats.httpClientCall, true);
    usages := list.items;
    var fetches := pats.fetchCall(content);
    ghost var before := usages;
    for k := 0 to |fetches|
      invariant usages == before + UsagesOf(content, file, fetches[..k], false)
    {
      var usage := MakeUsage(content, file, fetches[k], false);
      UsagesStep(content, file, fetches, k, false, before);
      usages := usages + [usage];
    }
    assert fetches[..|fetches|] == fetches;
  }

  /** UsageAt as a function of the match. */
  function UsageOf(content: string, file: string, methodInGroup1: bool): Found -> FrontendApiUsage {
    f => UsageAt(content, file, f, methodInGroup1)
  }

  /** A match loop's result is UsageAt applied to each match, in match order. */
  lemma {:induction false} UsagesMap(content: string, file: string, matches: seq<Found>, methodInGroup1: bool)
    ensures UsagesOf(content, file, matches, methodInGroup1) == Gather.MapSeq(matches, UsageOf(content, file, methodInGroup1))
  {
    if matches != [] {
      UsagesMap(content, file, matches[..|matches| - 1], methodInGroup1);
      assert UsageOf(content, file, methodInGroup1)(matches[|matches| - 1]) == UsageAt(content, file, matches[|matches| - 1], methodInGroup1);
    }
  }

  /**
   * One record per match, in match order: the k-th record is the k-th
   * match's (upper-case verb and group-2 url when the verb is in group 1,
   * GET and group-1 url otherwise, on the line where the match starts).
   */
  lemma UsagesInMatchOrder(content: string, file: string, matches: seq<Found>, methodInGroup1: bool)
    ensures |UsagesOf(content, file, matches, methodInGroup1)| == |matches|
    ensures forall k :: 0 <= k < |matches| ==>
      UsagesOf(content, file, matches, methodInGroup1)[k] == UsageAt(content, file, matches[k], methodInGroup1)
  {
    UsagesMap(content, file, matches, methodInGroup1);
    Gather.MapSeqIndex(matches, UsageOf(content, file, methodInGroup1));
  }

  /** Every usage of one pattern names the file and sits on a line of at least 1; its verb has no lower-case ASCII letter, and is GET when the pattern has no verb group. */
  lemma UsageShape(content: string, file: string, matches: seq<Found>, methodInGroup1: bool, u: FrontendApiUsage)
    requires u in UsagesOf(content, file, matches, methodInGroup1)
    ensures u.sourceFile == file && u.line >= 1
    ensures forall c :: c in u.httpMethod ==> !('a' <= c <= 'z')
    ensures !methodInGroup1 ==> u.httpMethod == "GET"
  {
    UsagesInMatchOrder(content, file, matches, methodInGroup1);
    var k :| 0 <= k < |matches| && UsagesOf(content, file, matches, methodInGroup1)[k] == u;
  }

  /** scanApiUsages gives one record per axios, client and fetch match, and each record has the shape UsageShape states. */
  lemma ApiUsageShape(content: string, file: string, pats: FrontendPatterns, u: FrontendApiUsage)
    requires u in ApiUsagesOf(content, file, pats)
    ensures |ApiUsagesOf(content, file, pats)|
      == |pats.axiosCall(content)| + |pats.httpClientCall(content)| + |pats.fetchCall(content)|
    ensures u.sourceFile == file && u.line >= 1
    ensures forall c :: c in u.httpMethod ==> !('a' <= c <= 'z')
  {
    var axios, client, fetches := pats.axiosCall(content), pats.httpClientCall(content), pats.fetchCall(content);
    UsagesInMatchOrder(content, file, axios, true);
    UsagesInMatchOrder(content, file, client, true);
    UsagesInMatchOrder(content, file, fetches, false);
    if u in UsagesOf(content, file, axios, true) {
      UsageShape(content, file, axios, true, u);
    } else if u in UsagesOf(content, file, client, true) {
      UsageShape(content, file, client, true, u);
    } else {
      UsageShape(content, file, fetches, false, u);
    }
  }

  // ---------------------------------------------------------------- the whole scan

  /** The `|`-joined identity key of deduplicateMenus. */
  function MenuKey(m: MenuAsset): string {
    m.title + "|" + m.route + "|" + m.sourceFile
  }

  /** The `|`-joined identity key of deduplicateUsages. */
  function UsageKey(u: FrontendApiUsage): string {
    u.httpMethod + "|" + u.url + "|" + u.sourceFile
  }

  /** The files scan reads: names ending in `.vue`, `.js` or `.html` (case-sensitive). */
  predicate IsFrontendFile(path: string) {
    EndsWith(path, ".vue") || EndsWith(path, ".js") || EndsWith(path, ".html")
  }

  datatype ScanResult = ScanResult(menus: map<string, MenuAsset>, apiUsages: map<string, FrontendApiUsage>)

  /** The menu records scan collects before deduplication, in file order. */
  function ScannedMenus(files: seq<SourceFile>, pats: FrontendPatterns): seq<MenuAsset> {
    if files == [] then []
    else
      var init := ScannedMenus(files[..|files| - 1], pats);
      var f := files[|files| - 1];
      if IsFrontendFile(f.path) then init + MenusOf(f.content, f.path, pats) else init
  }

  /** The usage records scan collects before deduplication, in file order. */
  function ScannedUsages(files: seq<SourceFile>, pats: FrontendPatterns): seq<FrontendApiUsage> {
    if files == [] then []
    else
      var init := ScannedUsages(files[..|files| - 1], pats);
      var f := files[|files| - 1];
      if IsFrontendFile(f.path) then init + ApiUsagesOf(f.content, f.path, pats) else init
  }

  /** Every collected menu comes from a `.vue`, `.js` or `.html` file of the input, with trimmed title and route. */
  lemma {:induction false} ScannedMenuShape(files: seq<SourceFile>, pats: FrontendPatterns, m: MenuAsset)
    requires m in ScannedMenus(files, pats)
    ensures IsFrontendFile(m.sourceFile)
    ensures IsTrimmed(m.title) && IsTrimmed(m.route) && m.line >= 1
    ensures exists f :: f in files && f.path == m.sourceFile
    decreases |files|
  {
    var init, f := files[..|files| - 1], files[|files| - 1];
    if m in ScannedMenus(init, pats) {
      ScannedMenuShape(init, pats, m);
      var g :| g in init && g.path == m.sourceFile;
      assert g in files;
    } else {
      MenuShape(f.content, f.path, pats, m);
      assert f in files;
    }
  }

  /** Every collected usage comes from a `.vue`, `.js` or `.html` file of the input. */
  lemma {:induction false} ScannedUsageShape(files: seq<SourceFile>, pats: FrontendPatterns, u: FrontendApiUsage)
    requires u in ScannedUsages(files, pats)
    ensures IsFrontendFile(u.sourceFile) && u.line >= 1
    ensures exists f :: f in files && f.path == u.sourceFile
    decreases |files|
  {
    var init, f := files[..|files| - 1], files[|files| - 1];
    if u in ScannedUsages(init, pats) {
      ScannedUsageShape(init, pats, u);
      var g :| g in init && g.path == u.sourceFile;
      assert g in files;
    } else {
      ApiUsageShape(f.content, f.path, pats, u);
      assert f in files;
    }
  }

  /** deduplicateMenus: a HashMap keyed by MenuKey, last record per key wins. */
  method DeduplicateMenus(menus: seq<MenuAsset>) returns (unique: map<string, MenuAsset>)
    ensures unique == Dedup.LastByKey(menus, MenuKey)
    ensures forall m :: m in menus ==> MenuKey(m) in unique
    ensures forall k :: k in unique ==> MenuKey(unique[k]) == k && unique[k] in menus
  {
    unique := Dedup.FillMap(menus, MenuKey);
  }

  /** deduplicateUsages: a HashMap keyed by UsageKey, last record per key wins. */
  method DeduplicateUsages(usages: seq<FrontendApiUsage>) returns (unique: map<string, FrontendApiUsage>)
    ensures unique == Dedup.LastByKey(usages, UsageKey)
    ensures forall u :: u in usages ==> UsageKey(u) in unique
    ensures forall k :: k in unique ==> UsageKey(unique[k]) == k && unique[k] in usages
  {
    unique := Dedup.FillMap(usages, UsageKey);
  }

  /** scan: menus and usages of every front-end file, each merged by its key. */
  method Scan(files: seq<SourceFile>, pats: FrontendPatterns) returns (result: ScanResult)
    ensures result.menus == Dedup.LastByKey(ScannedMenus(files, pats), MenuKey)
    ensures result.apiUsages == Dedup.LastByKey(ScannedUsages(files, pats), UsageKey)
    ensures forall k :: k in result.menus ==> IsFrontendFile(result.menus[k].sourceFile)
    ensures forall k :: k in result.apiUsages ==> IsFrontendFile(result.apiUsages[k].sourceFile)
  {
    var menus := [];
    var apiUsages := [];
    for i := 0 to |files|
      invariant menus == ScannedMenus(files[..i], pats)
      invariant apiUsages == ScannedUsages(files[..i], pats)
    {
      assert files[..i + 1][..i] == files[..i];
      var path := files[i].path;
      if !(EndsWith(path, ".vue") || EndsWith(path, ".js") || EndsWith(path, ".html")) {
        continue;
      }
      var content := files[i].content;
      var found := ScanMenus(content, path, pats);
      menus := menus + found;
      var used := ScanApiUsages(content, path, pats);
      apiUsages := apiUsages + used;
    }
    assert files[..|files|] == files;
    var uniqueMenus := DeduplicateMenus(menus);
    var uniqueUsages := DeduplicateUsages(apiUsages);
    result := ScanResult(uniqueMenus, uniqueUsages);
    forall k | k in result.menus ensures IsFrontendFile(result.menus[k].sourceFile) {
      ScannedMenuShape(files, pats, result.menus[k]);
    }
    forall k | k in result.apiUsages ensures IsFrontendFile(result.apiUsages[k].sourceFile) {
      ScannedUsageShape(files, pats, result.apiUsages[k]);
    }
  }
}
