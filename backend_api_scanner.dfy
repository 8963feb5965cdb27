/**
 * BackendApiScanner: finds HTTP endpoints in Java source text with two
 * line-oriented passes, one for Spring-style `@XxxMapping` annotations and
 * one for JAX-RS-style `@GET`/`@POST`… annotations, composes each
 * endpoint's path from a class-level prefix and a method-level sub-path,
 * and merges the records of all `.java` files by their identity key.
 */
module BackendApiScanner {
  import opened Wrappers
  import opened JavaText
  import opened Records
  import Dedup
  import Gather

  const SPRING := "Spring"
  const JAX_RS := "JAX-RS"

  /** findFollowingMethodName looks at this many lines after the annotation. */
  const HANDLER_LOOKAHEAD: nat := 12
  /** scanJaxRs looks for a sub-path `@Path(...)` on this many lines after the verb annotation. */
  const PATH_LOOKAHEAD: nat := 5

  const HTTP_VERBS: set<string> := {"GET", "POST", "PUT", "DELETE", "PATCH"}
  const SPRING_MAPPINGS: set<string> :=
    {"GetMapping", "PostMapping", "PutMapping", "DeleteMapping", "PatchMapping", "RequestMapping"}

  /**
   * The two patterns that are not written out here, as what Matcher.find()
   * reports on one line:
   *   methodDecl     METHOD_DECL: group 1 (the identifier) of the first
   *                  `public|protected|private <type tokens> name(` on the line;
   *   springMapping  SPRING_METHOD_MAPPING: groups 1 and 2 (annotation name,
   *                  argument text) of the first `@XxxMapping(...)` on the line.
   */
  datatype JavaPatterns = JavaPatterns(
    methodDecl: string -> Option<string>,
    springMapping: string -> Option<(string, string)>)

  function Min(a: int, b: int): int {
    if a < b then a else b
  }

  /** The shape every composed endpoint path has. */
  predicate IsEndpointPath(p: string) {
    && p != []
    && p[0] == '/'
    && NoDoubleSlash(p)
    && (p == "/" || p[|p| - 1] != '/')
  }

  // ---------------------------------------------------------------- the simple patterns

  /** `(GET|POST|PUT|DELETE|PATCH)` at the head of `s`. */
  function VerbAt(s: string): (r: Option<string>)
    ensures r.Some? ==> r.value in HTTP_VERBS && StartsWith(s, r.value)
  {
    if StartsWith(s, "GET") then Some("GET")
    else if StartsWith(s, "POST") then Some("POST")
    else if StartsWith(s, "PUT") then Some("PUT")
    else if StartsWith(s, "DELETE") then Some("DELETE")
    else if StartsWith(s, "PATCH") then Some("PATCH")
    else None
  }

  /** REQUEST_METHOD, `RequestMethod\.(GET|POST|PUT|DELETE|PATCH)`, at the head of `s`. */
  function RequestMethodAt(s: string): (r: Option<string>)
    ensures r.Some? ==> r.value in HTTP_VERBS
  {
    if StartsWith(s, "RequestMethod.") then VerbAt(s[14..]) else None
  }

  /** JAXRS_METHOD, `@(GET|POST|PUT|DELETE|PATCH)`, at the head of `s`. */
  function JaxRsMethodAt(s: string): (r: Option<string>)
    ensures r.Some? ==> r.value in HTTP_VERBS
  {
    if StartsWith(s, "@") then VerbAt(s[1..]) else None
  }

  /** `(GET|POST|PUT|DELETE|PATCH)` matches exactly the verbs that `s` starts with; no verb is a prefix of another. */
  lemma VerbAtSpec(s: string)
    ensures forall v :: VerbAt(s) == Some(v) <==> v in HTTP_VERBS && StartsWith(s, v)
  {
    forall v | v in HTTP_VERBS && StartsWith(s, v) ensures VerbAt(s) == Some(v) {
      assert s[0] == v[0];
      if v == "PUT" || v == "POST" || v == "PATCH" {
        assert s[1] == v[1];
      }
    }
  }

  /** REQUEST_METHOD matches exactly "RequestMethod." followed by a verb. */
  lemma RequestMethodAtSpec(s: string)
    ensures forall v :: RequestMethodAt(s) == Some(v) <==> v in HTTP_VERBS && StartsWith(s, "RequestMethod." + v)
  {
    forall v ensures StartsWith(s, "RequestMethod." + v) <==> StartsWith(s, "RequestMethod.") && StartsWith(s[14..], v) {
      StartsWithAppend(s, "RequestMethod.", v);
    }
    if StartsWith(s, "RequestMethod.") {
      VerbAtSpec(s[14..]);
    }
  }

  /** JAXRS_METHOD matches exactly '@' followed by a verb. */
  lemma JaxRsMethodAtSpec(s: string)
    ensures forall v :: JaxRsMethodAt(s) == Some(v) <==> v in HTTP_VERBS && StartsWith(s, "@" + v)
  {
    forall v ensures StartsWith(s, "@" + v) <==> StartsWith(s, "@") && StartsWith(s[1..], v) {
      StartsWithAppend(s, "@", v);
    }
    if StartsWith(s, "@") {
      VerbAtSpec(s[1..]);
    }
  }

  /** `\s` in a Java pattern. */
  predicate IsPatternSpace(c: char) {
    c == ' ' || '\t' <= c <= '\r'
  }

  function SkipPatternSpaces(s: string, from: nat): (k: nat)
    requires from <= |s|
    ensures from <= k <= |s|
    ensures k == |s| || !IsPatternSpace(s[k])
    ensures forall j :: from <= j < k ==> IsPatternSpace(s[j])
    decreases |s| - from
  {
    if from < |s| && IsPatternSpace(s[from]) then SkipPatternSpaces(s, from + 1) else from
  }

  /** `@name\s*\(([^)]*)\)` at the head of `s`: the text between the parentheses. */
  function AnnotationArgsAt(name: string, s: string): (r: Option<string>)
    ensures r.Some? ==> StartsWith(s, "@" + name) && ')' !in r.value
  {
    var tag := "@" + name;
    if !StartsWith(s, tag) then None
    else
      var open := SkipPatternSpaces(s, |tag|);
      if open == |s| || s[open] != '(' then None
      else
        var close := IndexFrom(s, ')', open + 1);
        if close == |s| then None else Some(s[open + 1..close])
  }

  /**
   * A match of `@name\s*\(([^)]*)\)` at the head of `s` is the tag, a run
   * of spaces, '(' , the reported arguments (no ')') and ')'.
   */
  lemma AnnotationArgsAtShape(name: string, s: string) returns (ws: string)
    ensures AnnotationArgsAt(name, s).Some? ==>
      && (forall j :: 0 <= j < |ws| ==> IsPatternSpace(ws[j]))
      && StartsWith(s, "@" + name + ws + "(" + AnnotationArgsAt(name, s).value + ")")
  {
    ws := [];
    var r := AnnotationArgsAt(name, s);
    if r.Some? {
      var tag := "@" + name;
      var open := SkipPatternSpaces(s, |tag|);
      var close := IndexFrom(s, ')', open + 1);
      ws := s[|tag|..open];
      assert s[..close + 1] == s[..|tag|] + ws + "(" + r.value + ")";
    }
  }

  /** The tag, spaces, '(' , arguments without ')' and ')' at the head of `s` are matched, reporting those arguments. */
  lemma AnnotationArgsAtFound(name: string, s: string, ws: string, args: string)
    requires forall j :: 0 <= j < |ws| ==> IsPatternSpace(ws[j])
    requires ')' !in args
    requires StartsWith(s, "@" + name + ws + "(" + args + ")")
    ensures AnnotationArgsAt(name, s) == Some(args)
  {
    var tag := "@" + name;
    var m := tag + ws + "(" + args + ")";
    var open := |tag| + |ws|;
    assert s[..|tag|] == m[..|tag|] == tag;
    forall j | |tag| <= j < open ensures IsPatternSpace(s[j]) {
      assert s[j] == m[j] == ws[j - |tag|];
    }
    assert s[open] == m[open] == '(';
    SkipPatternSpacesIs(s, |tag|, open);
    forall j | open + 1 <= j < open + 1 + |args| ensures s[j] != ')' {
      assert s[j] == m[j] == args[j - open - 1];
    }
    assert s[open + 1 + |args|] == m[open + 1 + |args|] == ')';
    IndexFromIs(s, ')', open + 1, open + 1 + |args|);
    assert s[open + 1..open + 1 + |args|] == m[open + 1..open + 1 + |args|] == args;
  }

  /** SkipPatternSpaces stops at the first position that is not a space. */
  lemma SkipPatternSpacesIs(s: string, from: nat, k: nat)
    requires from <= k < |s| && !IsPatternSpace(s[k])
    requires forall j :: from <= j < k ==> IsPatternSpace(s[j])
    ensures SkipPatternSpaces(s, from) == k
  {
  }

  function AnnotationMatcher(name: string): string -> Option<string> {
    t => AnnotationArgsAt(name, t)
  }

  /** CLASS_MAPPING (name "RequestMapping") or CLASS_PATH (name "Path"): group 1 of the first match in `s`. */
  function FindAnnotation(s: string, name: string): (r: Option<string>)
    ensures r.Some? ==> ')' !in r.value
  {
    LeftmostSpec(s, AnnotationMatcher(name));
    var r := Leftmost(s, AnnotationMatcher(name));
    assert r.Some? ==> exists k :: 0 <= k <= |s| && AnnotationArgsAt(name, s[k..]) == r;
    r
  }

  /** CLASS_PATH on one line. */
  function PathArgs(line: string): Option<string> {
    FindAnnotation(line, "Path")
  }

  /** extractPathValue: the first `"…"` literal of the annotation's argument text, or "" when it has none. */
  function ExtractPathValue(args: string): (v: string)
    ensures '"' !in v
  {
    match FirstQuoted(args)
    case Some(v) => v
    case None => ""
  }

  /** The path value is empty exactly when the arguments hold no non-empty `"…"` literal. */
  lemma ExtractPathValueSpec(args: string)
    ensures ExtractPathValue(args) == "" <==> forall k :: 0 <= k <= |args| ==> ValueAt(args, QuotedAt, k).None?
  {
    LeftmostSpec(args, QuotedAt);
  }

  /** The path value is the first non-empty `"…"` literal: the one at the first position where such a literal starts. */
  lemma ExtractPathValueFirst(args: string, k: nat, v: string)
    requires k <= |args| && v != [] && '"' !in v && StartsWith(args[k..], "\"" + v + "\"")
    requires forall j :: 0 <= j < k ==> ValueAt(args, QuotedAt, j).None?
    ensures ExtractPathValue(args) == v
  {
    QuotedAtFound(args[k..], v);
    LeftmostSpec(args, QuotedAt);
    var r := Leftmost(args, QuotedAt);
    assert ValueAt(args, QuotedAt, k) == Some(v);
    var i :| 0 <= i <= |args| && ValueAt(args, QuotedAt, i) == r && forall j :: 0 <= j < i ==> ValueAt(args, QuotedAt, j).None?;
    assert i == k;
    assert FirstQuoted(args) == Some(v);
  }

  /** extractClassLevelPath: the path value of the first class-level annotation in the whole text, or "". */
  function ExtractClassLevelPath(content: string, name: string): (v: string)
    ensures '"' !in v
  {
    match FindAnnotation(content, name)
    case Some(args) => ExtractPathValue(args)
    case None => ""
  }

  /** Without a class-level annotation anywhere in the text there is no class prefix. */
  lemma ClassLevelPathAbsent(content: string, name: string)
    requires forall k :: 0 <= k <= |content| ==> ValueAt(content, AnnotationMatcher(name), k).None?
    ensures ExtractClassLevelPath(content, name) == ""
  {
    LeftmostSpec(content, AnnotationMatcher(name));
  }

  /** With a class-level annotation, the prefix is the path value of the first one in the text. */
  lemma ClassLevelPathPresent(content: string, name: string, k: nat, args: string)
    requires k <= |content| && ValueAt(content, AnnotationMatcher(name), k) == Some(args)
    requires forall j :: 0 <= j < k ==> ValueAt(content, AnnotationMatcher(name), j).None?
    ensures ExtractClassLevelPath(content, name) == ExtractPathValue(args)
  {
    LeftmostSpec(content, AnnotationMatcher(name));
    var r := Leftmost(content, AnnotationMatcher(name));
    var i :| 0 <= i <= |content| && ValueAt(content, AnnotationMatcher(name), i) == r
      && forall j :: 0 <= j < i ==> ValueAt(content, AnnotationMatcher(name), j).None?;
    assert i == k;
  }

  /**
   * toSpringHttpMethod: the five verb-specific mappings give their verb;
   * RequestMapping gives the first `RequestMethod.X` of its arguments, GET
   * when there is none; any other name gives no verb.
   */
  function ToSpringHttpMethod(annotation: string, args: string): (r: Option<string>)
    ensures r.Some? <==> annotation in SPRING_MAPPINGS
    ensures r.Some? ==> r.value in HTTP_VERBS
    ensures annotation == "GetMapping" ==> r == Some("GET")
    ensures annotation == "PostMapping" ==> r == Some("POST")
    ensures annotation == "PutMapping" ==> r == Some("PUT")
    ensures annotation == "DeleteMapping" ==> r == Some("DELETE")
    ensures annotation == "PatchMapping" ==> r == Some("PATCH")
  {
    match annotation
    case "GetMapping" => Some("GET")
    case "PostMapping" => Some("POST")
    case "PutMapping" => Some("PUT")
    case "DeleteMapping" => Some("DELETE")
    case "PatchMapping" => Some("PATCH")
    case "RequestMapping" =>
      LeftmostSpec(args, RequestMethodAt);
      (match Leftmost(args, RequestMethodAt)
       case Some(verb) => Some(verb)
       case None => Some("GET"))
    case _ => None
  }

  /** For RequestMapping the verb is the first `RequestMethod.X` in the arguments, GET when there is none. */
  lemma RequestMappingVerb(args: string)
    ensures
      || (exists k :: 0 <= k <= |args| && ValueAt(args, RequestMethodAt, k) == ToSpringHttpMethod("RequestMapping", args)
                      && forall j :: 0 <= j < k ==> ValueAt(args, RequestMethodAt, j).None?)
      || (ToSpringHttpMethod("RequestMapping", args) == Some("GET")
          && forall k :: 0 <= k <= |args| ==> ValueAt(args, RequestMethodAt, k).None?)
  {
    LeftmostSpec(args, RequestMethodAt);
  }

  // ---------------------------------------------------------------- lookahead windows

  /** The value `f` gives for the first line of lines[from..end) on which it matches. */
  function FirstInWindow<T>(lines: seq<string>, from: nat, end: nat, f: string -> Option<T>): Option<T>
    requires from <= end <= |lines|
    decreases end - from
  {
    if from == end then None
    else match f(lines[from])
      case Some(v) => Some(v)
      case None => FirstInWindow(lines, from + 1, end, f)
  }

  /** FirstInWindow finds nothing exactly when no line of the window matches, else the value of the first line that does. */
  lemma {:induction false} FirstInWindowSpec<T>(lines: seq<string>, from: nat, end: nat, f: string -> Option<T>)
    requires from <= end <= |lines|
    ensures FirstInWindow(lines, from, end, f).None? <==> forall j :: from <= j < end ==> f(lines[j]).None?
    ensures FirstInWindow(lines, from, end, f).Some? ==>
      exists j :: from <= j < end && f(lines[j]) == FirstInWindow(lines, from, end, f)
                  && forall k :: from <= k < j ==> f(lines[k]).None?
    decreases end - from
  {
    if from < end && f(lines[from]).None? {
      FirstInWindowSpec(lines, from + 1, end, f);
      var r := FirstInWindow(lines, from, end, f);
      assert r == FirstInWindow(lines, from + 1, end, f);
      if r.Some? {
        var j :| from + 1 <= j < end && f(lines[j]) == r && forall k :: from + 1 <= k < j ==> f(lines[k]).None?;
        assert forall k :: from <= k < j ==> f(lines[k]).None?;
      }
    }
  }

  /** findFollowingMethodName as a function: the handler on lines start .. min(|lines|, start + 12) - 1. */
  function FollowingMethodName(lines: seq<string>, start: nat, methodDecl: string -> Option<string>): Option<string>
    requires start <= |lines|
  {
    FirstInWindow(lines, start, Min(|lines|, start + HANDLER_LOOKAHEAD), methodDecl)
  }

  /** findFollowingMethodName: a bounded scan that returns the identifier from the first matching line. */
  method FindFollowingMethodName(lines: seq<string>, start: nat, methodDecl: string -> Option<string>)
    returns (name: Option<string>)
    requires start <= |lines|
    ensures name == FollowingMethodName(lines, start, methodDecl)
    ensures name.None? <==> forall j :: start <= j < Min(|lines|, start + HANDLER_LOOKAHEAD) ==> methodDecl(lines[j]).None?
  {
    var end := Min(|lines|, start + HANDLER_LOOKAHEAD);
    var i := start;
    while i < end
      invariant start <= i <= end
      invariant FirstInWindow(lines, start, end, methodDecl) == FirstInWindow(lines, i, end, methodDecl)
    {
      var m := methodDecl(lines[i]);
      if m.Some? {
        FirstInWindowSpec(lines, start, end, methodDecl);
        return m;
      }
      i := i + 1;
    }
    FirstInWindowSpec(lines, start, end, methodDecl);
    return None;
  }

  /** The JAX-RS sub-path: the path value of the first `@Path(...)` on lines i+1 .. min(i+5, |lines|-1), else "". */
  function JaxRsSubPath(lines: seq<string>, i: nat): string
    requires i < |lines|
  {
    match FirstInWindow(lines, i + 1, Min(i + 1 + PATH_LOOKAHEAD, |lines|), PathArgs)
    case Some(args) => ExtractPathValue(args)
    case None => ""
  }

  // ---------------------------------------------------------------- paths

  function DropLeadingSlashes(s: string): (r: string)
    ensures |r| <= |s|
    ensures r == [] || r[0] != '/'
  {
    if s != [] && s[0] == '/' then DropLeadingSlashes(s[1..]) else s
  }

  function DropTrailingSlashes(s: string): (r: string)
    ensures |r| <= |s|
    ensures r == [] || r[|r| - 1] != '/'
    ensures r != [] ==> r[0] == s[0]
  {
    if s != [] && s[|s| - 1] == '/' then DropTrailingSlashes(s[..|s| - 1]) else s
  }

  /** The leading loop of trimSlashes leaves a suffix, and only '/' characters are dropped. */
  lemma {:induction false} DropLeadingSlashesSpec(s: string)
    ensures DropLeadingSlashes(s) == s[|s| - |DropLeadingSlashes(s)|..]
    ensures forall k :: 0 <= k < |s| - |DropLeadingSlashes(s)| ==> s[k] == '/'
    decreases |s|
  {
    if s != [] && s[0] == '/' {
      DropLeadingSlashesSpec(s[1..]);
      forall k | 1 <= k < |s| - |DropLeadingSlashes(s)| ensures s[k] == '/' {
        assert s[k] == s[1..][k - 1];
      }
    }
  }

  /** The trailing loop of trimSlashes leaves a prefix, and only '/' characters are dropped. */
  lemma {:induction false} DropTrailingSlashesSpec(s: string)
    ensures DropTrailingSlashes(s) == s[..|DropTrailingSlashes(s)|]
    ensures forall k :: |DropTrailingSlashes(s)| <= k < |s| ==> s[k] == '/'
    decreases |s|
  {
    if s != [] && s[|s| - 1] == '/' {
      DropTrailingSlashesSpec(s[..|s| - 1]);
    }
  }

  /** trimSlashes as a function: "" for a blank string, else the trimmed string without leading or trailing '/'. */
  function SlashTrimmed(s: string): (r: string)
    ensures IsBlank(s) ==> r == ""
    ensures r == [] || (r[0] != '/' && r[|r| - 1] != '/')
  {
    if IsBlank(s) then "" else DropTrailingSlashes(DropLeadingSlashes(Trim(s)))
  }

  /** trimSlashes: after the blank check and trim, two loops strip '/' from the front and from the back. */
  method TrimSlashes(s: string) returns (value: string)
    ensures value == SlashTrimmed(s)
    ensures IsBlank(s) ==> value == ""
    ensures value == [] || (value[0] != '/' && value[|value| - 1] != '/')
  {
    if IsBlank(s) {
      return "";
    }
    value := Trim(s);
    while value != [] && value[0] == '/'
      invariant DropLeadingSlashes(value) == DropLeadingSlashes(Trim(s))
    {
      value := value[1..];
    }
    while value != [] && value[|value| - 1] == '/'
      invariant DropTrailingSlashes(value) == DropTrailingSlashes(DropLeadingSlashes(Trim(s)))
    {
      value := value[..|value| - 1];
    }
  }

  /**
   * The composition step of normalizePath on two already slash-trimmed parts:
   * "/" + a + "/" + b with runs of '/' collapsed and a trailing '/' dropped
   * unless the whole path is "/".
   */
  function ComposePath(a: string, b: string): string {
    var combined := CollapseSlashes("/" + a + "/" + b);
    if |combined| > 1 && combined[|combined| - 1] == '/' then combined[..|combined| - 1] else combined
  }

  /** Collapsing a text that starts with '/' and dropping one trailing '/' (unless that leaves nothing) gives an endpoint path. */
  lemma CollapsedIsEndpoint(joined: string)
    requires joined != [] && joined[0] == '/'
    ensures var c := CollapseSlashes(joined);
      IsEndpointPath(if |c| > 1 && c[|c| - 1] == '/' then c[..|c| - 1] else c)
  {
    var c := CollapseSlashes(joined);
    CollapseSlashesNoDouble(joined);
    if |c| > 1 && c[|c| - 1] == '/' {
      var p := c[..|c| - 1];
      NoDoubleSlashAt(c, |c| - 2);
      assert p[|p| - 1] == c[|p| - 1];
      NoDoubleSlashPrefix(c, |c| - 1);
    }
  }

  /** Whatever the parts, the composed path is an endpoint path. */
  lemma ComposePathIsEndpoint(a: string, b: string)
    ensures IsEndpointPath(ComposePath(a, b))
  {
    var joined := "/" + a + "/" + b;
    assert joined[0] == '/';
    CollapsedIsEndpoint(joined);
  }

  /** normalizePath: trimSlashes on both parts, then ComposePath. */
  function NormalizePath(classPath: string, methodPath: string): string {
    ComposePath(SlashTrimmed(classPath), SlashTrimmed(methodPath))
  }

  /** normalizePath always yields a path that starts with '/', has no "//" and ends in '/' only when it is "/". */
  lemma NormalizePathIsEndpoint(classPath: string, methodPath: string)
    ensures IsEndpointPath(NormalizePath(classPath, methodPath))
  {
    ComposePathIsEndpoint(SlashTrimmed(classPath), SlashTrimmed(methodPath));
  }

  /** Two non-empty parts free of "//" and of outer slashes are simply joined: "/" + a + "/" + b. */
  lemma ComposePathJoins(a: string, b: string)
    requires a != [] && b != [] && a[0] != '/' && a[|a| - 1] != '/' && b[0] != '/' && b[|b| - 1] != '/'
    requires NoDoubleSlash(a) && NoDoubleSlash(b)
    ensures ComposePath(a, b) == "/" + a + "/" + b
  {
    NoDoubleSlashJoin("/", a);
    NoDoubleSlashJoin("/" + a, "/");
    NoDoubleSlashJoin("/" + a + "/", b);
    var joined := "/" + a + "/" + b;
    CollapseSlashesSpec(joined);
    assert joined[|joined| - 1] == b[|b| - 1];
  }

  /** An empty class part contributes nothing: the path is "/" + b. */
  lemma ComposePathNoClass(b: string)
    requires b != [] && b[0] != '/' && b[|b| - 1] != '/' && NoDoubleSlash(b)
    ensures ComposePath("", b) == "/" + b
  {
    NoDoubleSlashJoin("/", b);
    var joined := "/" + "" + "/" + b;
    assert joined == "/" + ("/" + b);
    assert joined[0] == '/' && joined[1] == '/';
    assert CollapseSlashes(joined) == CollapseSlashes(joined[1..]);
    assert joined[1..] == "/" + b;
    CollapseSlashesSpec("/" + b);
  }

  /** An empty sub-path contributes nothing: the path is "/" + a. */
  lemma ComposePathNoSub(a: string)
    requires a != [] && a[0] != '/' && a[|a| - 1] != '/' && NoDoubleSlash(a)
    ensures ComposePath(a, "") == "/" + a
  {
    NoDoubleSlashJoin("/", a);
    NoDoubleSlashJoin("/" + a, "/");
    var joined := "/" + a + "/" + "";
    assert joined == ("/" + a) + "/";
    CollapseSlashesSpec(joined);
    assert joined[..|joined| - 1] == "/" + a;
  }

  /** Two empty parts give "/". */
  lemma ComposePathBlank()
    ensures ComposePath("", "") == "/"
  {
    assert "/" + "" + "/" + "" == "//";
    assert CollapseSlashes("//") == CollapseSlashes("/");
  }

  /** trimSlashes strips the one leading '/' of "/" + x when x has no outer blanks or slashes. */
  lemma SlashTrimmedLeadingSlash(x: string)
    requires x != [] && x[0] > ' ' && x[0] != '/' && x[|x| - 1] > ' ' && x[|x| - 1] != '/'
    ensures SlashTrimmed("/" + x) == x
  {
    var s := "/" + x;
    assert !IsJavaWhitespace(s[0]);
    assert IsTrimmed(s);
    assert s[1..] == x;
    assert DropLeadingSlashes(s) == DropLeadingSlashes(x);
  }

  /** A class prefix "/" + a and a sub-path "/" + b, each without outer blanks, slashes or "//", give "/" + a + "/" + b. */
  lemma NormalizePathJoins(a: string, b: string)
    requires a != [] && a[0] > ' ' && a[0] != '/' && a[|a| - 1] > ' ' && a[|a| - 1] != '/' && NoDoubleSlash(a)
    requires b != [] && b[0] > ' ' && b[0] != '/' && b[|b| - 1] > ' ' && b[|b| - 1] != '/' && NoDoubleSlash(b)
    ensures NormalizePath("/" + a, "/" + b) == "/" + a + "/" + b
  {
    SlashTrimmedLeadingSlash(a);
    SlashTrimmedLeadingSlash(b);
    ComposePathJoins(a, b);
  }

  /** The path value of `"…"` alone is the text between the quotes. */
  lemma PathValueOfLiteral(args: string, v: string)
    requires v != [] && '"' !in v && args == "\"" + v + "\""
    ensures ExtractPathValue(args) == v
  {
    assert args[0..] == args;
    ExtractPathValueFirst(args, 0, v);
  }

  /**
   * A class prefix "/" + a and a handler annotated with the literal
   * "/" + b (for instance "/user" and `@GetMapping("/list")`, or "/order"
   * and `@Path("/create")`) give the endpoint path "/" + a + "/" + b.
   */
  lemma AnnotatedPathJoins(a: string, b: string)
    requires a != [] && '/' !in a && a[0] > ' ' && a[|a| - 1] > ' '
    requires b != [] && '/' !in b && '"' !in b && b[0] > ' ' && b[|b| - 1] > ' '
    ensures NormalizePath("/" + a, ExtractPathValue("\"/" + b + "\"")) == "/" + a + "/" + b
  {
    var sub := "/" + b;
    assert "\"/" + b + "\"" == "\"" + sub + "\"";
    assert '"' !in sub by {
      forall c | c in sub ensures c != '"' {
        assert c == '/' || c in b;
      }
    }
    PathValueOfLiteral("\"" + sub + "\"", sub);
    assert a[0] in a && a[|a| - 1] in a && b[0] in b && b[|b| - 1] in b;
    NoSlashNoDouble(a);
    NoSlashNoDouble(b);
    NormalizePathJoins(a, b);
  }

  // ---------------------------------------------------------------- the two passes

  /** What scanSpring records for line i, if anything. */
  function SpringCandidate(lines: seq<string>, i: nat, classPath: string, file: string, pats: JavaPatterns): Option<ApiAsset>
    requires i < |lines|
  {
    match pats.springMapping(lines[i])
    case None => None
    case Some(mapping) =>
      var verb := ToSpringHttpMethod(mapping.0, mapping.1);
      var javaMethod := FollowingMethodName(lines, i + 1, pats.methodDecl);
      if verb.None? || javaMethod.None? then None
      else Some(ApiAsset(SPRING, verb.value, NormalizePath(classPath, ExtractPathValue(mapping.1)), javaMethod.value, file, i + 1))
  }

  /**
   * Line i yields a Spring record exactly when it carries one of the six
   * mapping annotations and a handler is declared within the next twelve
   * lines; the record names the first such handler and line i + 1.
   */
  lemma SpringCandidateSpec(lines: seq<string>, i: nat, classPath: string, file: string, pats: JavaPatterns)
    requires i < |lines|
    ensures SpringCandidate(lines, i, classPath, file, pats).Some? <==>
      && pats.springMapping(lines[i]).Some?
      && pats.springMapping(lines[i]).value.0 in SPRING_MAPPINGS
      && exists j :: i + 1 <= j < Min(|lines|, i + 1 + HANDLER_LOOKAHEAD) && pats.methodDecl(lines[j]).Some?
    ensures SpringCandidate(lines, i, classPath, file, pats).Some? ==>
      var r := SpringCandidate(lines, i, classPath, file, pats).value;
      && r.framework == SPRING
      && r.httpMethod in HTTP_VERBS
      && Some(r.httpMethod) == ToSpringHttpMethod(pats.springMapping(lines[i]).value.0, pats.springMapping(lines[i]).value.1)
      && r.path == NormalizePath(classPath, ExtractPathValue(pats.springMapping(lines[i]).value.1))
      && IsEndpointPath(r.path)
      && r.sourceFile == file
      && r.line == i + 1
      && Some(r.javaMethod) == FollowingMethodName(lines, i + 1, pats.methodDecl)
  {
    FirstInWindowSpec(lines, i + 1, Min(|lines|, i + 1 + HANDLER_LOOKAHEAD), pats.methodDecl);
    if pats.springMapping(lines[i]).Some? {
      NormalizePathIsEndpoint(classPath, ExtractPathValue(pats.springMapping(lines[i]).value.1));
    }
  }

  /** What scanJaxRs records for line i, if anything. */
  function JaxRsCandidate(lines: seq<string>, i: nat, classPath: string, file: string, pats: JavaPatterns): Option<ApiAsset>
    requires i < |lines|
  {
    match Leftmost(lines[i], JaxRsMethodAt)
    case None => None
    case Some(httpMethod) =>
      match FollowingMethodName(lines, i + 1, pats.methodDecl)
      case None => None
      case Some(javaMethod) =>
        Some(ApiAsset(JAX_RS, httpMethod, NormalizePath(classPath, JaxRsSubPath(lines, i)), javaMethod, file, i + 1))
  }

  /**
   * Line i yields a JAX-RS record exactly when `@VERB` occurs on it and a
   * handler is declared within the next twelve lines; the record carries the
   * first verb on the line, the sub-path of the following five lines and line i + 1.
   */
  lemma JaxRsCandidateSpec(lines: seq<string>, i: nat, classPath: string, file: string, pats: JavaPatterns)
    requires i < |lines|
    ensures JaxRsCandidate(lines, i, classPath, file, pats).Some? <==>
      && Leftmost(lines[i], JaxRsMethodAt).Some?
      && exists j :: i + 1 <= j < Min(|lines|, i + 1 + HANDLER_LOOKAHEAD) && pats.methodDecl(lines[j]).Some?
    ensures JaxRsCandidate(lines, i, classPath, file, pats).Some? ==>
      var r := JaxRsCandidate(lines, i, classPath, file, pats).value;
      && r.framework == JAX_RS
      && r.httpMethod in HTTP_VERBS
      && Some(r.httpMethod) == Leftmost(lines[i], JaxRsMethodAt)
      && r.path == NormalizePath(classPath, JaxRsSubPath(lines, i))
      && IsEndpointPath(r.path)
      && r.sourceFile == file
      && r.line == i + 1
      && Some(r.javaMethod) == FollowingMethodName(lines, i + 1, pats.methodDecl)
  {
    FirstInWindowSpec(lines, i + 1, Min(|lines|, i + 1 + HANDLER_LOOKAHEAD), pats.methodDecl);
    LeftmostSpec(lines[i], JaxRsMethodAt);
    NormalizePathIsEndpoint(classPath, JaxRsSubPath(lines, i));
    var v := Leftmost(lines[i], JaxRsMethodAt);
    if v.Some? {
      var k :| 0 <= k <= |lines[i]| && ValueAt(lines[i], JaxRsMethodAt, k) == v;
    }
  }

  /** The records scanSpring emits for the first n lines, in line order. */
  function SpringAssets(lines: seq<string>, n: nat, classPath: string, file: string, pats: JavaPatterns): seq<ApiAsset>
    requires n <= |lines|
  {
    if n == 0 then []
    else SpringAssets(lines, n - 1, classPath, file, pats) + OptionToSeq(SpringCandidate(lines, n - 1, classPath, file, pats))
  }

  /** The records scanJaxRs emits for the first n lines, in line order. */
  function JaxRsAssets(lines: seq<string>, n: nat, classPath: string, file: string, pats: JavaPatterns): seq<ApiAsset>
    requires n <= |lines|
  {
    if n == 0 then []
    else JaxRsAssets(lines, n - 1, classPath, file, pats) + OptionToSeq(JaxRsCandidate(lines, n - 1, classPath, file, pats))
  }

  /** SpringCandidate as a function of the line index (nothing past the last line). */
  function SpringCandidates(lines: seq<string>, classPath: string, file: string, pats: JavaPatterns): nat -> Option<ApiAsset> {
    (i: nat) => if i < |lines| then SpringCandidate(lines, i, classPath, file, pats) else None
  }

  /** The line-by-line result keeps exactly the candidates, in line order. */
  lemma {:induction false} SpringAssetsAreSomes(lines: seq<string>, n: nat, classPath: string, file: string, pats: JavaPatterns)
    requires n <= |lines|
    ensures SpringAssets(lines, n, classPath, file, pats) == Gather.Somes(n, SpringCandidates(lines, classPath, file, pats))
  {
    if n > 0 {
      SpringAssetsAreSomes(lines, n - 1, classPath, file, pats);
      assert SpringCandidates(lines, classPath, file, pats)(n - 1) == SpringCandidate(lines, n - 1, classPath, file, pats);
    }
  }

  /** Every record scanSpring emits is the candidate of the line it names. */
  lemma SpringAssetSound(lines: seq<string>, n: nat, classPath: string, file: string, pats: JavaPatterns, a: ApiAsset)
    requires n <= |lines| && a in SpringAssets(lines, n, classPath, file, pats)
    ensures exists i :: 0 <= i < n && SpringCandidate(lines, i, classPath, file, pats) == Some(a) && a.line == i + 1
  {
    SpringAssetsAreSomes(lines, n, classPath, file, pats);
    Gather.SomesSound(n, SpringCandidates(lines, classPath, file, pats), a);
    var i :| 0 <= i < n && SpringCandidates(lines, classPath, file, pats)(i) == Some(a);
    SpringCandidateSpec(lines, i, classPath, file, pats);
  }

  /** Every candidate line contributes its record to scanSpring's result. */
  lemma SpringAssetComplete(lines: seq<string>, n: nat, classPath: string, file: string, pats: JavaPatterns, i: nat)
    requires i < n <= |lines| && SpringCandidate(lines, i, classPath, file, pats).Some?
    ensures SpringCandidate(lines, i, classPath, file, pats).value in SpringAssets(lines, n, classPath, file, pats)
  {
    SpringAssetsAreSomes(lines, n, classPath, file, pats);
    Gather.SomesComplete(n, SpringCandidates(lines, classPath, file, pats), i);
  }

  /** JaxRsCandidate as a function of the line index (nothing past the last line). */
  function JaxRsCandidates(lines: seq<string>, classPath: string, file: string, pats: JavaPatterns): nat -> Option<ApiAsset> {
    (i: nat) => if i < |lines| then JaxRsCandidate(lines, i, classPath, file, pats) else None
  }

  /** The line-by-line result keeps exactly the candidates, in line order. */
  lemma {:induction false} JaxRsAssetsAreSomes(lines: seq<string>, n: nat, classPath: string, file: string, pats: JavaPatterns)
    requires n <= |lines|
    ensures JaxRsAssets(lines, n, classPath, file, pats) == Gather.Somes(n, JaxRsCandidates(lines, classPath, file, pats))
  {
    if n > 0 {
      JaxRsAssetsAreSomes(lines, n - 1, classPath, file, pats);
      assert JaxRsCandidates(lines, classPath, file, pats)(n - 1) == JaxRsCandidate(lines, n - 1, classPath, file, pats);
    }
  }

  /** Every record scanJaxRs emits is the candidate of the line it names. */
  lemma JaxRsAssetSound(lines: seq<string>, n: nat, classPath: string, file: string, pats: JavaPatterns, a: ApiAsset)
    requires n <= |lines| && a in JaxRsAssets(lines, n, classPath, file, pats)
    ensures exists i :: 0 <= i < n && JaxRsCandidate(lines, i, classPath, file, pats) == Some(a) && a.line == i + 1
  {
    JaxRsAssetsAreSomes(lines, n, classPath, file, pats);
    Gather.SomesSound(n, JaxRsCandidates(lines, classPath, file, pats), a);
    var i :| 0 <= i < n && JaxRsCandidates(lines, classPath, file, pats)(i) == Some(a);
    JaxRsCandidateSpec(lines, i, classPath, file, pats);
  }

  /** Every candidate line contributes its record to scanJaxRs's result. */
  lemma JaxRsAssetComplete(lines: seq<string>, n: nat, classPath: string, file: string, pats: JavaPatterns, i: nat)
    requires i < n <= |lines| && JaxRsCandidate(lines, i, classPath, file, pats).Some?
    ensures JaxRsCandidate(lines, i, classPath, file, pats).value in JaxRsAssets(lines, n, classPath, file, pats)
  {
    JaxRsAssetsAreSomes(lines, n, classPath, file, pats);
    Gather.SomesComplete(n, JaxRsCandidates(lines, classPath, file, pats), i);
  }

  /** The body of scanSpring's loop for line i: the record it adds, if any. */
  method SpringAt(lines: seq<string>, i: nat, classPath: string, file: string, pats: JavaPatterns)
    returns (found: Option<ApiAsset>)
    requires i < |lines|
    ensures found == SpringCandidate(lines, i, classPath, file, pats)
  {
    var mapping := pats.springMapping(lines[i]);
    if mapping.None? {
      return None;
    }
    var annotation, args := mapping.value.0, mapping.value.1;
    var verb := ToSpringHttpMethod(annotation, args);
    var subPath := ExtractPathValue(args);
    var javaMethod := FindFollowingMethodName(lines, i + 1, pats.methodDecl);
    if verb.None? || javaMethod.None? {
      return None;
    }
    return Some(ApiAsset(SPRING, verb.value, NormalizePath(classPath, subPath), javaMethod.value, file, i + 1));
  }

  /** The line loop of scanSpring: one candidate per line, in line order. */
  method ScanSpringLines(lines: seq<string>, classPath: string, file: string, pats: JavaPatterns)
    returns (assets: seq<ApiAsset>)
    ensures assets == SpringAssets(lines, |lines|, classPath, file, pats)
  {
    assets := [];
    for i := 0 to |lines|
      invariant assets == SpringAssets(lines, i, classPath, file, pats)
    {
      var found := SpringAt(lines, i, classPath, file, pats);
      if found.Some? {
        assets := assets + [found.value];
      }
    }
  }

  /** scanSpring: the class prefix from the first `@RequestMapping(...)` in the file, then the line loop. */
  method ScanSpring(content: string, file: string, pats: JavaPatterns) returns (assets: seq<ApiAsset>)
    ensures var lines := SplitLines(content);
      assets == SpringAssets(lines, |lines|, ExtractClassLevelPath(content, "RequestMapping"), file, pats)
  {
    var classPath := ExtractClassLevelPath(content, "RequestMapping");
    var lines := SplitLines(content);
    assets := ScanSpringLines(lines, classPath, file, pats);
  }

  /** The inner loop of scanJaxRs: the first `@Path(...)` on lines i+1 .. min(i+5, |lines|-1) gives the sub-path. */
  method FindSubPath(lines: seq<string>, i: nat) returns (subPath: string)
    requires i < |lines|
    ensures subPath == JaxRsSubPath(lines, i)
  {
    subPath := "";
    var end := Min(i + 1 + PATH_LOOKAHEAD, |lines|);
    var j := i + 1;
    while j < end
      invariant i + 1 <= j <= end
      invariant subPath == ""
      invariant FirstInWindow(lines, i + 1, end, PathArgs) == FirstInWindow(lines, j, end, PathArgs)
    {
      var pathArgs := PathArgs(lines[j]);
      if pathArgs.Some? {
        subPath := ExtractPathValue(pathArgs.value);
        break;
      }
      j := j + 1;
    }
  }

  /** The body of scanJaxRs's loop for line i: the record it adds, if any. */
  method JaxRsAt(lines: seq<string>, i: nat, classPath: string, file: string, pats: JavaPatterns)
    returns (found: Option<ApiAsset>)
    requires i < |lines|
    ensures found == JaxRsCandidate(lines, i, classPath, file, pats)
  {
    var httpMethod := Leftmost(lines[i], JaxRsMethodAt);
    if httpMethod.None? {
      return None;
    }
    var subPath := FindSubPath(lines, i);
    var javaMethod := FindFollowingMethodName(lines, i + 1, pats.methodDecl);
    if javaMethod.None? {
      return None;
    }
    return Some(ApiAsset(JAX_RS, httpMethod.value, NormalizePath(classPath, subPath), javaMethod.value, file, i + 1));
  }

  /** The line loop of scanJaxRs: one candidate per line, in line order. */
  method ScanJaxRsLines(lines: seq<string>, classPath: string, file: string, pats: JavaPatterns)
    returns (assets: seq<ApiAsset>)
    ensures assets == JaxRsAssets(lines, |lines|, classPath, file, pats)
  {
    assets := [];
    for i := 0 to |lines|
      invariant assets == JaxRsAssets(lines, i, classPath, file, pats)
    {
      var found := JaxRsAt(lines, i, classPath, file, pats);
      if found.Some? {
        assets := assets + [found.value];
      }
    }
  }

  /** scanJaxRs: the class prefix from the first `@Path(...)` in the file, then the line loop. */
  method ScanJaxRs(content: string, file: string, pats: JavaPatterns) returns (assets: seq<ApiAsset>)
    ensures var lines := SplitLines(content);
      assets == JaxRsAssets(lines, |lines|, ExtractClassLevelPath(content, "Path"), file, pats)
  {
    var classPath := ExtractClassLevelPath(content, "Path");
    var lines := SplitLines(content);
    assets := ScanJaxRsLines(lines, classPath, file, pats);
  }

  // ---------------------------------------------------------------- the whole scan

  /** The `|`-joined identity key of deduplicate. */
  function ApiKey(a: ApiAsset): string {
    a.framework + "|" + a.httpMethod + "|" + a.path + "|" + a.javaMethod + "|" + a.sourceFile
  }

  /** Both passes over one file. */
  function FileAssets(f: SourceFile, pats: JavaPatterns): seq<ApiAsset> {
    var lines := SplitLines(f.content);
    SpringAssets(lines, |lines|, ExtractClassLevelPath(f.content, "RequestMapping"), f.path, pats)
    + JaxRsAssets(lines, |lines|, ExtractClassLevelPath(f.content, "Path"), f.path, pats)
  }

  /** The records `scan` collects before deduplication: both passes over every `.java` file, in file order. */
  function ScannedAssets(files: seq<SourceFile>, pats: JavaPatterns): seq<ApiAsset> {
    if files == [] then []
    else
      var init := ScannedAssets(files[..|files| - 1], pats);
      var f := files[|files| - 1];
      if !EndsWith(f.path, ".java") then init else init + FileAssets(f, pats)
  }

  /** Every record of one file is a Spring or JAX-RS endpoint with a known verb, a well-formed path and that file's name. */
  lemma FileAssetShape(f: SourceFile, pats: JavaPatterns, a: ApiAsset)
    requires a in FileAssets(f, pats)
    ensures a.framework in {SPRING, JAX_RS}
    ensures a.httpMethod in HTTP_VERBS
    ensures IsEndpointPath(a.path)
    ensures a.sourceFile == f.path
  {
    var lines := SplitLines(f.content);
    var springPrefix, jaxRsPrefix := ExtractClassLevelPath(f.content, "RequestMapping"), ExtractClassLevelPath(f.content, "Path");
    if a in SpringAssets(lines, |lines|, springPrefix, f.path, pats) {
      SpringAssetSound(lines, |lines|, springPrefix, f.path, pats, a);
      var i :| 0 <= i < |lines| && SpringCandidate(lines, i, springPrefix, f.path, pats) == Some(a) && a.line == i + 1;
      SpringCandidateSpec(lines, i, springPrefix, f.path, pats);
    } else {
      assert a in JaxRsAssets(lines, |lines|, jaxRsPrefix, f.path, pats);
      JaxRsAssetSound(lines, |lines|, jaxRsPrefix, f.path, pats, a);
      var i :| 0 <= i < |lines| && JaxRsCandidate(lines, i, jaxRsPrefix, f.path, pats) == Some(a) && a.line == i + 1;
      JaxRsCandidateSpec(lines, i, jaxRsPrefix, f.path, pats);
    }
  }

  /** Every record collected before deduplication comes from one of the `.java` files. */
  lemma {:induction false} ScannedAssetShape(files: seq<SourceFile>, pats: JavaPatterns, a: ApiAsset)
    requires a in ScannedAssets(files, pats)
    ensures a.framework in {SPRING, JAX_RS}
    ensures a.httpMethod in HTTP_VERBS
    ensures IsEndpointPath(a.path)
    ensures EndsWith(a.sourceFile, ".java")
    ensures exists f :: f in files && f.path == a.sourceFile
    decreases |files|
  {
    var init := ScannedAssets(files[..|files| - 1], pats);
    var f := files[|files| - 1];
    if a in init {
      ScannedAssetShape(files[..|files| - 1], pats, a);
      var g :| g in files[..|files| - 1] && g.path == a.sourceFile;
      assert g in files;
    } else {
      assert EndsWith(f.path, ".java") && a in FileAssets(f, pats);
      FileAssetShape(f, pats, a);
      assert f in files;
    }
  }

  /** deduplicate: a HashMap keyed by ApiKey, last record per key wins. */
  method Deduplicate(assets: seq<ApiAsset>) returns (unique: map<string, ApiAsset>)
    ensures unique == Dedup.LastByKey(assets, ApiKey)
    ensures forall a :: a in assets ==> ApiKey(a) in unique
    ensures forall k :: k in unique ==> ApiKey(unique[k]) == k && unique[k] in assets
    ensures forall i :: 0 <= i < |assets| && (forall j :: i < j < |assets| ==> ApiKey(assets[j]) != ApiKey(assets[i])) ==>
      ApiKey(assets[i]) in unique && unique[ApiKey(assets[i])] == assets[i]
  {
    unique := Dedup.FillMap(assets, ApiKey);
    forall i | 0 <= i < |assets| && (forall j :: i < j < |assets| ==> ApiKey(assets[j]) != ApiKey(assets[i]))
      ensures ApiKey(assets[i]) in unique && unique[ApiKey(assets[i])] == assets[i]
    {
      Dedup.LastWriteWins(assets, ApiKey, i);
    }
  }

  /** scan: both passes over every `.java` file, then deduplicate. */
  method Scan(files: seq<SourceFile>, pats: JavaPatterns) returns (apis: map<string, ApiAsset>)
    ensures apis == Dedup.LastByKey(ScannedAssets(files, pats), ApiKey)
    ensures forall k :: k in apis ==>
      && ApiKey(apis[k]) == k
      && IsEndpointPath(apis[k].path)
      && EndsWith(apis[k].sourceFile, ".java")
  {
    var assets := [];
    for i := 0 to |files|
      invariant assets == ScannedAssets(files[..i], pats)
    {
      assert files[..i + 1][..i] == files[..i];
      var f := files[i];
      if !EndsWith(f.path, ".java") {
        continue;
      }
      var spring := ScanSpring(f.content, f.path, pats);
      var jaxRs := ScanJaxRs(f.content, f.path, pats);
      assets := assets + spring + jaxRs;
    }
    assert files[..|files|] == files;
    apis := Deduplicate(assets);
    forall k | k in apis
      ensures IsEndpointPath(apis[k].path) && EndsWith(apis[k].sourceFile, ".java")
    {
      ScannedAssetShape(files, pats, apis[k]);
    }
  }
}
