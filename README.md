# WebAssetsDiscovery core, modelled in Dafny

WebAssetsDiscovery builds an inventory of a web application's assets from its source tree. It has three parts:

- **Backend scanner.** Finds the HTTP endpoints declared in Java controllers. Spring endpoints come from `@GetMapping`, `@PostMapping`, … and `@RequestMapping`. JAX-RS endpoints come from `@GET`, `@POST`, … with `@Path`.
- **Frontend scanner.** Finds navigation menus in `.vue`, `.js` and `.html` files: `<el-menu-item>` tags, `<a href>` anchors and route objects. It also finds HTTP call sites: `axios.x(...)`, `http.x(...)` and `fetch(...)`.
- **Relation builder.** Links menus to endpoints with a confidence level:
  - **HIGH:** the menu and a call site share a frontend file, and the call's URL matches an endpoint path.
  - **MEDIUM:** the menu route and an endpoint path share their first path segment.

  It then keeps the first relation for each (menu route, endpoint path, endpoint verb).

The Dafny model has one module per concern:

| module | file | models |
|---|---|---|
| `Records` | `records.dfy` | the records `ApiAsset`, `MenuAsset`, `FrontendApiUsage`, `MenuApiRelation`, and a scanned `SourceFile` |
| `Wrappers` | `wrappers.dfy` | `Option`, standing for Java `null` and for a failed `Matcher.find` |
| `JavaText` | `java_text.dfy` | the `String` operations the core relies on: `trim`, `isBlank`, ASCII case mapping, `split("\\R")` with removal of trailing empty strings, `replaceAll("/{2,}", "/")`, `replaceAll("https?://[^/]+", "")`, leftmost `Matcher.find`, and the `"([^"]+)"` literal pattern |
| `Gather`, `Dedup` | `gather.dfy`, `dedup.dfy` | generic collection facts. `Dedup` holds the `HashMap.put` last-write-wins fill and the keep-the-first-of-each-key list filter |
| `BackendApiScanner` | `backend_api_scanner.dfy` | `BackendApiScanner.java` |
| `FrontendScanner` | `frontend_scanner.dfy` | `FrontendScanner.java` |
| `RelationBuilder` | `relation_builder.dfy` | `RelationBuilder.java` |

Each loop of the Java code is a Dafny `method` with a loop. Each such method is proved equal to a recursive specification function over the prefix already scanned. The properties are then proved as lemmas about those functions.

The stateful `collectUsages`, which appends to a list passed in by its caller, becomes the class `FrontendScanner.UsageList`, whose `seq` field the method extends.

The regular expressions whose full semantics matter little to the core are passed in as function-valued fields of a patterns datatype:
- `METHOD_DECL` and `SPRING_METHOD_MAPPING` in the backend;
- `MENU_ITEM_TAG`, `A_HREF`, `ROUTE_OBJECT`, `AXIOS_CALL`, `HTTP_CLIENT_CALL` and `FETCH_CALL` in the frontend.

The patterns that decide paths and verbs are written out:
- `CLASS_MAPPING` and `CLASS_PATH` (`@name\s*\(([^)]*)\)`);
- `JAXRS_METHOD`, `REQUEST_METHOD` and `STRING_VALUE`.

All source paths below are under `src/main/java/com/webassets/discovery/`. The table spells them in full.

## Model

| member | source | states |
|---|---|---|
| JavaText.IndexFrom | src/main/java/com/webassets/discovery/RelationBuilder.java:67 | `indexOf(c)` from a start position: the index found holds `c`, no earlier index from the start does, and the string length means "absent" |
| JavaText.IsBlank | src/main/java/com/webassets/discovery/RelationBuilder.java:59 | `String.isBlank` (definition: empty or Java whitespace only); used by `IsLikelyRelatedSpec` and `TrimSlashes` |
| JavaText.Trim | src/main/java/com/webassets/discovery/FrontendScanner.java:45 | `String.trim`: the result has no character at or below U+0020 at either end, is no longer than the input, and an already trimmed string is unchanged |
| JavaText.TrimChars | src/main/java/com/webassets/discovery/FrontendScanner.java:45 | trimming only removes characters: every character of the result occurs in the input |
| JavaText.TrimStartSpec | src/main/java/com/webassets/discovery/FrontendScanner.java:45 | the leading part of `trim` keeps a suffix of the text and drops only characters at or below U+0020 |
| JavaText.TrimEndSpec | src/main/java/com/webassets/discovery/FrontendScanner.java:45 | the trailing part of `trim` keeps a prefix of the text and drops only characters at or below U+0020 |
| JavaText.TrimSpec | src/main/java/com/webassets/discovery/FrontendScanner.java:45 | the result of `trim` is the slice of the text between its dropped leading run and its dropped trailing run, and every dropped character is at or below U+0020 |
| JavaText.TrimEndAppend | src/main/java/com/webassets/discovery/FrontendScanner.java:45 | the trailing part of `trim` stops at the first character above U+0020, so text before that character is kept |
| JavaText.ToLowerCase | src/main/java/com/webassets/discovery/RelationBuilder.java:75 | `toLowerCase(Locale.ROOT)` on ASCII: same length, each of 'A'..'Z' becomes the letter 32 code points above it ('a'..'z'), every other character is kept, and no upper-case ASCII letter is left |
| JavaText.ToUpperCase | src/main/java/com/webassets/discovery/FrontendScanner.java:82 | `toUpperCase()` on ASCII: same length, each of 'a'..'z' becomes the letter 32 code points below it ('A'..'Z'), every other character is kept, and no lower-case ASCII letter is left |
| JavaText.LowerOfUpper | src/main/java/com/webassets/discovery/FrontendScanner.java:82 | lower-casing an upper-cased verb gives the lower-cased original: the two mappings agree up to case |
| JavaText.ToLowerCaseAppend | src/main/java/com/webassets/discovery/RelationBuilder.java:75 | lower-casing maps each part of a concatenation on its own |
| JavaText.CollapseSlashes | src/main/java/com/webassets/discovery/RelationBuilder.java:79 | `replaceAll("/{2,}", "/")` keeps the first and last character and never lengthens the text |
| JavaText.CollapseSlashesSpec | src/main/java/com/webassets/discovery/RelationBuilder.java:79 | after collapsing, no "//" is left; text without "//" is unchanged |
| JavaText.CollapseSlashesChars | src/main/java/com/webassets/discovery/BackendApiScanner.java:140 | collapsing only removes '/' characters: every character of the result occurs in the input, and deleting every '/' from the input and from the result gives the same text |
| JavaText.CollapseSlashesAppend | src/main/java/com/webassets/discovery/RelationBuilder.java:79 | the collapse works left to right: appending a character to the input appends it to the result, except a '/' right after a '/', which is absorbed into the run |
| JavaText.NoDoubleSlashJoin | src/main/java/com/webassets/discovery/BackendApiScanner.java:140 | joining two texts without "//" creates one only where the seam is "//" |
| JavaText.HostPrefixLength | src/main/java/com/webassets/discovery/RelationBuilder.java:75 | a match of `https?://[^/]+` at the head starts with the scheme, has at least 8 characters, and ends at the end of the text or just before a '/' |
| JavaText.HostPrefixLengthSpec | src/main/java/com/webassets/discovery/RelationBuilder.java:75 | a match of `https?://[^/]+` starts at the head exactly when the text is "http://" or "https://" followed by a character other than '/'; the match then covers the scheme (preferring "https://") and every character up to the next '/' or the end |
| JavaText.StripHosts | src/main/java/com/webassets/discovery/RelationBuilder.java:75 | `replaceAll("https?://[^/]+", "")` never lengthens the text |
| JavaText.StripHostsChars | src/main/java/com/webassets/discovery/RelationBuilder.java:75 | stripping hosts only removes characters |
| JavaText.StripHostsKeeps | src/main/java/com/webassets/discovery/RelationBuilder.java:75 | text in which no scheme-and-host segment starts is unchanged |
| JavaText.StripHostsDeletesHead | src/main/java/com/webassets/discovery/RelationBuilder.java:75 | a scheme and host at the head of the text are deleted, and stripping carries on in the '/'-led rest |
| JavaText.StripHostsPrefix | src/main/java/com/webassets/discovery/RelationBuilder.java:75 | text before the first place a scheme-and-host segment starts is kept as it is, and stripping carries on after it |
| JavaText.StripHostsDeletes | src/main/java/com/webassets/discovery/RelationBuilder.java:75 | a scheme-and-host segment that is the first one in the text is deleted: the text before it is kept and stripping carries on after the host |
| JavaText.SplitOnBreaksSpec | src/main/java/com/webassets/discovery/FrontendScanner.java:41 | no piece between `\R` matches holds a line break |
| JavaText.SplitOnBreaksJoin | src/main/java/com/webassets/discovery/FrontendScanner.java:41 | splitting round-trips: there is one separator between each two pieces, and the pieces joined with those separators rebuild the text |
| JavaText.SeparatorsAreBreaks | src/main/java/com/webassets/discovery/FrontendScanner.java:41 | each separator cut out is one `\R` match: "\r\n" or a single line-break character |
| JavaText.SeparatorsGreedy | src/main/java/com/webassets/discovery/FrontendScanner.java:41 | `\R` takes "\r\n" as one break: a lone "\r" separator followed by an empty piece is never followed by a "\n" separator |
| JavaText.SplitLines | src/main/java/com/webassets/discovery/BackendApiScanner.java:38 | `content.split("\\R")` (definition: the whole text when it has no break, otherwise the pieces between breaks without trailing empty ones); properties in `SplitLinesSpec`, `SplitOnBreaksJoin`, `SeparatorsAreBreaks`, `SeparatorsGreedy` and `DropTrailingEmptySpec` |
| JavaText.DropTrailingEmptySpec | src/main/java/com/webassets/discovery/BackendApiScanner.java:38 | `split` drops only trailing empty strings: the result is a prefix of the pieces, and every piece dropped is empty |
| JavaText.SplitLinesSpec | src/main/java/com/webassets/discovery/BackendApiScanner.java:38 | `content.split("\\R")`: no line holds a break, text without a break is its own single line (the empty text gives one empty line), and otherwise the lines are the pieces between breaks up to the last non-empty one, every piece dropped being empty |
| JavaText.Leftmost | src/main/java/com/webassets/discovery/BackendApiScanner.java:132-133 | `Matcher.find` for an anchored matcher (definition: the value at the first position that matches); properties in `LeftmostSpec` |
| JavaText.LeftmostSpec | src/main/java/com/webassets/discovery/BackendApiScanner.java:132-136 | `Matcher.find`: it fails exactly when no position matches, and otherwise reports the match at the first position that matches |
| JavaText.FirstQuoted | src/main/java/com/webassets/discovery/BackendApiScanner.java:19 | `"([^"]+)"`: a captured literal is non-empty and holds no quote |
| JavaText.QuotedAt | src/main/java/com/webassets/discovery/BackendApiScanner.java:19 | `"([^"]+)"` anchored at a position: a capture is non-empty and quote-free; both directions in `QuotedAtSpec` and `QuotedAtFound` |
| JavaText.QuotedAtSpec | src/main/java/com/webassets/discovery/BackendApiScanner.java:19 | `"([^"]+)"` anchored at a position matches exactly when the text starts with a quote, a non-empty run without quotes and a quote, and it captures that run |
| JavaText.QuotedAtFound | src/main/java/com/webassets/discovery/BackendApiScanner.java:19 | a quote, a non-empty quote-free run and a quote at the head of the text are matched, capturing the run |
| BackendApiScanner.VerbAt | src/main/java/com/webassets/discovery/BackendApiScanner.java:18 | a verb matched at a position is one of GET, POST, PUT, DELETE, PATCH, spelled at that position |
| BackendApiScanner.VerbAtSpec | src/main/java/com/webassets/discovery/BackendApiScanner.java:18 | the verb group of `JAXRS_METHOD` and `REQUEST_METHOD` reports exactly the verb the text starts with, and none when it starts with no verb |
| BackendApiScanner.RequestMethodAt | src/main/java/com/webassets/discovery/BackendApiScanner.java:20 | `RequestMethod.X` yields one of the five verbs |
| BackendApiScanner.RequestMethodAtSpec | src/main/java/com/webassets/discovery/BackendApiScanner.java:20 | `RequestMethod.X` reports X exactly when the text starts with "RequestMethod." followed by the verb X, and none otherwise |
| BackendApiScanner.JaxRsMethodAt | src/main/java/com/webassets/discovery/BackendApiScanner.java:18 | `@X` yields one of the five verbs |
| BackendApiScanner.JaxRsMethodAtSpec | src/main/java/com/webassets/discovery/BackendApiScanner.java:18 | `@X` reports X exactly when the text starts with '@' followed by the verb X, and none otherwise |
| BackendApiScanner.SkipPatternSpaces | src/main/java/com/webassets/discovery/BackendApiScanner.java:14-15 | `\s*` consumes every regex space from the start and stops at the first character that is not one, or at the end |
| BackendApiScanner.AnnotationArgsAt | src/main/java/com/webassets/discovery/BackendApiScanner.java:14-15 | `@name\s*\(([^)]*)\)` anchored at a position: the text starts with `@name`, and the captured arguments hold no ')' |
| BackendApiScanner.AnnotationArgsAtShape | src/main/java/com/webassets/discovery/BackendApiScanner.java:14-15 | a match of `@name\s*\(([^)]*)\)` at the head is the tag, a run of regex spaces, '(', the reported arguments and ')' |
| BackendApiScanner.AnnotationArgsAtFound | src/main/java/com/webassets/discovery/BackendApiScanner.java:14-15 | conversely, the tag, a run of regex spaces, '(', arguments without ')' and ')' at the head are matched, reporting those arguments |
| BackendApiScanner.FindAnnotation | src/main/java/com/webassets/discovery/BackendApiScanner.java:98-100 | the first annotation found anywhere in the content has arguments without ')' |
| BackendApiScanner.ExtractPathValue | src/main/java/com/webassets/discovery/BackendApiScanner.java:131-137 | the extracted path value never holds a quote |
| BackendApiScanner.ExtractPathValueSpec | src/main/java/com/webassets/discovery/BackendApiScanner.java:131-137 | the value is "" exactly when the arguments hold no non-empty string literal |
| BackendApiScanner.ExtractPathValueFirst | src/main/java/com/webassets/discovery/BackendApiScanner.java:131-137 | with a literal present, the path value is the first non-empty `"…"` literal of the arguments |
| BackendApiScanner.PathValueOfLiteral | src/main/java/com/webassets/discovery/BackendApiScanner.java:131-137 | the path value of a lone literal `"v"` is v |
| BackendApiScanner.ExtractClassLevelPath | src/main/java/com/webassets/discovery/BackendApiScanner.java:98-104 | the class-level path never holds a quote |
| BackendApiScanner.ClassLevelPathAbsent | src/main/java/com/webassets/discovery/BackendApiScanner.java:98-104 | with no class-level annotation in the file, the class path is "" |
| BackendApiScanner.ClassLevelPathPresent | src/main/java/com/webassets/discovery/BackendApiScanner.java:98-104 | with a class-level annotation, the class path is the path value of the arguments of the first one in the text |
| BackendApiScanner.ToSpringHttpMethod | src/main/java/com/webassets/discovery/BackendApiScanner.java:106-119 | GetMapping, PostMapping, PutMapping, DeleteMapping and PatchMapping give GET, POST, PUT, DELETE and PATCH; a verb is produced exactly for those and RequestMapping, and it is always one of the five verbs |
| BackendApiScanner.RequestMappingVerb | src/main/java/com/webassets/discovery/BackendApiScanner.java:113-116 | `@RequestMapping` takes the first `RequestMethod.X` in its arguments, or GET when there is none |
| BackendApiScanner.FirstInWindowSpec | src/main/java/com/webassets/discovery/BackendApiScanner.java:75-81 | a bounded forward search finds nothing exactly when no line in the window matches, and otherwise finds the first line that does |
| BackendApiScanner.FindFollowingMethodName | src/main/java/com/webassets/discovery/BackendApiScanner.java:121-129 | the handler name is absent exactly when none of the next 12 lines (fewer at the end of the file) declares a method |
| BackendApiScanner.DropLeadingSlashes | src/main/java/com/webassets/discovery/BackendApiScanner.java:152-154 | the first loop leaves no leading '/' |
| BackendApiScanner.DropTrailingSlashes | src/main/java/com/webassets/discovery/BackendApiScanner.java:155-157 | the second loop leaves no trailing '/' and keeps the first character |
| BackendApiScanner.DropLeadingSlashesSpec | src/main/java/com/webassets/discovery/BackendApiScanner.java:152-154 | the first loop keeps a suffix of the text and drops only '/' characters |
| BackendApiScanner.DropTrailingSlashesSpec | src/main/java/com/webassets/discovery/BackendApiScanner.java:155-157 | the second loop keeps a prefix of the text and drops only '/' characters |
| BackendApiScanner.TrimSlashes | src/main/java/com/webassets/discovery/BackendApiScanner.java:147-159 | a blank input gives ""; otherwise the result neither starts nor ends with '/' |
| BackendApiScanner.SlashTrimmedLeadingSlash | src/main/java/com/webassets/discovery/BackendApiScanner.java:147-159 | trimSlashes undoes a leading "/" on a trimmed segment that has no slash at its ends |
| BackendApiScanner.ComposePath | src/main/java/com/webassets/discovery/BackendApiScanner.java:140-144 | the join, collapse and trailing-'/' step of normalizePath (definition); properties in `CollapsedIsEndpoint`, `ComposePathIsEndpoint`, `ComposePathJoins`, `ComposePathNoClass`, `ComposePathNoSub` and `ComposePathBlank` |
| BackendApiScanner.NormalizePath | src/main/java/com/webassets/discovery/BackendApiScanner.java:139-145 | normalizePath (definition: trimSlashes on both parts, then `ComposePath`); properties in `NormalizePathIsEndpoint`, `NormalizePathJoins` and `AnnotatedPathJoins` |
| BackendApiScanner.CollapsedIsEndpoint | src/main/java/com/webassets/discovery/BackendApiScanner.java:140-144 | collapsing a "/"-led path and dropping a final '/' (unless the path is "/") gives an endpoint path: it starts with '/', has no "//", and ends in '/' only when it is "/" |
| BackendApiScanner.NormalizePathIsEndpoint | src/main/java/com/webassets/discovery/BackendApiScanner.java:139-145 | every composed endpoint path is an endpoint path, whatever the class and method paths are |
| BackendApiScanner.ComposePathIsEndpoint | src/main/java/com/webassets/discovery/BackendApiScanner.java:140-144 | the same for the composition of two slash-trimmed segments |
| BackendApiScanner.ComposePathJoins | src/main/java/com/webassets/discovery/BackendApiScanner.java:140-144 | two clean segments compose to "/" + class + "/" + method |
| BackendApiScanner.ComposePathNoClass | src/main/java/com/webassets/discovery/BackendApiScanner.java:140-144 | with no class path, the endpoint is "/" + method path |
| BackendApiScanner.ComposePathNoSub | src/main/java/com/webassets/discovery/BackendApiScanner.java:140-144 | with no method path, the endpoint is "/" + class path, with no trailing '/' |
| BackendApiScanner.ComposePathBlank | src/main/java/com/webassets/discovery/BackendApiScanner.java:140-144 | with neither path, the endpoint is "/" |
| BackendApiScanner.NormalizePathJoins | src/main/java/com/webassets/discovery/BackendApiScanner.java:139-145 | a class path "/a" and a method path "/b" of clean segments give the endpoint "/a/b" |
| BackendApiScanner.AnnotatedPathJoins | src/main/java/com/webassets/discovery/BackendApiScanner.java:131-145 | a class path "/a" and a handler literal `"/b"` give the endpoint "/a/b", as "/user" with `"/list"` gives "/user/list" and "/order" with `"/create"` gives "/order/create" |
| BackendApiScanner.SpringCandidateSpec | src/main/java/com/webassets/discovery/BackendApiScanner.java:39-59 | a line yields a Spring endpoint exactly when a mapping annotation is found on it and a method declaration follows within 12 lines. The endpoint is tagged Spring, its verb is what toSpringHttpMethod gives for the annotation, its path composes the class path with the annotation's literal, its handler is the first method declared, and it records the file and the 1-based line |
| BackendApiScanner.JaxRsCandidateSpec | src/main/java/com/webassets/discovery/BackendApiScanner.java:68-93 | a line yields a JAX-RS endpoint exactly when `@VERB` is found on it and a method declaration follows within 12 lines. The endpoint is tagged JAX-RS and its verb is the leftmost `@VERB` |
| BackendApiScanner.SpringAssetSound | src/main/java/com/webassets/discovery/BackendApiScanner.java:35-62 | every endpoint scanSpring reports comes from some line, and its line field is that line's 1-based number |
| BackendApiScanner.SpringAssetComplete | src/main/java/com/webassets/discovery/BackendApiScanner.java:35-62 | every line that yields a Spring endpoint contributes it to the result |
| BackendApiScanner.JaxRsAssetSound | src/main/java/com/webassets/discovery/BackendApiScanner.java:64-96 | every endpoint scanJaxRs reports comes from some line, with that line's number |
| BackendApiScanner.JaxRsAssetComplete | src/main/java/com/webassets/discovery/BackendApiScanner.java:64-96 | every line that yields a JAX-RS endpoint contributes it to the result |
| BackendApiScanner.SpringAt | src/main/java/com/webassets/discovery/BackendApiScanner.java:40-59 | the body of the Spring line loop computes that line's candidate endpoint |
| BackendApiScanner.ScanSpringLines | src/main/java/com/webassets/discovery/BackendApiScanner.java:39-60 | the Spring line loop collects the candidates of all lines, in line order |
| BackendApiScanner.ScanSpring | src/main/java/com/webassets/discovery/BackendApiScanner.java:35-62 | scanSpring takes the class path from `@RequestMapping` and scans the lines of `split("\\R")` |
| BackendApiScanner.FindSubPath | src/main/java/com/webassets/discovery/BackendApiScanner.java:74-81 | the `@Path` search over the next 5 lines returns the first literal found, or "" |
| BackendApiScanner.JaxRsAt | src/main/java/com/webassets/discovery/BackendApiScanner.java:69-93 | the body of the JAX-RS line loop computes that line's candidate endpoint |
| BackendApiScanner.ScanJaxRsLines | src/main/java/com/webassets/discovery/BackendApiScanner.java:68-94 | the JAX-RS line loop collects the candidates of all lines, in line order |
| BackendApiScanner.ScanJaxRs | src/main/java/com/webassets/discovery/BackendApiScanner.java:64-96 | scanJaxRs takes the class path from `@Path` and scans the lines of `split("\\R")` |
| BackendApiScanner.FileAssetShape | src/main/java/com/webassets/discovery/BackendApiScanner.java:29-30 | every endpoint found in a file is tagged Spring or JAX-RS, has one of the five verbs and an endpoint path, and names that file |
| BackendApiScanner.ScannedAssetShape | src/main/java/com/webassets/discovery/BackendApiScanner.java:22-31 | every endpoint scanned from the file list comes from a `.java` file of the list and has that shape |
| BackendApiScanner.ApiKey | src/main/java/com/webassets/discovery/BackendApiScanner.java:164 | the deduplication key (definition: framework, verb, path, handler and file joined with a vertical bar); used by `Deduplicate` |
| BackendApiScanner.Deduplicate | src/main/java/com/webassets/discovery/BackendApiScanner.java:161-167 | every endpoint's key is present, each key maps to an endpoint of the input that carries that key, and an endpoint that no later endpoint shares a key with survives |
| BackendApiScanner.Scan | src/main/java/com/webassets/discovery/BackendApiScanner.java:22-33 | the result is the deduplication of all endpoints scanned, and every endpoint kept has an endpoint path and comes from a `.java` file |
| Dedup.LastByKey | src/main/java/com/webassets/discovery/BackendApiScanner.java:161-166 | the filled map holds exactly the keys of the input, and each key maps to an input record that carries that key |
| Dedup.LastWriteWins | src/main/java/com/webassets/discovery/BackendApiScanner.java:163-165 | a record that no later record shares a key with is the one kept |
| Dedup.SurvivorIsLast | src/main/java/com/webassets/discovery/BackendApiScanner.java:163-165 | the record kept under a key is the last record that carries that key |
| Dedup.FillMap | src/main/java/com/webassets/discovery/FrontendScanner.java:99-102 | the `HashMap.put` loop leaves the last-write-wins map |
| Dedup.HasKeyAppend | src/main/java/com/webassets/discovery/RelationBuilder.java:85-88 | `anyMatch` over a concatenation is `anyMatch` over either part |
| Dedup.FirstByKeyKeys | src/main/java/com/webassets/discovery/RelationBuilder.java:82-94 | deduplication keeps exactly the keys of its input |
| Dedup.FirstByKeyDistinct | src/main/java/com/webassets/discovery/RelationBuilder.java:82-94 | no two kept relations share a key |
| Dedup.FirstByKeyKeepsFirst | src/main/java/com/webassets/discovery/RelationBuilder.java:82-94 | the first record of each key is kept |
| Dedup.FirstByKeyIndices | src/main/java/com/webassets/discovery/RelationBuilder.java:82-94 | the result is a subsequence of the input, in input order, made of exactly the first occurrences of their keys |
| Dedup.FirstByKeyOfDistinct | src/main/java/com/webassets/discovery/RelationBuilder.java:82-94 | a list with no repeated key is left as it is |
| Dedup.FirstByKeyIdempotent | src/main/java/com/webassets/discovery/RelationBuilder.java:82-94 | deduplicating twice is the same as deduplicating once |
| Dedup.FirstOccurrence | src/main/java/com/webassets/discovery/RelationBuilder.java:84-91 | every record's key has a first occurrence at or before it |
| Dedup.FirstAfterPrefix | src/main/java/com/webassets/discovery/RelationBuilder.java:84-91 | a key absent from a prefix first occurs after that prefix |
| Dedup.DistinctKeysSame | src/main/java/com/webassets/discovery/RelationBuilder.java:82-94 | in a list without repeated keys, a key identifies its record |
| Dedup.FirstInBlock | src/main/java/com/webassets/discovery/RelationBuilder.java:82-94 | a key absent from the blocks before a block first occurs inside that block |
| FrontendScanner.CountNewlines | src/main/java/com/webassets/discovery/FrontendScanner.java:90-94 | the number of '\n' never exceeds the length |
| FrontendScanner.LineOf | src/main/java/com/webassets/discovery/FrontendScanner.java:88-96 | a line number is between 1 and the length plus 1 |
| FrontendScanner.LineNumber | src/main/java/com/webassets/discovery/FrontendScanner.java:88-96 | the counting loop returns 1 plus the '\n' count before the position, clamped to the content |
| FrontendScanner.LineOfMonotone | src/main/java/com/webassets/discovery/FrontendScanner.java:88-96 | a later position never has a smaller line number |
| FrontendScanner.LineOfStep | src/main/java/com/webassets/discovery/FrontendScanner.java:90-94 | moving one position forward adds one line exactly when it passes a '\n' |
| FrontendScanner.CountNewlinesMonotone | src/main/java/com/webassets/discovery/FrontendScanner.java:90-94 | a longer prefix holds at least as many '\n' |
| FrontendScanner.TagMenuSpec | src/main/java/com/webassets/discovery/FrontendScanner.java:43-46 | a line yields an `<el-menu-item>` menu exactly when the tag pattern is found on it. The menu's route and title are the trimmed groups, and it records the file and the 1-based line |
| FrontendScanner.AnchorMenuSpec | src/main/java/com/webassets/discovery/FrontendScanner.java:47-53 | a line yields an anchor menu exactly when `<a href>` is found and the trimmed href starts with '/' or '#'. The route is that href and the title is the trimmed text |
| FrontendScanner.MenusAt | src/main/java/com/webassets/discovery/FrontendScanner.java:43-53 | the body of the line loop computes both candidate menus of the line |
| FrontendScanner.ScanMenuLines | src/main/java/com/webassets/discovery/FrontendScanner.java:41-54 | the line loop collects, line by line, the tag menu and then the anchor menu |
| FrontendScanner.MakeRouteMenu | src/main/java/com/webassets/discovery/FrontendScanner.java:58-59 | a route object gives a menu with trimmed title and path, at the line of the match start |
| FrontendScanner.AddRouteMenus | src/main/java/com/webassets/discovery/FrontendScanner.java:56-60 | the route loop appends one menu per route match, in match order |
| FrontendScanner.ScanMenus | src/main/java/com/webassets/discovery/FrontendScanner.java:39-62 | scanMenus lists the line menus first, then the route-object menus |
| FrontendScanner.TagMenuSound | src/main/java/com/webassets/discovery/FrontendScanner.java:42-54 | every line menu comes from a tag or an anchor on some line, with that line's number |
| FrontendScanner.TagMenuComplete | src/main/java/com/webassets/discovery/FrontendScanner.java:42-54 | every tag menu and every anchor menu a line yields is collected |
| FrontendScanner.RouteMenusInMatchOrder | src/main/java/com/webassets/discovery/FrontendScanner.java:56-60 | the route menus correspond one-to-one, in order, with the route matches |
| FrontendScanner.MenuShape | src/main/java/com/webassets/discovery/FrontendScanner.java:39-62 | every menu of a file names that file, has a trimmed title and route, and has a line number of at least 1 |
| FrontendScanner.MakeUsage | src/main/java/com/webassets/discovery/FrontendScanner.java:82-84 | the body of the collect loop builds the call site from the match: the upper-cased verb or GET, the URL group, and the line of the match start |
| FrontendScanner.UsageList.constructor | src/main/java/com/webassets/discovery/FrontendScanner.java:65 | a new usage list is empty |
| FrontendScanner.UsageList.CollectUsages | src/main/java/com/webassets/discovery/FrontendScanner.java:78-86 | collectUsages appends one call site per pattern match to the caller's list, in match order, and keeps what was there |
| FrontendScanner.ScanApiUsages | src/main/java/com/webassets/discovery/FrontendScanner.java:64-76 | the call sites are the axios matches, then the http-client matches, then the fetch matches (all GET) |
| FrontendScanner.UsagesInMatchOrder | src/main/java/com/webassets/discovery/FrontendScanner.java:80-85 | the collected call sites correspond one-to-one, in order, with the matches |
| FrontendScanner.UsageShape | src/main/java/com/webassets/discovery/FrontendScanner.java:82-84 | a call site names its file and a line of at least 1, has no lower-case ASCII letter in its verb, and is GET when the pattern has no verb group |
| FrontendScanner.ApiUsageShape | src/main/java/com/webassets/discovery/FrontendScanner.java:64-76 | there is exactly one call site per match of the three call patterns, and each has that shape |
| FrontendScanner.IsFrontendFile | src/main/java/com/webassets/discovery/FrontendScanner.java:28 | the suffix test of scan (definition: ends in `.vue`, `.js` or `.html`, case-sensitive); used by `ScannedMenuShape`, `ScannedUsageShape` and `Scan` |
| FrontendScanner.ScannedMenuShape | src/main/java/com/webassets/discovery/FrontendScanner.java:26-35 | every scanned menu comes from a `.vue`, `.js` or `.html` file of the list |
| FrontendScanner.ScannedUsageShape | src/main/java/com/webassets/discovery/FrontendScanner.java:26-35 | every scanned call site comes from a `.vue`, `.js` or `.html` file of the list |
| FrontendScanner.MenuKey | src/main/java/com/webassets/discovery/FrontendScanner.java:101 | the menu deduplication key (definition: title, route and file joined with a vertical bar); used by `DeduplicateMenus` |
| FrontendScanner.UsageKey | src/main/java/com/webassets/discovery/FrontendScanner.java:109 | the call-site deduplication key (definition: verb, URL and file joined with a vertical bar); used by `DeduplicateUsages` |
| FrontendScanner.DeduplicateMenus | src/main/java/com/webassets/discovery/FrontendScanner.java:98-104 | every menu's title-route-file key is kept, and each key maps to an input menu that carries that key |
| FrontendScanner.DeduplicateUsages | src/main/java/com/webassets/discovery/FrontendScanner.java:106-112 | every call site's verb-URL-file key is kept, and each key maps to an input call site that carries that key |
| FrontendScanner.Scan | src/main/java/com/webassets/discovery/FrontendScanner.java:22-37 | the scan result holds the deduplicated menus and call sites of the frontend files, all from frontend files |
| RelationBuilder.Normalize | src/main/java/com/webassets/discovery/RelationBuilder.java:71-80 | normalize (definition: lower-case, trim, delete scheme-and-host segments, root with '/', collapse '/' runs); properties in `NormalizeShape`, `NormalizeKeeps`, `NormalizeDropsHost`, `NormalizeIgnoresCase`, `NormalizePathExample` and `NormalizeUrlExample` |
| RelationBuilder.NormalizeShape | src/main/java/com/webassets/discovery/RelationBuilder.java:71-80 | a normalized path starts with '/', has no "//" and no upper-case ASCII letter |
| RelationBuilder.NormalizeKeeps | src/main/java/com/webassets/discovery/RelationBuilder.java:71-80 | a path already in normal form (trimmed, lower-case, host-free, '/'-led, no "//") is unchanged |
| RelationBuilder.Rooted | src/main/java/com/webassets/discovery/RelationBuilder.java:76-78 | the path gets a leading '/' when it has none, and is kept when it has one |
| RelationBuilder.NormalizeDropsHost | src/main/java/com/webassets/discovery/RelationBuilder.java:75 | an absolute URL normalizes like its path: "http(s)://host" in front of any '/'-led path is deleted |
| RelationBuilder.NormalizeIgnoresCase | src/main/java/com/webassets/discovery/RelationBuilder.java:75 | normalizing ignores ASCII case: a path and its lower-cased form normalize alike |
| RelationBuilder.NormalizePathExample | src/main/java/com/webassets/discovery/RelationBuilder.java:71-80 | "/User/List" normalizes to "/user/list" |
| RelationBuilder.NormalizeUrlExample | src/main/java/com/webassets/discovery/RelationBuilder.java:71-80 | "https://h.example/User/List" normalizes to "/user/list" |
| RelationBuilder.SegmentOfLeads | src/main/java/com/webassets/discovery/RelationBuilder.java:64-68 | the segment cut from a normalized path is what the path leads with |
| RelationBuilder.SegmentOfUnique | src/main/java/com/webassets/discovery/RelationBuilder.java:64-68 | a normalized path leads with only one segment |
| RelationBuilder.FirstSegment | src/main/java/com/webassets/discovery/RelationBuilder.java:62-69 | firstSegment (definition: the segment cut from the normalized path); properties in `FirstSegmentSpec`, `SegmentOfLeads` and `SegmentOfUnique` |
| RelationBuilder.FirstSegmentSpec | src/main/java/com/webassets/discovery/RelationBuilder.java:62-69 | firstSegment is the one segment the normalized path leads with ("/seg" followed by the end or by '/') |
| RelationBuilder.IsLikelyRelated | src/main/java/com/webassets/discovery/RelationBuilder.java:56-60 | isLikelyRelated (definition: both first segments equal and not blank); properties in `IsLikelyRelatedSpec` |
| RelationBuilder.IsLikelyRelatedSpec | src/main/java/com/webassets/discovery/RelationBuilder.java:56-60 | a route and a path are related exactly when their normalized forms lead with the same non-blank segment; relatedness is symmetric |
| RelationBuilder.FirstMatchSpec | src/main/java/com/webassets/discovery/RelationBuilder.java:48-53 | the search finds nothing exactly when no endpoint matches; otherwise it returns the endpoint at an index where one matches and none before it does |
| RelationBuilder.FirstWhereSpec | src/main/java/com/webassets/discovery/RelationBuilder.java:48-53 | a first-match search over a list: none exactly when no element passes, otherwise the element at the first index that passes |
| RelationBuilder.MatchByPath | src/main/java/com/webassets/discovery/RelationBuilder.java:46-54 | matchByPath returns the first endpoint whose normalized path equals the normalized URL, ends with it, or is a suffix of it; otherwise none |
| RelationBuilder.MatchesAt | src/main/java/com/webassets/discovery/RelationBuilder.java:16 | the match used for a call site is matchByPath of its URL |
| RelationBuilder.AddSameFileRelations | src/main/java/com/webassets/discovery/RelationBuilder.java:12-27 | the usage loop appends, in usage order, one HIGH relation for each call site in the menu's file whose URL matches an endpoint |
| RelationBuilder.AddSharedPrefixRelations | src/main/java/com/webassets/discovery/RelationBuilder.java:29-40 | the endpoint loop appends, in endpoint order, one MEDIUM relation for each endpoint related to the menu route |
| RelationBuilder.Deduplicate | src/main/java/com/webassets/discovery/RelationBuilder.java:82-94 | the loop keeps each relation unless a kept one has the same route, path and verb |
| RelationBuilder.BuildRelations | src/main/java/com/webassets/discovery/RelationBuilder.java:8-44 | buildRelations is the deduplication of, menu by menu, the HIGH block followed by the MEDIUM block |
| RelationBuilder.HighAtSpec | src/main/java/com/webassets/discovery/RelationBuilder.java:13-25 | a call site yields a HIGH relation exactly when it shares the menu's file and its URL matched an endpoint, and the relation links that menu and endpoint |
| RelationBuilder.HighForSound | src/main/java/com/webassets/discovery/RelationBuilder.java:12-27 | every HIGH relation of a menu comes from some call site |
| RelationBuilder.HighForComplete | src/main/java/com/webassets/discovery/RelationBuilder.java:12-27 | every call site that yields a HIGH relation contributes it |
| RelationBuilder.HighForMember | src/main/java/com/webassets/discovery/RelationBuilder.java:12-27 | a relation is in a menu's HIGH block exactly when some call site of the menu's file matched the relation's endpoint |
| RelationBuilder.MediumForMember | src/main/java/com/webassets/discovery/RelationBuilder.java:29-40 | a relation is in a menu's MEDIUM block exactly when it links the menu to some endpoint related to its route |
| RelationBuilder.CoLocatedSpec | src/main/java/com/webassets/discovery/RelationBuilder.java:12-27 | the HIGH block of a menu is exactly the set of relations to endpoints matched by a call site in the menu's file |
| RelationBuilder.RelationsOfSound | src/main/java/com/webassets/discovery/RelationBuilder.java:11-41 | every relation gathered by the first n menus comes from one of those menus |
| RelationBuilder.RelationsOfComplete | src/main/java/com/webassets/discovery/RelationBuilder.java:11-41 | every relation a menu yields is gathered |
| RelationBuilder.RelationsOfPrefix | src/main/java/com/webassets/discovery/RelationBuilder.java:11-41 | what the first m menus gather is a prefix of what later menus extend it to |
| RelationBuilder.FromMenuSpec | src/main/java/com/webassets/discovery/RelationBuilder.java:11-41 | a menu yields a relation exactly when the relation is co-located (HIGH) or shares a prefix (MEDIUM) |
| RelationBuilder.RelationSound | src/main/java/com/webassets/discovery/RelationBuilder.java:8-44 | every relation returned links some menu to an endpoint, either through a call site in the same file or through a shared first segment |
| RelationBuilder.RelationComplete | src/main/java/com/webassets/discovery/RelationBuilder.java:8-44 | for every co-located or prefix-sharing pair, some returned relation has the same route, path and verb |
| RelationBuilder.RelationsDistinctKeys | src/main/java/com/webassets/discovery/RelationBuilder.java:43 | no two returned relations share route, path and verb |
| RelationBuilder.HighWinsFirst | src/main/java/com/webassets/discovery/RelationBuilder.java:11-43 | the first occurrence of a HIGH relation's key, when no earlier menu produced that key, lies in that menu's HIGH block |
| RelationBuilder.HighWins | src/main/java/com/webassets/discovery/RelationBuilder.java:11-43 | a co-located relation whose key no earlier menu produced is itself returned, and every returned relation with its key is HIGH with this menu's title, even when the same endpoint also shares a prefix with the menu: the HIGH loop runs before the MEDIUM loop and the first relation wins |
| RelationBuilder.MediumWinsFirst | src/main/java/com/webassets/discovery/RelationBuilder.java:11-43 | the first occurrence of a MEDIUM relation's key, when neither earlier menus nor the menu's HIGH block have that key, lies in that menu's MEDIUM block |
| RelationBuilder.MediumWins | src/main/java/com/webassets/discovery/RelationBuilder.java:11-43 | a prefix-sharing relation whose key neither an earlier menu nor a co-located relation of the same menu produced is itself returned, and every returned relation with its key is MEDIUM with this menu's title, whatever later menus add: the first relation for a key wins |

## Left out

- `FileCollector`, `WebAssetsDiscoveryApp`, `AssetInventory` and the report writers are not part of this model.
- Reading files (`Files.readString`) and `Path.relativize` are not modelled. The scanners take a list of `SourceFile` values, each with its path relative to the scan root and its text.
- The `.java`, `.vue`, `.js` and `.html` suffix tests are made on that relative path, not on the absolute one. The suffix is the same.
- `HashMap` iteration order is not modelled. The deduplicated endpoints, menus and call sites are returned as the `map` from key to record, not as `new ArrayList<>(map.values())`. `BuildRelations` accepts the menus, endpoints and call sites in any order.
- The regular expressions `METHOD_DECL`, `SPRING_METHOD_MAPPING`, `MENU_ITEM_TAG`, `A_HREF`, `ROUTE_OBJECT`, `AXIOS_CALL`, `HTTP_CLIENT_CALL` and `FETCH_CALL` are parameters, not written out. The model assumes nothing about them beyond the shape of their groups.
- `SPRING_METHOD_MAPPING` is taken to report the annotation name in group 1, so the `default -> null` branch of `toSpringHttpMethod` is modelled but is only reachable through the parameter.
- JavaText.Trim: its own contract gives only the trimmed ends and the length. That the result is the slice left after dropping the outer characters at or below U+0020 is stated by `TrimSpec`. Slice equalities in a function's `ensures` make every caller's proof expensive, so they live in that lemma.
- JavaText.TrimChars: states only that no character is invented. The exact slice is `TrimSpec`.
- JavaText.CollapseSlashes: its own contract gives only the ends and the length. That only '/' characters go is `CollapseSlashesChars`, and the left-to-right run rule is `CollapseSlashesAppend`.
- JavaText.HostPrefixLength: its own contract gives only the shape of a match. Both directions, and the host running up to the next '/', are `HostPrefixLengthSpec`.
- JavaText.StripHosts: its own contract gives only the length. The deletion of each scheme-and-host segment is `StripHostsDeletes`, with `StripHostsPrefix` and `StripHostsDeletesHead`.
- JavaText.StripHostsChars: states only that no character is invented. What is deleted is `StripHostsDeletes`.
- JavaText.SplitOnBreaksSpec: states only that no piece holds a break. The round trip is `SplitOnBreaksJoin`, with `SeparatorsAreBreaks` and `SeparatorsGreedy`.
- JavaText.FirstQuoted: its own contract says only that the capture is non-empty and quote-free. Where the capture comes from is `LeftmostSpec` (the first position that matches) together with `QuotedAtSpec` (what matches there).
- BackendApiScanner.FindAnnotation: its own contract says only that the arguments hold no ')'. Which annotation is found is `LeftmostSpec` together with `AnnotationArgsAtShape` and `AnnotationArgsAtFound`.
- BackendApiScanner.VerbAt: its own contract gives only the Some direction. Both directions are `VerbAtSpec`.
- BackendApiScanner.RequestMethodAt: its own contract gives only the verb. Both directions, with the `RequestMethod.` prefix, are `RequestMethodAtSpec`.
- BackendApiScanner.JaxRsMethodAt: its own contract gives only the verb. Both directions, with the '@' prefix, are `JaxRsMethodAtSpec`.
- BackendApiScanner.AnnotationArgsAt: its own contract gives only the tag and the absence of ')'. The whole match is `AnnotationArgsAtShape`, and its converse is `AnnotationArgsAtFound`.
- BackendApiScanner.ExtractPathValue: its own contract says only that no quote is returned. Which literal is returned is `ExtractPathValueFirst`.
- BackendApiScanner.ExtractClassLevelPath: its own contract says only that no quote is returned. The present case is `ClassLevelPathPresent`, and the absent case is `ClassLevelPathAbsent`.
- BackendApiScanner.DropLeadingSlashes: its own contract gives only the missing leading '/'. That only '/' characters are dropped, from the front, is `DropLeadingSlashesSpec`.
- BackendApiScanner.DropTrailingSlashes: its own contract gives only the missing trailing '/'. That only '/' characters are dropped, from the back, is `DropTrailingSlashesSpec`.
- JavaText.ToLowerCase: maps ASCII letters only. `Locale.ROOT` case mapping of other characters is not modelled.
- JavaText.ToUpperCase: maps ASCII letters only, and does not model the default locale's case mapping.
- `null` inputs to `normalize` and `trimSlashes` are not modelled: every caller passes a non-null string, and Dafny strings are never null.
- The map keys join fields with `|`. Two different records whose fields contain `|` can collide, exactly as in the Java code. The model keeps that behaviour and proves nothing that would exclude it.
- RelationBuilder.NormalizeKeeps: states only that a path already in normal form is kept. `normalize` is not idempotent in general: stripping a host can leave whitespace at the end (`"x http://h"` becomes `"/x "`), and a second pass trims it.
- RelationBuilder.AddSharedPrefixRelations: takes the relatedness test as a parameter. `BuildRelations` passes `IsLikelyRelated`, the model of `isLikelyRelated`.
- Line numbers are unbounded integers: a file with more than 2^31 − 1 lines, where Java's `int` would overflow, is not considered.
