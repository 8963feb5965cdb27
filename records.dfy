/**
 * The four immutable records the pipeline produces, and the scanned file
 * they come from.  Line numbers are Java `int`s; a file never has enough
 * lines for `i + 1` to overflow, so they are plain integers here.
 */
module Records {
  /** A backend endpoint: framework tag, HTTP verb, composed path, handler name, file and 1-based line. */
  datatype ApiAsset = ApiAsset(
    framework: string,
    httpMethod: string,
    path: string,
    javaMethod: string,
    sourceFile: string,
    line: int)

  /** A frontend navigation entry. */
  datatype MenuAsset = MenuAsset(
    title: string,
    route: string,
    sourceFile: string,
    line: int)

  /** A frontend HTTP call site. */
  datatype FrontendApiUsage = FrontendApiUsage(
    httpMethod: string,
    url: string,
    sourceFile: string,
    line: int)

  /** An inferred link from a menu to an endpoint, with its confidence and reason. */
  datatype MenuApiRelation = MenuApiRelation(
    menuRoute: string,
    menuTitle: string,
    apiPath: string,
    apiMethod: string,
    confidence: string,
    reason: string)

  /** One scanned file: its path relative to the scan root, and its text. */
  datatype SourceFile = SourceFile(path: string, content: string)
}
