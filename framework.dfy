/** The commerce framework's shapes the core uses: its error type, the validation
    library's issue record, and the store entity whose metadata holds the
    announcement bar configuration. */
module Framework {
  import opened JsValues

  /** The two error types the core raises. */
  datatype ErrorType = InvalidData | NotFound

  /** The issue codes of the validation library that the schema can produce. */
  datatype IssueCode = InvalidType | InvalidEnumValue | InvalidDate | Custom

  /** One validation issue: the offending field (the empty path for the body
      itself), its code and its message. */
  datatype Issue = Issue(path: string, code: IssueCode, message: string)

  /** An error's message: plain text, or the validation library's serialised
      list of issues, which the model keeps as the list itself. */
  datatype Message = Text(text: string) | Issues(issues: seq<Issue>)

  datatype MedusaError = MedusaError(kind: ErrorType, message: Message)

  /** A store entity: its identifier and its metadata, which may be null. */
  datatype Store = Store(id: string, metadata: Option<Metadata>)

  /** The eight metadata keys that make up the announcement bar configuration. */
  const ConfigKeys: set<string> :=
    {"enabled", "text", "backgroundColor", "linkUrl", "position", "dismissible",
     "startDateTime", "endDateTime"}
}
