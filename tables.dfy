/** The rows the recipes insert into their data tables, and the search-result marker
    they put on the nodes they report. */
module Tables {
  import opened Wrappers

  /** DatabaseColumnsUsed.Operation. */
  datatype Operation = SELECT | UPDATE | INSERT | DELETE

  /** DatabaseColumnsUsed.Row, with the commit hash the detector passes to it; `column`
      is `None` for a DELETE. */
  datatype Row = Row(
    sourcePath: string,
    lineNumber: int,
    commitHash: Option<string>,
    operation: Operation,
    table: string,
    column: Option<string>)

  /** DatabaseQueries.Row: where a query was seen, and its text. */
  datatype QueryRow = QueryRow(sourcePath: string, sql: string)

  /** DatabaseFunctions.Row: where a function call was seen, its name and the query text. */
  datatype FunctionRow = FunctionRow(sourcePath: string, functionName: string, sql: string)

  /** A visited node and whether it carries a SearchResult marker. Marking an already
      marked node leaves one marker, so the marker is a flag. */
  datatype Marked<T> = Marked(tree: T, found: bool)
}
