/** ChangeFunctionName: renames every SQL function call whose name matches a
    case-insensitive glob, recording one DatabaseQueries row per renamed call and
    bracketing the deparsed text of each renamed call with the change marker. */
module ChangeFunctionName {
  import opened Wrappers
  import opened Strings
  import opened Sql
  import opened Tables
  import opened ChangeTracking
  import opened DeParse
  import opened Renaming
  import opened SqlQuery

  /** What preVisit returns: the text mapSql produced for a node with a view (the
      recipe hands that String back in place of the tree), or the node itself. */
  datatype Visit = MappedSql(text: string) | Unchanged(tree: HostNode)

  /** The recipe with its two options and the data table its runs fill. */
  class ChangeFunctionNameRecipe {
    const oldFunctionName: string
    const newFunctionName: string
    var databaseQueries: seq<QueryRow>

    constructor(oldFunctionName: string, newFunctionName: string)
      ensures this.oldFunctionName == oldFunctionName && this.newFunctionName == newFunctionName
      ensures databaseQueries == []
    {
      this.oldFunctionName := oldFunctionName;
      this.newFunctionName := newFunctionName;
      databaseQueries := [];
    }

    /** preVisit of one node of the source file at `sourcePath`. A node without a view
        falls through to the default visit. Otherwise the statement is deparsed with the
        renaming visit(Function): one query row per matching call, in deparse order, and
        the marked text of the renamed statement as the result. */
    method PreVisit(parse: Parser, node: HostNode, sourcePath: string) returns (result: Visit)
      modifies this
      ensures ViewOf(parse, node).Failure? ==>
                result == Unchanged(node) && databaseQueries == old(databaseQueries)
      ensures ViewOf(parse, node).Success? ==>
                var v := ViewOf(parse, node).value;
                var hook := Rename(oldFunctionName, newFunctionName, sourcePath, v.sql);
                result == MappedSql(StmtDeparsed(hook, v.query))
                && databaseQueries == old(databaseQueries) + QueryRowsFor(hook, StmtMatched(hook, v.query))
    {
      var view := ViewOf(parse, node);
      if view.Failure? {
        return Unchanged(node);
      }
      var q := new QueryView(view.value);
      var hook := Rename(oldFunctionName, newFunctionName, sourcePath, q.sql);
      var deparser := new DeParser(hook);
      var text := q.MapSql(deparser);
      assert deparser.queryRows == QueryRowsFor(hook, StmtMatched(hook, view.value.query));
      databaseQueries := databaseQueries + deparser.queryRows;
      result := MappedSql(text);
    }
  }

  /** The text ChangeFunctionName produces for a statement: the plain text of the
      statement with every matching call renamed, and one marker pair written around
      each matching call, nested ones included. So the text holds two more marker
      characters per matching call, as many query rows are recorded, and applyChange
      gives the plain text of the renamed statement whenever that holds no marker of
      its own. */
  lemma MarkedOutput(original: string, oldName: string, newName: string, sourcePath: string, sql: string, st: Statement)
    ensures var hook := Rename(oldName, newName, sourcePath, sql);
            var text, plain := StmtDeparsed(hook, st), StmtDeparsed(Plain, StmtRenamed(hook, st));
            var hits := Hits(hook, StmtCallNames(st));
            && WithMarkers(text, plain, 2 * |hits|)
            && CountChar(text, ChangeMarker[0]) == CountChar(plain, ChangeMarker[0]) + 2 * |hits|
            && |QueryRowsFor(hook, StmtMatched(hook, st))| == |hits|
            && (Unmarked(plain) ==> ApplyChange(original, text) == plain)
            && StmtCallNames(StmtRenamed(hook, st)) == RenameNames(hook, StmtCallNames(st))
  {
    var hook := Rename(oldName, newName, sourcePath, sql);
    TrackedStatement(original, hook, st);
    StmtMatchedAreHits(hook, st);
    StmtRenamedCallNames(hook, st);
  }

  /** When no call matches, the statement is deparsed to its plain text and left as it
      was, no query row is recorded, and (for SQL without a marker) applyChange leaves
      the text alone. */
  lemma NothingMatches(original: string, oldName: string, newName: string, sourcePath: string, sql: string, st: Statement)
    requires Hits(Rename(oldName, newName, sourcePath, sql), StmtCallNames(st)) == []
    ensures var hook := Rename(oldName, newName, sourcePath, sql);
            var text := StmtDeparsed(hook, st);
            text == StmtDeparsed(Plain, st) && StmtRenamed(hook, st) == st
            && QueryRowsFor(hook, StmtMatched(hook, st)) == []
            && (Unmarked(StmtDeparsed(Plain, st)) ==> ApplyChange(original, text) == text)
  {
    var hook := Rename(oldName, newName, sourcePath, sql);
    StmtMatchedAreHits(hook, st);
    StmtUntouched(hook, st);
    if Unmarked(StmtDeparsed(Plain, st)) {
      UnmarkedUnchanged(original, StmtDeparsed(Plain, st));
    }
  }

  /** Some matching call always shows up as a whole marker in the text. */
  lemma SomethingMatches(oldName: string, newName: string, sourcePath: string, sql: string, st: Statement)
    requires Hits(Rename(oldName, newName, sourcePath, sql), StmtCallNames(st)) != []
    ensures var text := StmtDeparsed(Rename(oldName, newName, sourcePath, sql), st);
            Contains(text, ChangeMarker) && ChangeMarker[0] in text
  {
    var hook := Rename(oldName, newName, sourcePath, sql);
    StmtMarkers(hook, st);
    StmtMatchedAreHits(hook, st);
    MarkersShown(StmtDeparsed(hook, st), StmtDeparsed(Plain, StmtRenamed(hook, st)), 2 * |StmtMatched(hook, st)|);
  }
}
