/** FindFunction: reports the SQL queries that call a function whose name matches a
    case-insensitive glob, with one DatabaseQueries row and one DatabaseFunctions row
    per matching call, and marks the node that holds such a query. */
module FindFunction {
  import opened Wrappers
  import opened Strings
  import opened Sql
  import opened Tables
  import Glob
  import opened DeParse
  import opened Renaming
  import opened SqlQuery

  /** The recipe with its option and the two data tables its runs fill. */
  class FindFunctionRecipe {
    const functionName: string
    var databaseQueries: seq<QueryRow>
    var databaseFunctions: seq<FunctionRow>

    constructor(functionName: string)
      ensures this.functionName == functionName && databaseQueries == [] && databaseFunctions == []
    {
      this.functionName := functionName;
      databaseQueries := [];
      databaseFunctions := [];
    }

    /** preVisit of one node of the source file at `sourcePath`. A node without a view
        falls through to the default visit, which returns it unchanged. Otherwise the
        view's statement is deparsed with the recording visit(Function); every matching
        call adds its rows, in deparse order, and the node comes back marked exactly
        when some call matched. */
    method PreVisit(parse: Parser, node: HostNode, sourcePath: string) returns (result: Marked<HostNode>)
      modifies this
      ensures ViewOf(parse, node).Failure? ==>
                result == Marked(node, false)
                && databaseQueries == old(databaseQueries) && databaseFunctions == old(databaseFunctions)
      ensures ViewOf(parse, node).Success? ==>
                var v := ViewOf(parse, node).value;
                var hook := Find(functionName, sourcePath, v.sql);
                var matched := StmtMatched(hook, v.query);
                result == Marked(node, matched != [])
                && databaseQueries == old(databaseQueries) + QueryRowsFor(hook, matched)
                && databaseFunctions == old(databaseFunctions) + FunctionRowsFor(hook, matched)
    {
      var view := ViewOf(parse, node);
      if view.Failure? {
        return Marked(node, false);
      }
      var q := new QueryView(view.value);
      var hook := Find(functionName, sourcePath, q.sql);
      ghost var matched := StmtMatched(hook, q.query);
      var deparser := new DeParser(hook);
      var _ := q.MapSql(deparser);
      assert deparser.queryRows == QueryRowsFor(hook, matched);
      assert deparser.functionRows == FunctionRowsFor(hook, matched);
      assert deparser.found == (matched != []);
      databaseQueries := databaseQueries + deparser.queryRows;
      databaseFunctions := databaseFunctions + deparser.functionRows;
      result := Marked(node, deparser.found);
    }
  }

  /** What one query adds to the tables: as many query rows as function rows, one of
      each per call whose name matches, nested calls included; every query row carries
      the source path and the query, every function row the source path, the matching
      name lower-cased, and the query. */
  lemma FoundRows(functionName: string, sourcePath: string, sql: string, st: Statement)
    ensures var hook := Find(functionName, sourcePath, sql);
            var hits := Hits(hook, StmtCallNames(st));
            var queries := QueryRowsFor(hook, StmtMatched(hook, st));
            var functions := FunctionRowsFor(hook, StmtMatched(hook, st));
            |queries| == |functions| == |hits|
            && (forall k :: 0 <= k < |hits| ==>
                  queries[k] == QueryRow(sourcePath, sql)
                  && functions[k] == FunctionRow(sourcePath, LowerAsciiString(hits[k]), sql)
                  && Glob.Matches(hits[k], functionName))
  {
    var hook := Find(functionName, sourcePath, sql);
    StmtMatchedAreHits(hook, st);
    var hits := Hits(hook, StmtCallNames(st));
    forall k | 0 <= k < |hits|
      ensures Glob.Matches(hits[k], functionName)
    {
      assert hits[k] in hits;
    }
  }

  /** Finding functions changes neither the statement nor its text. */
  lemma FindLeavesQuery(functionName: string, sourcePath: string, sql: string, st: Statement)
    ensures var hook := Find(functionName, sourcePath, sql);
            StmtRenamed(hook, st) == st && StmtDeparsed(hook, st) == StmtDeparsed(Plain, st)
  {
    StmtUntouched(Find(functionName, sourcePath, sql), st);
  }

  /** `select nvl(a, b) from table where id = 1` is found for the pattern `nvl`; the
      same query calling `coalesce` is not. */
  lemma NvlExample(sourcePath: string)
    ensures var where := Some(BinOp(Column("id"), "=", Literal("1")));
            var nvl := Select(PlainSelect([Call("nvl", [Column("a"), Column("b")])], FromTable("table"), where, [], None, []));
            StmtMatched(Find("nvl", sourcePath, "select nvl(a, b) from table where id = 1"), nvl) == ["nvl"]
    ensures var where := Some(BinOp(Column("id"), "=", Literal("1")));
            var coalesce := Select(PlainSelect([Call("coalesce", [Column("a"), Column("b")])], FromTable("table"), where, [], None, []));
            StmtMatched(Find("nvl", sourcePath, "select coalesce(a, b) from table where id = 1"), coalesce) == []
  {
    assert Glob.Matches("nvl", "nvl") && !Glob.Matches("coalesce", "nvl") by {
      Glob.LiteralMatches("nvl", "nvl");
      Glob.LiteralMatches("coalesce", "nvl");
    }
    var found := Find("nvl", sourcePath, "select nvl(a, b) from table where id = 1");
    var missed := Find("nvl", sourcePath, "select coalesce(a, b) from table where id = 1");
    assert Hit(found, "nvl") && !Hit(missed, "coalesce");
    IdQueryMatched(found, "nvl");
    IdQueryMatched(missed, "coalesce");
  }

  /** In `select name(a, b) from table where id = 1` only the call itself can match:
      its arguments and the WHERE clause call nothing. */
  lemma IdQueryMatched(hook: Hook, name: string)
    ensures var where := Some(BinOp(Column("id"), "=", Literal("1")));
            var query := Select(PlainSelect([Call(name, [Column("a"), Column("b")])], FromTable("table"), where, [], None, []));
            StmtMatched(hook, query) == if Hit(hook, name) then [name] else []
  {
    var args := [Column("a"), Column("b")];
    assert args[..1] == [Column("a")];
    assert MatchedList(hook, args) == [];
    var call := Call(name, args);
    assert [call][..0] == [];
    assert MatchedList(hook, [call]) == Matched(hook, call);
    var cond := BinOp(Column("id"), "=", Literal("1"));
    assert Opt(Some(cond)) == [cond] && [cond][..0] == [];
    assert MatchedList(hook, [cond]) == Matched(hook, cond) == [];
    assert ClausesMatched(hook, Some(cond), [], None, []) == [];
  }

  /** `select a from t union select b from u order by nvl(a, b)` and
      `select a from t group by nvl(a, b)`: a call is found in a set operation's
      ORDER BY and in a GROUP BY, not only among the select items. */
  lemma NvlInClausesExample(sourcePath: string, sql: string)
    ensures var nvl := Call("nvl", [Column("a"), Column("b")]);
            var union := Select(SetOperation(PlainSelect([Column("a")], FromTable("t"), None, [], None, []), "UNION",
                                             PlainSelect([Column("b")], FromTable("u"), None, [], None, []), [nvl]));
            StmtMatched(Find("nvl", sourcePath, sql), union) == ["nvl"]
    ensures var nvl := Call("nvl", [Column("a"), Column("b")]);
            var grouped := Select(PlainSelect([Column("a")], FromTable("t"), None, [nvl], None, []));
            StmtMatched(Find("nvl", sourcePath, sql), grouped) == ["nvl"]
  {
    var hook := Find("nvl", sourcePath, sql);
    Glob.LiteralMatches("nvl", "nvl");
    var args := [Column("a"), Column("b")];
    assert args[..1] == [Column("a")];
    assert MatchedList(hook, args) == [];
    var nvl := Call("nvl", args);
    assert [nvl][..0] == [];
    assert MatchedList(hook, [nvl]) == ["nvl"];
    assert [Column("a")][..0] == [];
    assert [Column("b")][..0] == [];
    assert MatchedList(hook, [Column("a")]) == [];
    assert MatchedList(hook, [Column("b")]) == [];
    var left := PlainSelect([Column("a")], FromTable("t"), None, [], None, []);
    var right := PlainSelect([Column("b")], FromTable("u"), None, [], None, []);
    assert ClausesMatched(hook, None, [], None, []) == [];
    assert BodyMatched(hook, left) == [] && BodyMatched(hook, right) == [];
    assert BodyMatched(hook, SetOperation(left, "UNION", right, [nvl])) == [] + [] + ["nvl"];
    assert ClausesMatched(hook, None, [nvl], None, []) == [] + ["nvl"] + [] + [];
  }
}
