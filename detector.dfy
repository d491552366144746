/** SqlDetector: the keyword gates, the statement check, and the extractor that reports
    which tables and columns a statement reads or writes. */
module SqlDetector {
  import opened Wrappers
  import opened Strings
  import opened Sql
  import opened Tables

  const SqlKeywords: seq<string> := ["SELECT", "UPDATE", "DELETE", "INSERT"]
  const DdlKeywords: seq<string> := ["CREATE", "ALTER", "DROP", "TRUNCATE"]

  // ---------------------------------------------------------------------------
  // Keyword gates
  // ---------------------------------------------------------------------------

  /** `find()` of a case-insensitive alternation of literal keywords: some keyword occurs
      somewhere in the text, not necessarily as a whole word. */
  predicate FindsKeyword(s: string, keywords: seq<string>) {
    exists k | 0 <= k < |keywords| :: ContainsIgnoreCase(s, keywords[k])
  }

  function ProbablySql(maybeSql: Option<string>): (r: bool)
    ensures r ==> maybeSql.Some?
  {
    maybeSql.Some? && FindsKeyword(maybeSql.value, SqlKeywords)
  }

  function ProbablyDdl(maybeDdl: Option<string>): (r: bool)
    ensures r ==> maybeDdl.Some?
  {
    maybeDdl.Some? && FindsKeyword(maybeDdl.value, DdlKeywords)
  }

  /** The gate holds exactly when one of the keywords starts at some position, in any
      ASCII case. */
  lemma FindsKeywordAt(s: string, keywords: seq<string>)
    ensures FindsKeyword(s, keywords) <==>
            exists k, i :: 0 <= k < |keywords| && 0 <= i <= |s| - |keywords[k]|
                           && StartsWithIgnoreCase(s[i..], keywords[k])
  {
    forall k | 0 <= k < |keywords| {
      ContainsIgnoreCaseAt(s, keywords[k]);
    }
  }

  /** Whatever surrounds a keyword occurrence, the gate still holds: "SELECTed" passes. */
  lemma FindsKeywordGrows(p: string, s: string, q: string, keywords: seq<string>)
    requires FindsKeyword(s, keywords)
    ensures FindsKeyword(p + s + q, keywords)
  {
    var k :| 0 <= k < |keywords| && ContainsIgnoreCase(s, keywords[k]);
    ContainsIgnoreCaseGrows(p, s, q, keywords[k]);
  }

  lemma ProbablySqlAt(s: string)
    ensures ProbablySql(Some(s)) <==>
            exists k, i :: 0 <= k < |SqlKeywords| && 0 <= i <= |s| - |SqlKeywords[k]|
                           && StartsWithIgnoreCase(s[i..], SqlKeywords[k])
  {
    FindsKeywordAt(s, SqlKeywords);
  }

  lemma ProbablyDdlAt(s: string)
    ensures ProbablyDdl(Some(s)) <==>
            exists k, i :: 0 <= k < |DdlKeywords| && 0 <= i <= |s| - |DdlKeywords[k]|
                           && StartsWithIgnoreCase(s[i..], DdlKeywords[k])
  {
    FindsKeywordAt(s, DdlKeywords);
  }

  lemma ProbablySqlGrows(p: string, s: string, q: string)
    requires ProbablySql(Some(s))
    ensures ProbablySql(Some(p + s + q))
  {
    FindsKeywordGrows(p, s, q, SqlKeywords);
  }

  lemma ProbablyDdlGrows(p: string, s: string, q: string)
    requires ProbablyDdl(Some(s))
    ensures ProbablyDdl(Some(p + s + q))
  {
    FindsKeywordGrows(p, s, q, DdlKeywords);
  }

  // ---------------------------------------------------------------------------
  // isSql
  // ---------------------------------------------------------------------------

  /** Every `;`-separated segment (Java `split` semantics) parses. */
  predicate AllSegmentsParse(parse: Parser, s: string) {
    forall k :: 0 <= k < |JavaSplit(s, ';')| ==> parse(JavaSplit(s, ';')[k]).Some?
  }

  /** What `isSql` decides: one of the gates holds and every segment parses. */
  predicate IsSqlText(parse: Parser, maybeSql: Option<string>) {
    (ProbablySql(maybeSql) || ProbablyDdl(maybeSql)) && AllSegmentsParse(parse, maybeSql.value)
  }

  /** isSql: parses the segments one after the other and gives up at the first failure. */
  method IsSql(parse: Parser, maybeSql: Option<string>) returns (r: bool)
    ensures r == IsSqlText(parse, maybeSql)
  {
    if ProbablySql(maybeSql) || ProbablyDdl(maybeSql) {
      var segments := JavaSplit(maybeSql.value, ';');
      for i := 0 to |segments|
        invariant forall k :: 0 <= k < i ==> parse(segments[k]).Some?
      {
        if parse(segments[i]).None? {
          return false;
        }
      }
      return true;
    }
    return false;
  }

  /** Without a `;` the whole text is the one statement that has to parse. */
  lemma IsSqlSingle(parse: Parser, s: string)
    requires ';' !in s
    ensures IsSqlText(parse, Some(s)) <==>
            (ProbablySql(Some(s)) || ProbablyDdl(Some(s))) && parse(s).Some?
  {
    assert JavaSplit(s, ';') == [s];
    if parse(s).Some? {
      forall k | 0 <= k < |JavaSplit(s, ';')|
        ensures parse(JavaSplit(s, ';')[k]).Some?
      {
        assert k == 0;
      }
    }
    if AllSegmentsParse(parse, s) {
      assert parse(JavaSplit(s, ';')[0]).Some?;
    }
  }

  /** Two statements joined by `;` are SQL exactly when the gate holds and both parse;
      one failing statement makes the whole text fail. */
  lemma IsSqlTwo(parse: Parser, a: string, b: string)
    requires ';' !in a && ';' !in b && b != ""
    ensures IsSqlText(parse, Some(a + ";" + b)) <==>
            (ProbablySql(Some(a + ";" + b)) || ProbablyDdl(Some(a + ";" + b)))
            && parse(a).Some? && parse(b).Some?
  {
    var s := a + ";" + b;
    assert s[|a|] == ';';
    SplitOnNoSeparator(a, ';');
    SplitOnNoSeparator(b, ';');
    SplitOnConcat(a, b, ';');
    assert JavaSplit(s, ';') == [a, b];
    if parse(a).Some? && parse(b).Some? {
      forall k | 0 <= k < |JavaSplit(s, ';')|
        ensures parse(JavaSplit(s, ';')[k]).Some?
      {
        assert k == 0 || k == 1;
      }
    }
    if AllSegmentsParse(parse, s) {
      assert parse(JavaSplit(s, ';')[0]).Some?;
      assert parse(JavaSplit(s, ';')[1]).Some?;
    }
  }

  /** A trailing `;` changes nothing: Java's split drops the empty last segment. */
  lemma IsSqlTrailingSemicolon(parse: Parser, s: string)
    requires s != "" && ProbablySql(Some(s))
    ensures IsSqlText(parse, Some(s + ";")) == IsSqlText(parse, Some(s))
  {
    ProbablySqlGrows("", s, ";");
    assert "" + s + ";" == s + ";";
    SplitOnSnoc(s, ';', ';');
    assert SplitOn(s + ";", ';') == SplitOn(s, ';') + [""];
    var parts := SplitOn(s, ';');
    assert DropTrailingEmpty(parts + [""]) == DropTrailingEmpty(parts) by {
      assert (parts + [""])[..|parts|] == parts;
    }
    if ';' !in s {
      SplitOnNoSeparator(s, ';');
    }
    assert (s + ";")[|s|] == ';';
    assert JavaSplit(s + ";", ';') == JavaSplit(s, ';');
  }

  // ---------------------------------------------------------------------------
  // rows: which columns a statement uses
  // ---------------------------------------------------------------------------

  /** Where a statement was found; every row it yields carries these three values. */
  datatype Location = Location(sourcePath: string, lineNumber: int, commitHash: Option<string>)

  /** PathUtils.separatorsToUnix is not part of this model; it is taken to turn every
      backslash into a forward slash. */
  function SeparatorsToUnix(path: string): string {
    seq(|path|, i requires 0 <= i < |path| => if path[i] == '\\' then '/' else path[i])
  }

  function RowAt(loc: Location, op: Operation, table: string, column: Option<string>): Row {
    Row(loc.sourcePath, loc.lineNumber, loc.commitHash, op, table, column)
  }

  /** The column names the column detector reports for an expression, in visiting order:
      column references and wildcards, looking through call arguments and both operands
      of a binary operator. */
  function ExprColumns(e: Expr): seq<string>
    decreases e, 1
  {
    match e
    case Column(name) => [name]
    case AllColumns(text) => [text]
    case Call(_, args) => ListColumns(args)
    case BinOp(l, _, r) => ExprColumns(l) + ExprColumns(r)
    case Literal(_) => []
  }

  function ListColumns(es: seq<Expr>): seq<string>
    decreases es, 0
  {
    if es == [] then [] else ListColumns(es[..|es| - 1]) + ExprColumns(Last(es))
  }

  /** The columns of every update set, in set order and then column order. */
  function UpdateColumns(sets: seq<UpdateSet>): seq<string> {
    if sets == [] then [] else UpdateColumns(sets[..|sets| - 1]) + Last(sets).columns
  }

  /** The tables a DELETE names: its table list, then the primary table if there is one. */
  function DeleteTargets(tables: seq<string>, primary: Option<string>): seq<string> {
    tables + (if primary.Some? then [primary.value] else [])
  }

  /** One row per column, in order. */
  function ColumnRows(loc: Location, op: Operation, table: string, columns: seq<string>): (r: seq<Row>)
    ensures |r| == |columns|
  {
    seq(|columns|, k requires 0 <= k < |columns| => RowAt(loc, op, table, Some(columns[k])))
  }

  /** One column-less row per table, in order. */
  function TableRows(loc: Location, op: Operation, tables: seq<string>): (r: seq<Row>)
    ensures |r| == |tables|
  {
    seq(|tables|, k requires 0 <= k < |tables| => RowAt(loc, op, tables[k], None))
  }

  lemma ColumnRowsConcat(loc: Location, op: Operation, table: string, a: seq<string>, b: seq<string>)
    ensures ColumnRows(loc, op, table, a + b) == ColumnRows(loc, op, table, a) + ColumnRows(loc, op, table, b)
  {
  }

  /** The operation a statement's rows carry. */
  function OperationOf(st: Statement): Operation {
    match st
    case Select(_) => SELECT
    case Update(_, _, _) => UPDATE
    case Delete(_, _, _) => DELETE
    case OtherStatement(_) => INSERT
  }

  /** The rows the select visitor appends for one select body: a plain select from a
      table reports the columns of its items; a set operation, the rows of each of
      its selects, left to right. */
  function BodyRows(loc: Location, b: SelectBody): seq<Row>
  {
    match b
    case PlainSelect(items, FromTable(t), _, _, _, _) => ColumnRows(loc, SELECT, t, ListColumns(items))
    case PlainSelect(_, _, _, _, _, _) => []
    case SetOperation(l, _, r, _) => BodyRows(loc, l) + BodyRows(loc, r)
    case OtherSelect(_) => []
  }

  /** The rows the statement visitor appends for one statement. */
  function StatementRows(loc: Location, st: Statement): seq<Row>
  {
    match st
    case Select(b) => BodyRows(loc, b)
    case Update(t, sets, _) => ColumnRows(loc, UPDATE, t, UpdateColumns(sets))
    case Delete(tables, primary, _) => TableRows(loc, DELETE, DeleteTargets(tables, primary))
    case OtherStatement(_) => []
  }

  /** What `rows` returns: nothing unless the SQL gate holds and the text parses. */
  function RowsOf(parse: Parser, loc: Location, maybeSql: Option<string>): seq<Row> {
    if !ProbablySql(maybeSql) then []
    else match parse(maybeSql.value)
      case None => []
      case Some(st) => StatementRows(loc, st)
  }

  /** Every row carries the location `loc` and the operation `op`. */
  predicate AllAt(loc: Location, op: Operation, rows: seq<Row>) {
    forall k :: 0 <= k < |rows| ==>
      rows[k].sourcePath == loc.sourcePath && rows[k].lineNumber == loc.lineNumber
      && rows[k].commitHash == loc.commitHash && rows[k].operation == op
  }

  lemma AllAtConcat(loc: Location, op: Operation, a: seq<Row>, c: seq<Row>)
    requires AllAt(loc, op, a) && AllAt(loc, op, c)
    ensures AllAt(loc, op, a + c)
  {
    forall k | 0 <= k < |a + c|
      ensures (a + c)[k] == if k < |a| then a[k] else c[k - |a|]
    {
    }
  }

  /** Every row of a select body carries the location and SELECT. */
  lemma {:induction false} BodyRowsShape(loc: Location, b: SelectBody)
    ensures AllAt(loc, SELECT, BodyRows(loc, b))
    decreases b
  {
    match b
    case PlainSelect(items, FromTable(t), _, _, _, _) =>
      var rows := BodyRows(loc, b);
      assert forall k :: 0 <= k < |rows| ==> rows[k] == RowAt(loc, SELECT, t, Some(ListColumns(items)[k]));
    case PlainSelect(_, _, _, _, _, _) =>
    case SetOperation(l, _, r, _) =>
      BodyRowsShape(loc, l);
      BodyRowsShape(loc, r);
      AllAtConcat(loc, SELECT, BodyRows(loc, l), BodyRows(loc, r));
    case OtherSelect(_) =>
  }

  /** Every row carries the statement's location and its operation, never INSERT. */
  lemma StatementRowsShape(loc: Location, st: Statement)
    ensures AllAt(loc, OperationOf(st), StatementRows(loc, st))
    ensures StatementRows(loc, st) != [] ==> OperationOf(st) != INSERT
  {
    var rows := StatementRows(loc, st);
    match st
    case Select(b) =>
      BodyRowsShape(loc, b);
    case Update(t, sets, _) =>
      assert forall k :: 0 <= k < |rows| ==> rows[k] == RowAt(loc, UPDATE, t, Some(UpdateColumns(sets)[k]));
    case Delete(tables, primary, _) =>
      assert forall k :: 0 <= k < |rows| ==> rows[k] == RowAt(loc, DELETE, DeleteTargets(tables, primary)[k], None);
    case OtherStatement(_) =>
  }

  /** A plain select from a table reports each column or wildcard of its items once, in
      item order, with the table's name. */
  lemma SelectRows(loc: Location, items: seq<Expr>, t: string, where: Option<Expr>, groupBy: seq<Expr>,
                   having: Option<Expr>, orderBy: seq<Expr>)
    ensures var rows := StatementRows(loc, Select(PlainSelect(items, FromTable(t), where, groupBy, having, orderBy)));
            |rows| == |ListColumns(items)|
            && forall k :: 0 <= k < |rows| ==>
                 rows[k].operation == SELECT && rows[k].table == t
                 && rows[k].column == Some(ListColumns(items)[k])
  {
    
  }

  /** A select whose FROM item is not a table reports nothing. */
  lemma SelectNotFromTable(loc: Location, items: seq<Expr>, from: FromItem, where: Option<Expr>, groupBy: seq<Expr>,
                           having: Option<Expr>, orderBy: seq<Expr>)
    requires !from.FromTable?
    ensures StatementRows(loc, Select(PlainSelect(items, from, where, groupBy, having, orderBy))) == []
  {
  }

  /** A set operation reports the rows of each of its selects, in order, and only
      those: its operator and ORDER BY add none. */
  lemma SetOperationRows(loc: Location, l: SelectBody, op: string, r: SelectBody, orderBy: seq<Expr>)
    ensures var rows := StatementRows(loc, Select(SetOperation(l, op, r, orderBy)));
            rows == StatementRows(loc, Select(l)) + StatementRows(loc, Select(r))
            && |rows| == |StatementRows(loc, Select(l))| + |StatementRows(loc, Select(r))|
  {
  }

  /** `select a from t union select b from u`: one row per branch, each with its own
      table. */
  lemma UnionExample(loc: Location)
    ensures StatementRows(loc, Select(SetOperation(PlainSelect([Column("a")], FromTable("t"), None, [], None, []), "UNION",
                                                   PlainSelect([Column("b")], FromTable("u"), None, [], None, []), [])))
            == [RowAt(loc, SELECT, "t", Some("a")), RowAt(loc, SELECT, "u", Some("b"))]
  {
    assert ListColumns([Column("a")]) == ["a"] by { assert [Column("a")][..0] == []; }
    assert ListColumns([Column("b")]) == ["b"] by { assert [Column("b")][..0] == []; }
    assert ColumnRows(loc, SELECT, "t", ["a"]) == [RowAt(loc, SELECT, "t", Some("a"))];
    assert ColumnRows(loc, SELECT, "u", ["b"]) == [RowAt(loc, SELECT, "u", Some("b"))];
    assert BodyRows(loc, PlainSelect([Column("a")], FromTable("t"), None, [], None, [])) == [RowAt(loc, SELECT, "t", Some("a"))];
    assert BodyRows(loc, PlainSelect([Column("b")], FromTable("u"), None, [], None, [])) == [RowAt(loc, SELECT, "u", Some("b"))];
  }

  /** An update reports every column of every set, in order; its WHERE clause is not
      looked at. */
  lemma UpdateRows(loc: Location, t: string, sets: seq<UpdateSet>, w1: Option<Expr>, w2: Option<Expr>)
    ensures var rows := StatementRows(loc, Update(t, sets, w1));
            rows == StatementRows(loc, Update(t, sets, w2))
            && |rows| == |UpdateColumns(sets)|
            && forall k :: 0 <= k < |rows| ==>
                 rows[k].operation == UPDATE && rows[k].table == t
                 && rows[k].column == Some(UpdateColumns(sets)[k])
  {
    
  }

  /** A delete reports each listed table, duplicates kept, then the primary table; no
      row names a column. */
  lemma DeleteRows(loc: Location, tables: seq<string>, primary: Option<string>, where: Option<Expr>)
    ensures var rows := StatementRows(loc, Delete(tables, primary, where));
            |rows| == |tables| + (if primary.Some? then 1 else 0)
            && (forall k :: 0 <= k < |tables| ==> rows[k].table == tables[k])
            && (primary.Some? ==> Last(rows).table == primary.value)
            && forall k :: 0 <= k < |rows| ==> rows[k].operation == DELETE && rows[k].column.None?
  {
    
  }

  lemma {:induction false} ListColumnsConcat(a: seq<Expr>, b: seq<Expr>)
    ensures ListColumns(a + b) == ListColumns(a) + ListColumns(b)
    decreases |b|
  {
    if b == [] {
      assert a + b == a;
    } else {
      var b' := b[..|b| - 1];
      assert (a + b)[..|a + b| - 1] == a + b';
      ListColumnsConcat(a, b');
    }
  }

  lemma {:induction false} UpdateColumnsConcat(a: seq<UpdateSet>, b: seq<UpdateSet>)
    ensures UpdateColumns(a + b) == UpdateColumns(a) + UpdateColumns(b)
    decreases |b|
  {
    if b == [] {
      assert a + b == a;
    } else {
      var b' := b[..|b| - 1];
      var last := Last(b).columns;
      assert UpdateColumns(a + b) == UpdateColumns(a + b') + last by {
        assert (a + b)[..|a + b| - 1] == a + b' && Last(a + b) == Last(b);
      }
      UpdateColumnsConcat(a, b');
      assert UpdateColumns(a) + UpdateColumns(b') + last == UpdateColumns(a) + (UpdateColumns(b') + last);
    }
  }

  /** The statement visitor of `rows`: an operation stack and a table stack (tops at the
      end of the sequences) and the list of rows appended so far. */
  class UsageExtractor {
    const location: Location
    var operation: seq<Operation>
    var table: seq<string>
    var rows: seq<Row>

    constructor (location: Location)
      ensures this.location == location
      ensures operation == [] && table == [] && rows == []
    {
      this.location := location;
      operation := [];
      table := [];
      rows := [];
    }

    /** addRow */
    method AddRow(row: Row)
      modifies this
      ensures rows == old(rows) + [row]
      ensures operation == old(operation) && table == old(table)
    {
      rows := rows + [row];
    }

    /** ColumnDetector.addRowForColumnName, for a detector made with `op` and `tbl`. */
    method AddColumnRow(op: Operation, tbl: string, columnName: string)
      modifies this
      ensures rows == old(rows) + [RowAt(location, op, tbl, Some(columnName))]
      ensures operation == old(operation) && table == old(table)
    {
      AddRow(RowAt(location, op, tbl, Some(columnName)));
    }

    /** A ColumnDetector made with `op` and `tbl` visiting `e`. */
    method DetectColumns(op: Operation, tbl: string, e: Expr)
      modifies this
      ensures rows == old(rows) + ColumnRows(location, op, tbl, ExprColumns(e))
      ensures operation == old(operation) && table == old(table)
      decreases e, 1
    {
      match e
      case Column(name) =>
        assert ColumnRows(location, op, tbl, [name]) == [RowAt(location, op, tbl, Some(name))];
        AddColumnRow(op, tbl, name);
      case AllColumns(text) =>
        assert ColumnRows(location, op, tbl, [text]) == [RowAt(location, op, tbl, Some(text))];
        AddColumnRow(op, tbl, text);
      case Call(_, args) =>
        DetectColumnsList(op, tbl, args);
      case BinOp(l, _, r) =>
        ColumnRowsConcat(location, op, tbl, ExprColumns(l), ExprColumns(r));
        ghost var before := rows;
        DetectColumns(op, tbl, l);
        ghost var middle := rows;
        DetectColumns(op, tbl, r);
        assert rows == middle + ColumnRows(location, op, tbl, ExprColumns(r));
        assert middle == before + ColumnRows(location, op, tbl, ExprColumns(l));
      case Literal(_) =>
        assert ColumnRows(location, op, tbl, []) == [];
    }

    /** The detector visiting a call's argument list, one argument after the other. */
    method DetectColumnsList(op: Operation, tbl: string, es: seq<Expr>)
      modifies this
      ensures rows == old(rows) + ColumnRows(location, op, tbl, ListColumns(es))
      ensures operation == old(operation) && table == old(table)
      decreases es, 0
    {
      for i := 0 to |es|
        invariant rows == old(rows) + ColumnRows(location, op, tbl, ListColumns(es[..i]))
        invariant operation == old(operation) && table == old(table)
      {
        assert es[..i + 1][..i] == es[..i];
        ColumnRowsConcat(location, op, tbl, ListColumns(es[..i]), ExprColumns(es[i]));
        DetectColumns(op, tbl, es[i]);
      }
      assert es[..|es|] == es;
    }

    /** visit(Select): SELECT is the current operation while the select visitor runs. */
    method VisitSelect(body: SelectBody)
      modifies this
      ensures rows == old(rows) + StatementRows(location, Select(body))
      ensures operation == old(operation) && table == old(table)
    {
      operation := operation + [SELECT];
      VisitSelectBody(body);
      operation := operation[..|operation| - 1];
    }

    /** The SelectVisitorAdapter: a plain select is visited by VisitPlainSelect; a set
        operation visits each of its selects, left to right. */
    method VisitSelectBody(body: SelectBody)
      requires operation != [] && Last(operation) == SELECT
      modifies this
      ensures rows == old(rows) + BodyRows(location, body)
      ensures operation == old(operation) && table == old(table)
      decreases body
    {
      match body
      case PlainSelect(_, _, _, _, _, _) =>
        VisitPlainSelect(body);
      case SetOperation(l, _, r, _) =>
        VisitSelectBody(l);
        ghost var middle := rows;
        VisitSelectBody(r);
        assert rows == middle + BodyRows(location, r);
      case OtherSelect(_) =>
    }

    /** visit(PlainSelect): a select from a table pushes the table, reports the columns
        of every item against it, and pops it again; any other select reports nothing. */
    method VisitPlainSelect(body: SelectBody)
      requires body.PlainSelect?
      requires operation != [] && Last(operation) == SELECT
      modifies this
      ensures rows == old(rows) + BodyRows(location, body)
      ensures operation == old(operation) && table == old(table)
    {
      var items, from := body.items, body.from;
      if from.FromTable? {
        table := table + [from.tableName];
        for i := 0 to |items|
          invariant rows == old(rows) + ColumnRows(location, SELECT, from.tableName, ListColumns(items[..i]))
          invariant operation == old(operation)
          invariant table == old(table) + [from.tableName]
        {
          assert items[..i + 1][..i] == items[..i];
          ColumnRowsConcat(location, SELECT, from.tableName, ListColumns(items[..i]), ExprColumns(items[i]));
          DetectColumns(Last(operation), Last(table), items[i]);
        }
        assert items[..|items|] == items;
        table := table[..|table| - 1];
      }
    }

    /** visit(Update): every column of every update set, against the updated table. */
    method VisitUpdate(t: string, sets: seq<UpdateSet>, where: Option<Expr>)
      modifies this
      ensures rows == old(rows) + StatementRows(location, Update(t, sets, where))
      ensures operation == old(operation) && table == old(table)
    {
      operation := operation + [UPDATE];
      table := table + [t];
      for i := 0 to |sets|
        invariant rows == old(rows) + ColumnRows(location, UPDATE, t, UpdateColumns(sets[..i]))
        invariant operation == old(operation) + [UPDATE]
        invariant table == old(table) + [t]
      {
        ReportSetColumns(t, sets[i].columns);
        ColumnRowsConcat(location, UPDATE, t, UpdateColumns(sets[..i]), sets[i].columns);
        TakeSnoc(sets, i);
        UpdateColumnsConcat(sets[..i], [sets[i]]);
      }
      assert sets[..|sets|] == sets;
      table := table[..|table| - 1];
      operation := operation[..|operation| - 1];
    }

    /** The inner loop of visit(Update): one row per column of an update set, against
        the table on top of the stack. */
    method ReportSetColumns(t: string, columns: seq<string>)
      requires operation != [] && Last(operation) == UPDATE && table != [] && Last(table) == t
      modifies this
      ensures rows == old(rows) + ColumnRows(location, UPDATE, t, columns)
      ensures operation == old(operation) && table == old(table)
    {
      for j := 0 to |columns|
        invariant rows == old(rows) + ColumnRows(location, UPDATE, t, columns[..j])
        invariant operation == old(operation) && table == old(table)
      {
        TakeSnoc(columns, j);
        ColumnRowsConcat(location, UPDATE, t, columns[..j], [columns[j]]);
        assert ColumnRows(location, UPDATE, t, [columns[j]]) == [RowAt(location, UPDATE, t, Some(columns[j]))];
        AddColumnRow(Last(operation), Last(table), columns[j]);
      }
      assert columns[..|columns|] == columns;
    }

    /** visit(Delete): one column-less row per listed table, then one for the primary. */
    method VisitDelete(tables: seq<string>, primary: Option<string>, where: Option<Expr>)
      modifies this
      ensures rows == old(rows) + StatementRows(location, Delete(tables, primary, where))
      ensures operation == old(operation) && table == old(table)
    {
      operation := operation + [DELETE];
      for i := 0 to |tables|
        invariant rows == old(rows) + TableRows(location, DELETE, tables[..i])
        invariant operation == old(operation) + [DELETE]
        invariant table == old(table)
      {
        assert tables[..i + 1][..i] == tables[..i];
        AddRow(RowAt(location, Last(operation), tables[i], None));
      }
      assert tables[..|tables|] == tables;
      if primary.Some? {
        AddRow(RowAt(location, Last(operation), primary.value, None));
        assert DeleteTargets(tables, primary)[..|tables|] == tables;
        assert Last(DeleteTargets(tables, primary)) == primary.value;
      } else {
        assert DeleteTargets(tables, primary) == tables;
      }
      operation := operation[..|operation| - 1];
    }

    /** statement.accept(visitor): only SELECT, UPDATE and DELETE are visited. */
    method Accept(st: Statement)
      modifies this
      ensures rows == old(rows) + StatementRows(location, st)
      ensures operation == old(operation) && table == old(table)
    {
      match st
      case Select(body) => VisitSelect(body);
      case Update(t, sets, where) => VisitUpdate(t, sets, where);
      case Delete(tables, primary, where) => VisitDelete(tables, primary, where);
      case OtherStatement(_) =>
    }
  }

  /** rows: the usage rows of the text found at `lineNumber` of `sourcePath`. */
  method Rows(parse: Parser, sourcePath: string, commitHash: Option<string>, lineNumber: int,
              maybeSql: Option<string>) returns (rows: seq<Row>)
    ensures rows == RowsOf(parse, Location(SeparatorsToUnix(sourcePath), lineNumber, commitHash), maybeSql)
  {
    if !ProbablySql(maybeSql) {
      return [];
    }
    var statement := parse(maybeSql.value);
    if statement.None? {
      return [];
    }
    var extractor := new UsageExtractor(Location(SeparatorsToUnix(sourcePath), lineNumber, commitHash));
    extractor.Accept(statement.value);
    rows := extractor.rows;
  }
}
