/** The expression deparsers the recipes hand to SqlQuery.mapSql: JSqlParser's
    ExpressionDeParser, whose visit(Function) FindFunction overrides to record
    matching calls, and ChangeTrackingExpressionDeParser, whose visit(Function)
    ChangeFunctionName overrides to rename matching calls between two markers.
    JSqlParser's own deparsers are not part of this model: the text they append for
    each node is the fixed stand-in rendering below (a call is its name and its
    comma-separated arguments in parentheses, a binary operator its operands around
    the operator, a leaf its own text), and only what the overrides add to it is
    modelled exactly. */
module DeParse {
  import opened Wrappers
  import opened Strings
  import opened Sql
  import opened Tables
  import Glob
  import opened ChangeTracking

  /** Which visit(Function) the deparser runs: the plain one, FindFunction's (pattern,
      and the source path and query text its rows carry) or ChangeFunctionName's. */
  datatype Hook =
    | Plain
    | Find(functionName: string, sourcePath: string, sql: string)
    | Rename(oldFunctionName: string, newFunctionName: string, sourcePath: string, sql: string)

  /** The hook's glob matches the call's name. */
  predicate Hit(hook: Hook, name: string) {
    match hook
    case Plain => false
    case Find(pattern, _, _) => Glob.Matches(name, pattern)
    case Rename(pattern, _, _, _) => Glob.Matches(name, pattern)
  }

  // ---------------------------------------------------------------------------
  // What a deparse appends, renames and records
  // ---------------------------------------------------------------------------

  function CallText(name: string, argsText: string): string {
    name + "(" + argsText + ")"
  }

  /** The separator written before the argument at position `i`. */
  function Sep(i: nat): string {
    if i == 0 then "" else ", "
  }

  /** The text the deparser appends for an expression. */
  function Deparsed(hook: Hook, e: Expr): string
    decreases e, 1
  {
    match e
    case Column(name) => name
    case AllColumns(text) => text
    case Literal(text) => text
    case BinOp(l, op, r) => Deparsed(hook, l) + (" " + op + " ") + Deparsed(hook, r)
    case Call(name, args) =>
      if hook.Rename? && Hit(hook, name) then
        ChangeMarker + CallText(hook.newFunctionName, DeparsedList(hook, args)) + ChangeMarker
      else CallText(name, DeparsedList(hook, args))
  }

  function DeparsedList(hook: Hook, es: seq<Expr>): string
    decreases es, 0
  {
    if es == [] then ""
    else DeparsedList(hook, es[..|es| - 1]) + Sep(|es| - 1) + Deparsed(hook, Last(es))
  }

  /** The expression after the deparse: ChangeFunctionName sets the name of every
      matching call, judged by its name before the change, to the new name. */
  function Renamed(hook: Hook, e: Expr): Expr
    decreases e, 1
  {
    match e
    case Call(name, args) =>
      Call(if hook.Rename? && Hit(hook, name) then hook.newFunctionName else name, RenamedList(hook, args))
    case BinOp(l, op, r) => BinOp(Renamed(hook, l), op, Renamed(hook, r))
    case _ => e
  }

  function RenamedList(hook: Hook, es: seq<Expr>): (r: seq<Expr>)
    ensures |r| == |es|
    decreases es, 0
  {
    if es == [] then [] else RenamedList(hook, es[..|es| - 1]) + [Renamed(hook, Last(es))]
  }

  /** The names of the matching calls, in the order the deparser reaches them: a call
      before its arguments. */
  function Matched(hook: Hook, e: Expr): seq<string>
    decreases e, 1
  {
    match e
    case Call(name, args) => (if Hit(hook, name) then [name] else []) + MatchedList(hook, args)
    case BinOp(l, _, r) => Matched(hook, l) + Matched(hook, r)
    case _ => []
  }

  function MatchedList(hook: Hook, es: seq<Expr>): seq<string>
    decreases es, 0
  {
    if es == [] then [] else MatchedList(hook, es[..|es| - 1]) + Matched(hook, Last(es))
  }

  /** Every call name, a call before its arguments. */
  function CallNames(e: Expr): seq<string>
    decreases e, 1
  {
    match e
    case Call(name, args) => [name] + CallNamesList(args)
    case BinOp(l, _, r) => CallNames(l) + CallNames(r)
    case _ => []
  }

  function CallNamesList(es: seq<Expr>): seq<string>
    decreases es, 0
  {
    if es == [] then [] else CallNamesList(es[..|es| - 1]) + CallNames(Last(es))
  }

  /** One query row per matching call (FindFunction and ChangeFunctionName). */
  function QueryRowsFor(hook: Hook, matched: seq<string>): (rows: seq<QueryRow>)
    ensures |rows| == if hook.Plain? then 0 else |matched|
  {
    if hook.Plain? then []
    else seq(|matched|, _ => QueryRow(hook.sourcePath, hook.sql))
  }

  /** One function row per matching call, with the name lower-cased (FindFunction). */
  function FunctionRowsFor(hook: Hook, matched: seq<string>): (rows: seq<FunctionRow>)
    ensures |rows| == if hook.Find? then |matched| else 0
  {
    if hook.Find? then
      seq(|matched|, k requires 0 <= k < |matched| => FunctionRow(hook.sourcePath, LowerAsciiString(matched[k]), hook.sql))
    else []
  }

  // ---------------------------------------------------------------------------
  // Statements: the stand-in text of StatementDeParser and SelectDeParser
  // ---------------------------------------------------------------------------

  /** Names separated by commas. */
  function Listed(names: seq<string>): string {
    if names == [] then "" else Listed(names[..|names| - 1]) + Sep(|names| - 1) + Last(names)
  }

  function FromText(from: FromItem): string {
    match from
    case FromTable(name) => " FROM " + name
    case FromOther(text) => " FROM " + text
    case NoFrom => ""
  }

  /** The expression of an optional clause (WHERE, HAVING), as a list of at most one. */
  function Opt(e: Option<Expr>): (r: seq<Expr>)
    ensures |r| <= 1 && (e.Some? <==> r != [])
  {
    if e.None? then [] else [e.value]
  }

  function OptRenamed(hook: Hook, e: Option<Expr>): Option<Expr> {
    if e.None? then None else Some(Renamed(hook, e.value))
  }

  /** A clause: nothing when it has no expression, otherwise its keyword and its
      expressions, comma-separated. */
  function ClauseText(hook: Hook, keyword: string, es: seq<Expr>): string {
    if es == [] then "" else keyword + DeparsedList(hook, es)
  }

  /** The clauses after a plain select's FROM item, in SelectDeParser's order. */
  function ClausesText(hook: Hook, where: Option<Expr>, groupBy: seq<Expr>, having: Option<Expr>, orderBy: seq<Expr>): string {
    ClauseText(hook, " WHERE ", Opt(where)) + ClauseText(hook, " GROUP BY ", groupBy)
    + ClauseText(hook, " HAVING ", Opt(having)) + ClauseText(hook, " ORDER BY ", orderBy)
  }

  function ClausesMatched(hook: Hook, where: Option<Expr>, groupBy: seq<Expr>, having: Option<Expr>, orderBy: seq<Expr>): seq<string> {
    MatchedList(hook, Opt(where)) + MatchedList(hook, groupBy) + MatchedList(hook, Opt(having)) + MatchedList(hook, orderBy)
  }

  /** What precedes the values of the update set at position `i`: the separator, the
      columns and the equals sign. */
  function SetHead(i: nat, u: UpdateSet): string {
    Sep(i) + Listed(u.columns) + " = "
  }

  function SetsText(hook: Hook, sets: seq<UpdateSet>): string {
    if sets == [] then ""
    else SetsText(hook, sets[..|sets| - 1]) + (SetHead(|sets| - 1, Last(sets)) + DeparsedList(hook, Last(sets).values))
  }

  function SetsMatched(hook: Hook, sets: seq<UpdateSet>): seq<string> {
    if sets == [] then [] else SetsMatched(hook, sets[..|sets| - 1]) + MatchedList(hook, Last(sets).values)
  }

  function SetsRenamed(hook: Hook, sets: seq<UpdateSet>): (r: seq<UpdateSet>)
    ensures |r| == |sets|
  {
    if sets == [] then []
    else SetsRenamed(hook, sets[..|sets| - 1]) + [Last(sets).(values := RenamedList(hook, Last(sets).values))]
  }

  function TablesText(tables: seq<string>): string {
    if tables == [] then "" else " " + Listed(tables)
  }

  function PrimaryText(primary: Option<string>): string {
    if primary.None? then "" else " FROM " + primary.value
  }

  /** The text a select body deparses to: a plain select's items, FROM item and
      clauses; a set operation's two sides around its operator, then its ORDER BY. */
  function BodyDeparsed(hook: Hook, b: SelectBody): string {
    match b
    case PlainSelect(items, from, where, groupBy, having, orderBy) =>
      "SELECT " + DeparsedList(hook, items) + FromText(from) + ClausesText(hook, where, groupBy, having, orderBy)
    case SetOperation(l, op, r, orderBy) =>
      BodyDeparsed(hook, l) + (" " + op + " ") + BodyDeparsed(hook, r) + ClauseText(hook, " ORDER BY ", orderBy)
    case OtherSelect(text) => text
  }

  /** The matching calls of a select body, in deparse order. */
  function BodyMatched(hook: Hook, b: SelectBody): seq<string> {
    match b
    case PlainSelect(items, _, where, groupBy, having, orderBy) =>
      MatchedList(hook, items) + ClausesMatched(hook, where, groupBy, having, orderBy)
    case SetOperation(l, _, r, orderBy) => BodyMatched(hook, l) + BodyMatched(hook, r) + MatchedList(hook, orderBy)
    case OtherSelect(_) => []
  }

  /** The select body after the deparse, its matching calls renamed in place. */
  function BodyRenamed(hook: Hook, b: SelectBody): SelectBody {
    match b
    case PlainSelect(items, from, where, groupBy, having, orderBy) =>
      PlainSelect(RenamedList(hook, items), from, OptRenamed(hook, where), RenamedList(hook, groupBy),
                  OptRenamed(hook, having), RenamedList(hook, orderBy))
    case SetOperation(l, op, r, orderBy) =>
      SetOperation(BodyRenamed(hook, l), op, BodyRenamed(hook, r), RenamedList(hook, orderBy))
    case OtherSelect(_) => b
  }

  /** The text a statement deparses to. */
  function StmtDeparsed(hook: Hook, st: Statement): string {
    match st
    case Select(b) => BodyDeparsed(hook, b)
    case Update(table, sets, where) =>
      "UPDATE " + table + " SET " + SetsText(hook, sets) + ClauseText(hook, " WHERE ", Opt(where))
    case Delete(tables, primary, where) =>
      "DELETE" + TablesText(tables) + PrimaryText(primary) + ClauseText(hook, " WHERE ", Opt(where))
    case OtherStatement(text) => text
  }

  /** The matching calls of a statement, in deparse order. */
  function StmtMatched(hook: Hook, st: Statement): seq<string> {
    match st
    case Select(b) => BodyMatched(hook, b)
    case Update(_, sets, where) => SetsMatched(hook, sets) + MatchedList(hook, Opt(where))
    case Delete(_, _, where) => MatchedList(hook, Opt(where))
    case OtherStatement(_) => []
  }

  /** The statement after the deparse, its matching calls renamed in place. */
  function StmtRenamed(hook: Hook, st: Statement): Statement {
    match st
    case Select(b) => Select(BodyRenamed(hook, b))
    case Update(table, sets, where) => Update(table, SetsRenamed(hook, sets), OptRenamed(hook, where))
    case Delete(tables, primary, where) => Delete(tables, primary, OptRenamed(hook, where))
    case OtherStatement(_) => st
  }

  /** Renaming an optional clause's expression is renaming its one-element list. */
  lemma OptRenamedList(hook: Hook, e: Option<Expr>)
    ensures RenamedList(hook, Opt(e)) == Opt(OptRenamed(hook, e))
  {
    if e.Some? {
      assert Opt(e)[..0] == [];
    }
  }

  // ---------------------------------------------------------------------------
  // The deparser's state
  // ---------------------------------------------------------------------------

  /** Everything a deparse changes besides the tree: the buffer, the two data tables
      and FindFunction's found flag. */
  datatype Sink = Sink(buffer: string, queryRows: seq<QueryRow>, functionRows: seq<FunctionRow>, found: bool)

  /** The state after appending `text` and recording the matching calls `matched`. */
  function After(hook: Hook, s: Sink, text: string, matched: seq<string>): Sink {
    Sink(s.buffer + text,
         s.queryRows + QueryRowsFor(hook, matched),
         s.functionRows + FunctionRowsFor(hook, matched),
         s.found || (hook.Find? && |matched| > 0))
  }

  lemma AfterConcat(hook: Hook, s: Sink, t1: string, m1: seq<string>, t2: string, m2: seq<string>)
    ensures After(hook, After(hook, s, t1, m1), t2, m2) == After(hook, s, t1 + t2, m1 + m2)
  {
    var q1, q2 := QueryRowsFor(hook, m1), QueryRowsFor(hook, m2);
    var f1, f2 := FunctionRowsFor(hook, m1), FunctionRowsFor(hook, m2);
    assert s.queryRows + q1 + q2 == s.queryRows + QueryRowsFor(hook, m1 + m2) by {
      QueryRowsConcat(hook, m1, m2);
    }
    assert s.functionRows + f1 + f2 == s.functionRows + FunctionRowsFor(hook, m1 + m2) by {
      FunctionRowsConcat(hook, m1, m2);
    }
    assert s.buffer + t1 + t2 == s.buffer + (t1 + t2);
  }

  lemma QueryRowsConcat(hook: Hook, m1: seq<string>, m2: seq<string>)
    ensures QueryRowsFor(hook, m1 + m2) == QueryRowsFor(hook, m1) + QueryRowsFor(hook, m2)
  {
  }

  lemma FunctionRowsConcat(hook: Hook, m1: seq<string>, m2: seq<string>)
    ensures FunctionRowsFor(hook, m1 + m2) == FunctionRowsFor(hook, m1) + FunctionRowsFor(hook, m2)
  {
    if hook.Find? {
      var rows := FunctionRowsFor(hook, m1 + m2);
      forall k | 0 <= k < |rows|
        ensures rows[k] == (FunctionRowsFor(hook, m1) + FunctionRowsFor(hook, m2))[k]
      {
        if k >= |m1| {
          assert (m1 + m2)[k] == m2[k - |m1|];
        }
      }
    }
  }

  /** The list functions after one more element. */
  lemma ListStep(hook: Hook, es: seq<Expr>, i: nat)
    requires i < |es|
    ensures DeparsedList(hook, es[..i + 1]) == DeparsedList(hook, es[..i]) + (Sep(i) + Deparsed(hook, es[i]))
    ensures MatchedList(hook, es[..i + 1]) == MatchedList(hook, es[..i]) + Matched(hook, es[i])
    ensures RenamedList(hook, es[..i + 1]) == RenamedList(hook, es[..i]) + [Renamed(hook, es[i])]
  {
    assert es[..i + 1][..i] == es[..i];
  }

  /** The four steps of a set operation's deparse add up to the deparse of the whole. */
  lemma SetOperationSteps(hook: Hook, s0: Sink, l: SelectBody, op: string, r: SelectBody, orderBy: seq<Expr>)
    ensures var b := SetOperation(l, op, r, orderBy);
            var s1 := After(hook, s0, BodyDeparsed(hook, l), BodyMatched(hook, l));
            var s2 := After(hook, s1, " " + op + " ", []);
            var s3 := After(hook, s2, BodyDeparsed(hook, r), BodyMatched(hook, r));
            After(hook, s3, ClauseText(hook, " ORDER BY ", orderBy), MatchedList(hook, orderBy))
            == After(hook, s0, BodyDeparsed(hook, b), BodyMatched(hook, b))
  {
    var tl, ml := BodyDeparsed(hook, l), BodyMatched(hook, l);
    var tr, mr := BodyDeparsed(hook, r), BodyMatched(hook, r);
    var to, mo := ClauseText(hook, " ORDER BY ", orderBy), MatchedList(hook, orderBy);
    var mid := tl + (" " + op + " ");
    AfterText(hook, s0, tl, ml, " " + op + " ");
    AfterConcat(hook, s0, mid, ml, tr, mr);
    AfterConcat(hook, s0, mid + tr, ml + mr, to, mo);
    var b := SetOperation(l, op, r, orderBy);
    assert BodyDeparsed(hook, b) == mid + tr + to && BodyMatched(hook, b) == ml + mr + mo;
  }

  lemma AfterText(hook: Hook, s: Sink, t1: string, m: seq<string>, t2: string)
    ensures After(hook, After(hook, s, t1, m), t2, []) == After(hook, s, t1 + t2, m)
  {
    AfterConcat(hook, s, t1, m, t2, []);
    assert m + [] == m;
  }

  lemma TextAfter(hook: Hook, s: Sink, t1: string, t2: string, m: seq<string>)
    ensures After(hook, After(hook, s, t1, []), t2, m) == After(hook, s, t1 + t2, m)
  {
    AfterConcat(hook, s, t1, [], t2, m);
    assert [] + m == m;
  }

  lemma SetsStep(hook: Hook, sets: seq<UpdateSet>, i: nat)
    requires i < |sets|
    ensures SetsText(hook, sets[..i + 1]) == SetsText(hook, sets[..i]) + (SetHead(i, sets[i]) + DeparsedList(hook, sets[i].values))
    ensures SetsMatched(hook, sets[..i + 1]) == SetsMatched(hook, sets[..i]) + MatchedList(hook, sets[i].values)
    ensures SetsRenamed(hook, sets[..i + 1]) == SetsRenamed(hook, sets[..i]) + [sets[i].(values := RenamedList(hook, sets[i].values))]
  {
    assert sets[..i + 1][..i] == sets[..i];
  }

  lemma AfterNothing(hook: Hook, s: Sink)
    ensures After(hook, s, "", []) == s
  {
  }

  /** An ExpressionDeParser with one of the three visit(Function) behaviours. */
  class DeParser {
    const hook: Hook
    var buffer: string
    var queryRows: seq<QueryRow>
    var functionRows: seq<FunctionRow>
    var found: bool

    function State(): Sink
      reads this
    {
      Sink(buffer, queryRows, functionRows, found)
    }

    constructor(hook: Hook)
      ensures this.hook == hook && State() == Sink("", [], [], false)
    {
      this.hook := hook;
      buffer := "";
      queryRows := [];
      functionRows := [];
      found := false;
    }

    /** setBuffer with a fresh StringBuilder. */
    method ResetBuffer()
      modifies this
      ensures State() == old(State()).(buffer := "")
    {
      buffer := "";
    }

    method Append(text: string)
      modifies this
      ensures State() == After(hook, old(State()), text, [])
    {
      buffer := buffer + text;
    }

    /** ExpressionDeParser.visit for every kind of expression. */
    method VisitExpr(e: Expr) returns (renamed: Expr)
      modifies this
      ensures State() == After(hook, old(State()), Deparsed(hook, e), Matched(hook, e))
      ensures renamed == Renamed(hook, e)
      decreases e, 4
    {
      match e
      case Column(name) =>
        Append(name);
        renamed := e;
      case AllColumns(text) =>
        Append(text);
        renamed := e;
      case Literal(text) =>
        Append(text);
        renamed := e;
      case BinOp(l, op, r) =>
        renamed := VisitBinOp(l, op, r);
      case Call(name, args) =>
        renamed := VisitFunction(name, args);
    }

    /** A binary operator: its left operand, the operator, its right operand. */
    method VisitBinOp(l: Expr, op: string, r: Expr) returns (renamed: Expr)
      modifies this
      ensures State() == After(hook, old(State()), Deparsed(hook, BinOp(l, op, r)), Matched(hook, BinOp(l, op, r)))
      ensures renamed == Renamed(hook, BinOp(l, op, r))
      decreases BinOp(l, op, r), 3
    {
      ghost var s0 := State();
      var l' := VisitExpr(l);
      Append(" " + op + " ");
      ghost var s2 := State();
      AfterConcat(hook, s0, Deparsed(hook, l), Matched(hook, l), " " + op + " ", []);
      assert Matched(hook, l) + [] == Matched(hook, l);
      ghost var mid := Deparsed(hook, l) + (" " + op + " ");
      assert s2 == After(hook, s0, mid, Matched(hook, l));
      var r' := VisitExpr(r);
      AfterConcat(hook, s0, mid, Matched(hook, l), Deparsed(hook, r), Matched(hook, r));
      assert Deparsed(hook, BinOp(l, op, r)) == mid + Deparsed(hook, r);
      renamed := BinOp(l', op, r');
    }

    /** The overridden visit(Function): a matching call is recorded (FindFunction also
        raises the found flag) and, under ChangeFunctionName, renamed and deparsed
        inside trackChange; every call is then deparsed with its arguments. */
    method VisitFunction(name: string, args: seq<Expr>) returns (renamed: Expr)
      modifies this
      ensures State() == After(hook, old(State()), Deparsed(hook, Call(name, args)), Matched(hook, Call(name, args)))
      ensures renamed == Renamed(hook, Call(name, args))
      decreases args, 3
    {
      ghost var s0 := State();
      ghost var text := Deparsed(hook, Call(name, args));
      var newArgs: seq<Expr>;
      if Hit(hook, name) {
        RecordHit(name);
        if hook.Rename? {
          newArgs := TrackChange(args);
          renamed := Call(hook.newFunctionName, newArgs);
        } else {
          newArgs := DeparseCall(name, args);
          renamed := Call(name, newArgs);
        }
        AfterConcat(hook, s0, "", [name], text, MatchedList(hook, args));
        assert "" + text == text;
        assert Matched(hook, Call(name, args)) == [name] + MatchedList(hook, args);
      } else {
        newArgs := DeparseCall(name, args);
        renamed := Call(name, newArgs);
        assert Matched(hook, Call(name, args)) == MatchedList(hook, args);
      }
    }

    /** The rows a matching call records: a query row, and under FindFunction a function
        row with the lower-cased name and the found flag. */
    method RecordHit(name: string)
      requires Hit(hook, name)
      modifies this
      ensures State() == After(hook, old(State()), "", [name])
    {
      queryRows := queryRows + [QueryRow(hook.sourcePath, hook.sql)];
      if hook.Find? {
        functionRows := functionRows + [FunctionRow(hook.sourcePath, LowerAsciiString(name), hook.sql)];
        found := true;
      }
    }

    /** trackChange around ChangeFunctionName's action: a marker, the call deparsed
        under its new name, a marker. */
    method TrackChange(args: seq<Expr>) returns (newArgs: seq<Expr>)
      requires hook.Rename?
      modifies this
      ensures State() == After(hook, old(State()),
                               ChangeMarker + CallText(hook.newFunctionName, DeparsedList(hook, args)) + ChangeMarker,
                               MatchedList(hook, args))
      ensures newArgs == RenamedList(hook, args)
      decreases args, 2
    {
      ghost var s0 := State();
      Append(ChangeMarker);
      newArgs := DeparseCall(hook.newFunctionName, args);
      Append(ChangeMarker);
      var text := CallText(hook.newFunctionName, DeparsedList(hook, args));
      AfterConcat(hook, s0, ChangeMarker, [], text, MatchedList(hook, args));
      AfterConcat(hook, s0, ChangeMarker + text, MatchedList(hook, args), ChangeMarker, []);
      assert MatchedList(hook, args) + [] == MatchedList(hook, args);
    }

    /** The default visit(Function): the name, then the arguments in parentheses. */
    method DeparseCall(name: string, args: seq<Expr>) returns (newArgs: seq<Expr>)
      modifies this
      ensures State() == After(hook, old(State()), CallText(name, DeparsedList(hook, args)), MatchedList(hook, args))
      ensures newArgs == RenamedList(hook, args)
      decreases args, 1
    {
      ghost var s0 := State();
      ghost var argsText, matched := DeparsedList(hook, args), MatchedList(hook, args);
      Append(name + "(");
      newArgs := VisitList(args);
      TextAfter(hook, s0, name + "(", argsText, matched);
      Append(")");
      AfterText(hook, s0, name + "(" + argsText, matched, ")");
    }

    /** One element of a list: its separator, then the element. */
    method VisitItem(e: Expr, i: nat) returns (renamed: Expr)
      modifies this
      ensures State() == After(hook, old(State()), Sep(i) + Deparsed(hook, e), Matched(hook, e))
      ensures renamed == Renamed(hook, e)
      decreases e, 5
    {
      ghost var s0 := State();
      Append(Sep(i));
      renamed := VisitExpr(e);
      AfterConcat(hook, s0, Sep(i), [], Deparsed(hook, e), Matched(hook, e));
      assert [] + Matched(hook, e) == Matched(hook, e);
    }

    /** An expression list, comma-separated, one expression after the other. */
    method VisitList(es: seq<Expr>) returns (renamed: seq<Expr>)
      modifies this
      ensures State() == After(hook, old(State()), DeparsedList(hook, es), MatchedList(hook, es))
      ensures renamed == RenamedList(hook, es)
      decreases es, 0
    {
      ghost var s0 := State();
      renamed := [];
      for i := 0 to |es|
        invariant State() == After(hook, s0, DeparsedList(hook, es[..i]), MatchedList(hook, es[..i]))
        invariant renamed == RenamedList(hook, es[..i])
      {
        var r := VisitItem(es[i], i);
        renamed := renamed + [r];
        ListStep(hook, es, i);
        AfterConcat(hook, s0, DeparsedList(hook, es[..i]), MatchedList(hook, es[..i]),
                    Sep(i) + Deparsed(hook, es[i]), Matched(hook, es[i]));
      }
      assert es[..|es|] == es;
    }

    /** A clause, when it has an expression: its keyword, then its expressions. */
    method VisitClause(keyword: string, es: seq<Expr>) returns (renamed: seq<Expr>)
      modifies this
      ensures State() == After(hook, old(State()), ClauseText(hook, keyword, es), MatchedList(hook, es))
      ensures renamed == RenamedList(hook, es)
    {
      if es == [] {
        renamed := [];
        AfterNothing(hook, State());
      } else {
        ghost var s0 := State();
        Append(keyword);
        renamed := VisitList(es);
        TextAfter(hook, s0, keyword, DeparsedList(hook, es), MatchedList(hook, es));
      }
    }

    /** An optional clause (WHERE, HAVING), when there is one. */
    method VisitOptional(keyword: string, e: Option<Expr>) returns (renamed: Option<Expr>)
      modifies this
      ensures State() == After(hook, old(State()), ClauseText(hook, keyword, Opt(e)), MatchedList(hook, Opt(e)))
      ensures renamed == OptRenamed(hook, e)
    {
      var es := VisitClause(keyword, Opt(e));
      OptRenamedList(hook, e);
      renamed := if es == [] then None else Some(es[0]);
    }

    /** One update set: its columns, then its values. */
    method VisitSet(u: UpdateSet, i: nat) returns (renamed: UpdateSet)
      modifies this
      ensures State() == After(hook, old(State()), SetHead(i, u) + DeparsedList(hook, u.values), MatchedList(hook, u.values))
      ensures renamed == u.(values := RenamedList(hook, u.values))
    {
      ghost var s0 := State();
      Append(SetHead(i, u));
      var values := VisitList(u.values);
      renamed := u.(values := values);
      TextAfter(hook, s0, SetHead(i, u), DeparsedList(hook, u.values), MatchedList(hook, u.values));
    }

    /** The update sets, comma-separated. */
    method VisitSets(sets: seq<UpdateSet>) returns (renamed: seq<UpdateSet>)
      modifies this
      ensures State() == After(hook, old(State()), SetsText(hook, sets), SetsMatched(hook, sets))
      ensures renamed == SetsRenamed(hook, sets)
    {
      ghost var s0 := State();
      renamed := [];
      for i := 0 to |sets|
        invariant State() == After(hook, s0, SetsText(hook, sets[..i]), SetsMatched(hook, sets[..i]))
        invariant renamed == SetsRenamed(hook, sets[..i])
      {
        var u := VisitSet(sets[i], i);
        renamed := renamed + [u];
        SetsStep(hook, sets, i);
        AfterConcat(hook, s0, SetsText(hook, sets[..i]), SetsMatched(hook, sets[..i]),
                    SetHead(i, sets[i]) + DeparsedList(hook, sets[i].values), MatchedList(hook, sets[i].values));
      }
      assert sets[..|sets|] == sets;
    }

    /** The clauses after a plain select's FROM item: WHERE, GROUP BY, HAVING, ORDER BY. */
    method DeparseClauses(where: Option<Expr>, groupBy: seq<Expr>, having: Option<Expr>, orderBy: seq<Expr>)
      returns (where': Option<Expr>, groupBy': seq<Expr>, having': Option<Expr>, orderBy': seq<Expr>)
      modifies this
      ensures State() == After(hook, old(State()), ClausesText(hook, where, groupBy, having, orderBy),
                               ClausesMatched(hook, where, groupBy, having, orderBy))
      ensures where' == OptRenamed(hook, where) && groupBy' == RenamedList(hook, groupBy)
      ensures having' == OptRenamed(hook, having) && orderBy' == RenamedList(hook, orderBy)
    {
      ghost var s0 := State();
      ghost var tw, mw := ClauseText(hook, " WHERE ", Opt(where)), MatchedList(hook, Opt(where));
      ghost var tg, mg := ClauseText(hook, " GROUP BY ", groupBy), MatchedList(hook, groupBy);
      ghost var th, mh := ClauseText(hook, " HAVING ", Opt(having)), MatchedList(hook, Opt(having));
      where' := VisitOptional(" WHERE ", where);
      groupBy' := VisitClause(" GROUP BY ", groupBy);
      AfterConcat(hook, s0, tw, mw, tg, mg);
      having' := VisitOptional(" HAVING ", having);
      AfterConcat(hook, s0, tw + tg, mw + mg, th, mh);
      orderBy' := VisitClause(" ORDER BY ", orderBy);
      AfterConcat(hook, s0, tw + tg + th, mw + mg + mh, ClauseText(hook, " ORDER BY ", orderBy), MatchedList(hook, orderBy));
    }

    method DeparsePlainSelect(items: seq<Expr>, from: FromItem, where: Option<Expr>, groupBy: seq<Expr>,
                              having: Option<Expr>, orderBy: seq<Expr>) returns (renamed: SelectBody)
      modifies this
      ensures var b := PlainSelect(items, from, where, groupBy, having, orderBy);
              State() == After(hook, old(State()), BodyDeparsed(hook, b), BodyMatched(hook, b))
              && renamed == BodyRenamed(hook, b)
    {
      ghost var s0 := State();
      Append("SELECT ");
      var items' := VisitList(items);
      TextAfter(hook, s0, "SELECT ", DeparsedList(hook, items), MatchedList(hook, items));
      Append(FromText(from));
      AfterText(hook, s0, "SELECT " + DeparsedList(hook, items), MatchedList(hook, items), FromText(from));
      var w, g, h, o := DeparseClauses(where, groupBy, having, orderBy);
      AfterConcat(hook, s0, "SELECT " + DeparsedList(hook, items) + FromText(from), MatchedList(hook, items),
                  ClausesText(hook, where, groupBy, having, orderBy), ClausesMatched(hook, where, groupBy, having, orderBy));
      renamed := PlainSelect(items', from, w, g, h, o);
    }

    /** A set operation: its left select, the operator, its right select, then the
        ORDER BY of the whole. */
    method DeparseSetOperation(l: SelectBody, op: string, r: SelectBody, orderBy: seq<Expr>) returns (renamed: SelectBody)
      modifies this
      ensures var b := SetOperation(l, op, r, orderBy);
              State() == After(hook, old(State()), BodyDeparsed(hook, b), BodyMatched(hook, b))
              && renamed == BodyRenamed(hook, b)
      decreases SetOperation(l, op, r, orderBy), 0
    {
      ghost var s0 := State();
      var l' := DeparseSelectBody(l);
      Append(" " + op + " ");
      var r' := DeparseSelectBody(r);
      var o' := VisitClause(" ORDER BY ", orderBy);
      SetOperationSteps(hook, s0, l, op, r, orderBy);
      renamed := SetOperation(l', op, r', o');
    }

    /** The select deparser: every select of a set operation is visited. */
    method DeparseSelectBody(b: SelectBody) returns (renamed: SelectBody)
      modifies this
      ensures State() == After(hook, old(State()), BodyDeparsed(hook, b), BodyMatched(hook, b))
      ensures renamed == BodyRenamed(hook, b)
      decreases b, 1
    {
      match b
      case PlainSelect(items, from, where, groupBy, having, orderBy) =>
        renamed := DeparsePlainSelect(items, from, where, groupBy, having, orderBy);
      case SetOperation(l, op, r, orderBy) =>
        renamed := DeparseSetOperation(l, op, r, orderBy);
      case OtherSelect(text) =>
        Append(text);
        renamed := b;
    }

    method DeparseUpdate(table: string, sets: seq<UpdateSet>, where: Option<Expr>) returns (renamed: Statement)
      modifies this
      ensures State() == After(hook, old(State()), StmtDeparsed(hook, Update(table, sets, where)),
                               StmtMatched(hook, Update(table, sets, where)))
      ensures renamed == StmtRenamed(hook, Update(table, sets, where))
    {
      ghost var s0 := State();
      Append("UPDATE " + table + " SET ");
      var sets' := VisitSets(sets);
      TextAfter(hook, s0, "UPDATE " + table + " SET ", SetsText(hook, sets), SetsMatched(hook, sets));
      var where' := VisitOptional(" WHERE ", where);
      AfterConcat(hook, s0, "UPDATE " + table + " SET " + SetsText(hook, sets), SetsMatched(hook, sets),
                  ClauseText(hook, " WHERE ", Opt(where)), MatchedList(hook, Opt(where)));
      renamed := Update(table, sets', where');
    }

    method DeparseDelete(tables: seq<string>, primary: Option<string>, where: Option<Expr>) returns (renamed: Statement)
      modifies this
      ensures State() == After(hook, old(State()), StmtDeparsed(hook, Delete(tables, primary, where)),
                               StmtMatched(hook, Delete(tables, primary, where)))
      ensures renamed == StmtRenamed(hook, Delete(tables, primary, where))
    {
      ghost var s0 := State();
      Append("DELETE" + TablesText(tables) + PrimaryText(primary));
      var where' := VisitOptional(" WHERE ", where);
      TextAfter(hook, s0, "DELETE" + TablesText(tables) + PrimaryText(primary),
                ClauseText(hook, " WHERE ", Opt(where)), MatchedList(hook, Opt(where)));
      renamed := Delete(tables, primary, where');
    }

    /** The statement deparser: the statement's text, its expressions deparsed by this
        expression deparser. */
    method DeparseStatement(st: Statement) returns (renamed: Statement)
      modifies this
      ensures State() == After(hook, old(State()), StmtDeparsed(hook, st), StmtMatched(hook, st))
      ensures renamed == StmtRenamed(hook, st)
    {
      match st
      case Select(b) =>
        var b' := DeparseSelectBody(b);
        renamed := Select(b');
      case Update(table, sets, where) =>
        renamed := DeparseUpdate(table, sets, where);
      case Delete(tables, primary, where) =>
        renamed := DeparseDelete(tables, primary, where);
      case OtherStatement(text) =>
        Append(text);
        renamed := st;
    }
  }

  // ---------------------------------------------------------------------------
  // Properties of the change-tracking deparse
  // ---------------------------------------------------------------------------

  /** Under ChangeFunctionName the deparsed text is the plain deparse of the renamed
      expression with two markers written in per matching call, nested calls included. */
  lemma {:induction false} TrackedExpr(hook: Hook, e: Expr)
    requires hook.Rename?
    ensures WithMarkers(Deparsed(hook, e), Deparsed(Plain, Renamed(hook, e)), 2 * |Matched(hook, e)|)
    decreases e, 1
  {
    match e
    case Column(name) => NoMarkersWritten(name);
    case AllColumns(text) => NoMarkersWritten(text);
    case Literal(text) => NoMarkersWritten(text);
    case BinOp(l, op, r) =>
      TrackedExpr(hook, l);
      TrackedExpr(hook, r);
      TrackedBinOp(hook, l, op, r);
    case Call(name, args) =>
      TrackedList(hook, args);
      TrackedCall(hook, name, args);
  }

  /** The step of TrackedExpr for a binary operator, given its operands. */
  lemma TrackedBinOp(hook: Hook, l: Expr, op: string, r: Expr)
    requires hook.Rename?
    requires WithMarkers(Deparsed(hook, l), Deparsed(Plain, Renamed(hook, l)), 2 * |Matched(hook, l)|)
    requires WithMarkers(Deparsed(hook, r), Deparsed(Plain, Renamed(hook, r)), 2 * |Matched(hook, r)|)
    ensures var e := BinOp(l, op, r);
            WithMarkers(Deparsed(hook, e), Deparsed(Plain, Renamed(hook, e)), 2 * |Matched(hook, e)|)
  {
    var mid := " " + op + " ";
    var tl, tr := Deparsed(hook, l), Deparsed(hook, r);
    var pl, pr := Deparsed(Plain, Renamed(hook, l)), Deparsed(Plain, Renamed(hook, r));
    var e := BinOp(l, op, r);
    NoMarkersWritten(mid);
    assert Renamed(hook, e) == BinOp(Renamed(hook, l), op, Renamed(hook, r));
    Markers3(tl, pl, 2 * |Matched(hook, l)|, mid, mid, 0, tr, pr, 2 * |Matched(hook, r)|,
             Deparsed(hook, e), Deparsed(Plain, Renamed(hook, e)), 2 * |Matched(hook, e)|);
  }

  /** The step of TrackedExpr for a call, given its arguments. */
  lemma TrackedCall(hook: Hook, name: string, args: seq<Expr>)
    requires hook.Rename?
    requires WithMarkers(DeparsedList(hook, args), DeparsedList(Plain, RenamedList(hook, args)), 2 * |MatchedList(hook, args)|)
    ensures var e := Call(name, args);
            WithMarkers(Deparsed(hook, e), Deparsed(Plain, Renamed(hook, e)), 2 * |Matched(hook, e)|)
  {
    var ta, pa := DeparsedList(hook, args), DeparsedList(Plain, RenamedList(hook, args));
    var newName := if Hit(hook, name) then hook.newFunctionName else name;
    var e := Call(name, args);
    CallMarkers(newName, ta, pa, 2 * |MatchedList(hook, args)|);
    assert Deparsed(Plain, Renamed(hook, e)) == CallText(newName, pa);
    if Hit(hook, name) {
      MarkerWritten();
      Markers3(ChangeMarker, "", 1, CallText(newName, ta), CallText(newName, pa), 2 * |MatchedList(hook, args)|,
               ChangeMarker, "", 1, Deparsed(hook, e), Deparsed(Plain, Renamed(hook, e)), 2 * |Matched(hook, e)|);
    }
  }

  /** A call's text around arguments with markers written in. */
  lemma CallMarkers(name: string, argsText: string, plainArgs: string, n: nat)
    requires WithMarkers(argsText, plainArgs, n)
    ensures WithMarkers(CallText(name, argsText), CallText(name, plainArgs), n)
  {
    var open := name + "(";
    NoMarkersWritten(open);
    NoMarkersWritten(")");
    Markers3(open, open, 0, argsText, plainArgs, n, ")", ")", 0, CallText(name, argsText), CallText(name, plainArgs), n);
  }

  lemma {:induction false} TrackedList(hook: Hook, es: seq<Expr>)
    requires hook.Rename?
    ensures WithMarkers(DeparsedList(hook, es), DeparsedList(Plain, RenamedList(hook, es)), 2 * |MatchedList(hook, es)|)
    decreases es, 0
  {
    if es != [] {
      var init, x := es[..|es| - 1], Last(es);
      var sep := Sep(|es| - 1);
      TrackedList(hook, init);
      TrackedExpr(hook, x);
      NoMarkersWritten(sep);
      var pi := DeparsedList(Plain, RenamedList(hook, init));
      var renamed := RenamedList(hook, es);
      assert renamed[..|es| - 1] == RenamedList(hook, init);
      Markers3(DeparsedList(hook, init), pi, 2 * |MatchedList(hook, init)|, sep, sep, 0,
               Deparsed(hook, x), Deparsed(Plain, Renamed(hook, x)), 2 * |Matched(hook, x)|,
               DeparsedList(hook, es), DeparsedList(Plain, renamed), 2 * |MatchedList(hook, es)|);
    }
  }

  /** A clause, when it has an expression: its keyword and its expressions. */
  lemma TrackedClause(hook: Hook, keyword: string, es: seq<Expr>)
    requires hook.Rename?
    ensures WithMarkers(ClauseText(hook, keyword, es), ClauseText(Plain, keyword, RenamedList(hook, es)), 2 * |MatchedList(hook, es)|)
  {
    if es == [] {
      NoMarkersWritten("");
    } else {
      TrackedList(hook, es);
      NoMarkersWritten(keyword);
      Markers2(keyword, keyword, 0, DeparsedList(hook, es), DeparsedList(Plain, RenamedList(hook, es)), 2 * |MatchedList(hook, es)|,
               ClauseText(hook, keyword, es), ClauseText(Plain, keyword, RenamedList(hook, es)), 2 * |MatchedList(hook, es)|);
    }
  }

  lemma TrackedClauses(hook: Hook, where: Option<Expr>, groupBy: seq<Expr>, having: Option<Expr>, orderBy: seq<Expr>)
    requires hook.Rename?
    ensures WithMarkers(ClausesText(hook, where, groupBy, having, orderBy),
                        ClausesText(Plain, OptRenamed(hook, where), RenamedList(hook, groupBy), OptRenamed(hook, having), RenamedList(hook, orderBy)),
                        2 * |ClausesMatched(hook, where, groupBy, having, orderBy)|)
  {
    TrackedClause(hook, " WHERE ", Opt(where));
    TrackedClause(hook, " GROUP BY ", groupBy);
    TrackedClause(hook, " HAVING ", Opt(having));
    TrackedClause(hook, " ORDER BY ", orderBy);
    OptRenamedList(hook, where);
    OptRenamedList(hook, having);
    Markers4(ClauseText(hook, " WHERE ", Opt(where)), ClauseText(Plain, " WHERE ", RenamedList(hook, Opt(where))),
             2 * |MatchedList(hook, Opt(where))|,
             ClauseText(hook, " GROUP BY ", groupBy), ClauseText(Plain, " GROUP BY ", RenamedList(hook, groupBy)),
             2 * |MatchedList(hook, groupBy)|,
             ClauseText(hook, " HAVING ", Opt(having)), ClauseText(Plain, " HAVING ", RenamedList(hook, Opt(having))),
             2 * |MatchedList(hook, Opt(having))|,
             ClauseText(hook, " ORDER BY ", orderBy), ClauseText(Plain, " ORDER BY ", RenamedList(hook, orderBy)),
             2 * |MatchedList(hook, orderBy)|,
             ClausesText(hook, where, groupBy, having, orderBy),
             ClausesText(Plain, OptRenamed(hook, where), RenamedList(hook, groupBy), OptRenamed(hook, having), RenamedList(hook, orderBy)),
             2 * |ClausesMatched(hook, where, groupBy, having, orderBy)|);
  }

  lemma TrackedPlainSelect(hook: Hook, items: seq<Expr>, from: FromItem, where: Option<Expr>,
                           groupBy: seq<Expr>, having: Option<Expr>, orderBy: seq<Expr>)
    requires hook.Rename?
    ensures var b := PlainSelect(items, from, where, groupBy, having, orderBy);
            WithMarkers(BodyDeparsed(hook, b), BodyDeparsed(Plain, BodyRenamed(hook, b)), 2 * |BodyMatched(hook, b)|)
  {
    var b := PlainSelect(items, from, where, groupBy, having, orderBy);
    var head, ft := "SELECT ", FromText(from);
    var ti, tc := DeparsedList(hook, items), ClausesText(hook, where, groupBy, having, orderBy);
    var pi := DeparsedList(Plain, RenamedList(hook, items));
    var pc := ClausesText(Plain, OptRenamed(hook, where), RenamedList(hook, groupBy), OptRenamed(hook, having), RenamedList(hook, orderBy));
    var mi, mc := MatchedList(hook, items), ClausesMatched(hook, where, groupBy, having, orderBy);
    TrackedList(hook, items);
    TrackedClauses(hook, where, groupBy, having, orderBy);
    NoMarkersWritten(head);
    NoMarkersWritten(ft);
    assert BodyMatched(hook, b) == mi + mc;
    Markers4(head, head, 0, ti, pi, 2 * |mi|, ft, ft, 0, tc, pc, 2 * |mc|,
             BodyDeparsed(hook, b), BodyDeparsed(Plain, BodyRenamed(hook, b)), 2 * |BodyMatched(hook, b)|);
  }

  /** Two pieces with markers written in, in a row, make up `t`. */
  lemma Markers2(a: string, pa: string, na: nat, b: string, pb: string, nb: nat, t: string, plain: string, n: nat)
    requires WithMarkers(a, pa, na) && WithMarkers(b, pb, nb)
    requires t == a + b && plain == pa + pb && n == na + nb
    ensures WithMarkers(t, plain, n)
  {
    MarkersConcat(a, pa, na, b, pb, nb);
  }

  /** Three pieces with markers written in, in a row, make up `t`. */
  lemma Markers3(a: string, pa: string, na: nat, b: string, pb: string, nb: nat,
                 c: string, pc: string, nc: nat, t: string, plain: string, n: nat)
    requires WithMarkers(a, pa, na) && WithMarkers(b, pb, nb) && WithMarkers(c, pc, nc)
    requires t == a + b + c && plain == pa + pb + pc && n == na + nb + nc
    ensures WithMarkers(t, plain, n)
  {
    MarkersConcat(a, pa, na, b, pb, nb);
    MarkersConcat(a + b, pa + pb, na + nb, c, pc, nc);
  }

  /** Four pieces with markers written in, in a row, make up `t`. */
  lemma Markers4(a: string, pa: string, na: nat, b: string, pb: string, nb: nat,
                 c: string, pc: string, nc: nat, d: string, pd: string, nd: nat,
                 t: string, plain: string, n: nat)
    requires WithMarkers(a, pa, na) && WithMarkers(b, pb, nb)
    requires WithMarkers(c, pc, nc) && WithMarkers(d, pd, nd)
    requires t == a + b + c + d && plain == pa + pb + pc + pd && n == na + nb + nc + nd
    ensures WithMarkers(t, plain, n)
  {
    MarkersConcat(a, pa, na, b, pb, nb);
    MarkersConcat(a + b, pa + pb, na + nb, c, pc, nc);
    MarkersConcat(a + b + c, pa + pb + pc, na + nb + nc, d, pd, nd);
  }

  /** A set operation, given what holds of its two sides. */
  lemma TrackedSetOperation(hook: Hook, l: SelectBody, op: string, r: SelectBody, orderBy: seq<Expr>)
    requires hook.Rename?
    requires WithMarkers(BodyDeparsed(hook, l), BodyDeparsed(Plain, BodyRenamed(hook, l)), 2 * |BodyMatched(hook, l)|)
    requires WithMarkers(BodyDeparsed(hook, r), BodyDeparsed(Plain, BodyRenamed(hook, r)), 2 * |BodyMatched(hook, r)|)
    ensures var b := SetOperation(l, op, r, orderBy);
            WithMarkers(BodyDeparsed(hook, b), BodyDeparsed(Plain, BodyRenamed(hook, b)), 2 * |BodyMatched(hook, b)|)
  {
    var b := SetOperation(l, op, r, orderBy);
    var mid := " " + op + " ";
    var tl, tr, to := BodyDeparsed(hook, l), BodyDeparsed(hook, r), ClauseText(hook, " ORDER BY ", orderBy);
    var pl, pr := BodyDeparsed(Plain, BodyRenamed(hook, l)), BodyDeparsed(Plain, BodyRenamed(hook, r));
    var po := ClauseText(Plain, " ORDER BY ", RenamedList(hook, orderBy));
    var ml, mr, mo := BodyMatched(hook, l), BodyMatched(hook, r), MatchedList(hook, orderBy);
    TrackedClause(hook, " ORDER BY ", orderBy);
    NoMarkersWritten(mid);
    assert BodyMatched(hook, b) == ml + mr + mo;
    Markers4(tl, pl, 2 * |ml|, mid, mid, 0, tr, pr, 2 * |mr|, to, po, 2 * |mo|,
             BodyDeparsed(hook, b), BodyDeparsed(Plain, BodyRenamed(hook, b)), 2 * |BodyMatched(hook, b)|);
  }

  /** Every select of a set operation is tracked like a plain one. */
  lemma {:induction false} TrackedBody(hook: Hook, b: SelectBody)
    requires hook.Rename?
    ensures WithMarkers(BodyDeparsed(hook, b), BodyDeparsed(Plain, BodyRenamed(hook, b)), 2 * |BodyMatched(hook, b)|)
    decreases b
  {
    match b
    case PlainSelect(items, from, where, groupBy, having, orderBy) =>
      TrackedPlainSelect(hook, items, from, where, groupBy, having, orderBy);
    case SetOperation(l, op, r, orderBy) =>
      TrackedBody(hook, l);
      TrackedBody(hook, r);
      TrackedSetOperation(hook, l, op, r, orderBy);
    case OtherSelect(text) =>
      NoMarkersWritten(text);
  }

  lemma {:induction false} TrackedSets(hook: Hook, sets: seq<UpdateSet>)
    requires hook.Rename?
    ensures WithMarkers(SetsText(hook, sets), SetsText(Plain, SetsRenamed(hook, sets)), 2 * |SetsMatched(hook, sets)|)
    decreases |sets|
  {
    if sets == [] {
      NoMarkersWritten("");
    } else {
      TrackedSets(hook, sets[..|sets| - 1]);
      TrackedSetsStep(hook, sets);
    }
  }

  /** The step of TrackedSets for the last update set, given those before it. */
  lemma TrackedSetsStep(hook: Hook, sets: seq<UpdateSet>)
    requires hook.Rename? && sets != []
    requires var init := sets[..|sets| - 1];
             WithMarkers(SetsText(hook, init), SetsText(Plain, SetsRenamed(hook, init)), 2 * |SetsMatched(hook, init)|)
    ensures WithMarkers(SetsText(hook, sets), SetsText(Plain, SetsRenamed(hook, sets)), 2 * |SetsMatched(hook, sets)|)
  {
    var init, u := sets[..|sets| - 1], Last(sets);
    var head := SetHead(|sets| - 1, u);
    var tv, pv, nv := DeparsedList(hook, u.values), DeparsedList(Plain, RenamedList(hook, u.values)), 2 * |MatchedList(hook, u.values)|;
    assert WithMarkers(head + tv, head + pv, nv) by {
      TrackedList(hook, u.values);
      NoMarkersWritten(head);
      MarkersConcat(head, head, 0, tv, pv, nv);
    }
    var renamed := SetsRenamed(hook, sets);
    assert SetsText(Plain, renamed) == SetsText(Plain, SetsRenamed(hook, init)) + (head + pv) by {
      assert renamed[..|sets| - 1] == SetsRenamed(hook, init);
      assert Last(renamed) == u.(values := RenamedList(hook, u.values));
    }
    Markers2(SetsText(hook, init), SetsText(Plain, SetsRenamed(hook, init)), 2 * |SetsMatched(hook, init)|, head + tv, head + pv, nv,
             SetsText(hook, sets), SetsText(Plain, renamed), 2 * |SetsMatched(hook, sets)|);
  }

  /** An UPDATE: its head, its update sets and its WHERE clause. */
  lemma TrackedUpdate(hook: Hook, table: string, sets: seq<UpdateSet>, where: Option<Expr>)
    requires hook.Rename?
    ensures var st := Update(table, sets, where);
            WithMarkers(StmtDeparsed(hook, st), StmtDeparsed(Plain, StmtRenamed(hook, st)), 2 * |StmtMatched(hook, st)|)
  {
    var st := Update(table, sets, where);
    var head := "UPDATE " + table + " SET ";
    TrackedSets(hook, sets);
    TrackedClause(hook, " WHERE ", Opt(where));
    OptRenamedList(hook, where);
    NoMarkersWritten(head);
    Markers3(head, head, 0, SetsText(hook, sets), SetsText(Plain, SetsRenamed(hook, sets)), 2 * |SetsMatched(hook, sets)|,
             ClauseText(hook, " WHERE ", Opt(where)), ClauseText(Plain, " WHERE ", RenamedList(hook, Opt(where))),
             2 * |MatchedList(hook, Opt(where))|,
             StmtDeparsed(hook, st), StmtDeparsed(Plain, StmtRenamed(hook, st)), 2 * |StmtMatched(hook, st)|);
  }

  /** A DELETE: its head and its WHERE clause. */
  lemma TrackedDelete(hook: Hook, tables: seq<string>, primary: Option<string>, where: Option<Expr>)
    requires hook.Rename?
    ensures var st := Delete(tables, primary, where);
            WithMarkers(StmtDeparsed(hook, st), StmtDeparsed(Plain, StmtRenamed(hook, st)), 2 * |StmtMatched(hook, st)|)
  {
    var st := Delete(tables, primary, where);
    var head := "DELETE" + TablesText(tables) + PrimaryText(primary);
    TrackedClause(hook, " WHERE ", Opt(where));
    OptRenamedList(hook, where);
    NoMarkersWritten(head);
    Markers2(head, head, 0,
             ClauseText(hook, " WHERE ", Opt(where)), ClauseText(Plain, " WHERE ", RenamedList(hook, Opt(where))),
             2 * |MatchedList(hook, Opt(where))|,
             StmtDeparsed(hook, st), StmtDeparsed(Plain, StmtRenamed(hook, st)), 2 * |StmtMatched(hook, st)|);
  }

  /** Every statement is the plain deparse of its renamed self with two markers
      written in per matching call. */
  lemma StmtMarkers(hook: Hook, st: Statement)
    requires hook.Rename?
    ensures WithMarkers(StmtDeparsed(hook, st), StmtDeparsed(Plain, StmtRenamed(hook, st)), 2 * |StmtMatched(hook, st)|)
  {
    match st
    case Select(b) => TrackedBody(hook, b);
    case Update(table, sets, where) => TrackedUpdate(hook, table, sets, where);
    case Delete(tables, primary, where) => TrackedDelete(hook, tables, primary, where);
    case OtherStatement(text) => NoMarkersWritten(text);
  }

  /** The statement-level law behind ChangeFunctionName: the deparsed text is the plain
      deparse of the renamed statement with two markers written in per matching call,
      so it holds two more marker characters per matching call, and applyChange gives
      the plain deparse of the renamed statement whenever that holds no marker itself. */
  lemma TrackedStatement(original: string, hook: Hook, st: Statement)
    requires hook.Rename?
    ensures var t, plain := StmtDeparsed(hook, st), StmtDeparsed(Plain, StmtRenamed(hook, st));
            && WithMarkers(t, plain, 2 * |StmtMatched(hook, st)|)
            && CountChar(t, ChangeMarker[0]) == CountChar(plain, ChangeMarker[0]) + 2 * |StmtMatched(hook, st)|
            && (Unmarked(plain) ==> ApplyChange(original, t) == plain)
  {
    var t, plain, n := StmtDeparsed(hook, st), StmtDeparsed(Plain, StmtRenamed(hook, st)), 2 * |StmtMatched(hook, st)|;
    StmtMarkers(hook, st);
    MarkersCounted(t, plain, n);
    if Unmarked(plain) {
      MarkersRemoved(original, t, plain, n);
    }
  }
}
