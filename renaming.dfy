/** What a deparse does to the function calls of a statement, judged by their names:
    which calls a hook matches (every call is visited, nested ones included, whether
    or not an enclosing call matched) and what ChangeFunctionName's in-place rename
    turns them into. */
module Renaming {
  import opened Wrappers
  import opened Sql
  import opened Strings
  import opened DeParse
  import Glob

  /** The name a call carries once the deparse has visited it. */
  function NewName(hook: Hook, name: string): string {
    if hook.Rename? && Hit(hook, name) then hook.newFunctionName else name
  }

  // ---------------------------------------------------------------------------
  // The new name's casing
  // ---------------------------------------------------------------------------

  /** The replacement in the casing of the name it replaces: upper case when that
      name has upper-case letters and no lower-case ones, lower case in the reverse
      case, and as given for a mixed-case or letterless name. */
  function MatchCasing(original: string, replacement: string): (r: string)
    ensures EqualsIgnoreCase(r, replacement)
    ensures HasUpperAscii(original) && !HasLowerAscii(original) ==> !HasLowerAscii(r)
    ensures HasLowerAscii(original) && !HasUpperAscii(original) ==> !HasUpperAscii(r)
  {
    if HasUpperAscii(original) && !HasLowerAscii(original) then UpperAsciiString(replacement)
    else if HasLowerAscii(original) && !HasUpperAscii(original) then LowerAsciiString(replacement)
    else replacement
  }

  /** The name a call would carry if, as the new-name option's description promises,
      the new name matched the casing of the call it replaces. */
  function NewNameIntended(hook: Hook, name: string): (r: string)
    ensures !(hook.Rename? && Hit(hook, name)) ==> r == name
    ensures hook.Rename? && Hit(hook, name) ==> EqualsIgnoreCase(r, hook.newFunctionName)
    ensures hook.Rename? && Hit(hook, name) && HasUpperAscii(name) && !HasLowerAscii(name) ==> !HasLowerAscii(r)
    ensures hook.Rename? && Hit(hook, name) && HasLowerAscii(name) && !HasUpperAscii(name) ==> !HasUpperAscii(r)
  {
    if hook.Rename? && Hit(hook, name) then MatchCasing(name, hook.newFunctionName) else name
  }

  /** As written, the new name is set verbatim: renaming `nvl` to `coalesce` turns the
      upper-case call `NVL(a, b)` into `coalesce(a, b)`. */
  lemma RenameIgnoresCasing(sourcePath: string, sql: string)
    ensures var hook := Rename("nvl", "coalesce", sourcePath, sql);
            Hit(hook, "NVL") && HasUpperAscii("NVL") && !HasLowerAscii("NVL")
            && NewName(hook, "NVL") == "coalesce" && HasLowerAscii(NewName(hook, "NVL"))
  {
    NvlHit(sourcePath, sql);
    NvlUpperCase();
    assert 'a' <= "coalesce"[0] <= 'z';
  }

  /** With the casing matched, the same rename gives `COALESCE(a, b)`. */
  lemma IntendedCasingExample(sourcePath: string, sql: string)
    ensures NewNameIntended(Rename("nvl", "coalesce", sourcePath, sql), "NVL") == "COALESCE"
  {
    NvlHit(sourcePath, sql);
    NvlUpperCase();
    UpperCoalesce();
  }

  lemma NvlHit(sourcePath: string, sql: string)
    ensures Hit(Rename("nvl", "coalesce", sourcePath, sql), "NVL")
  {
    Glob.LiteralMatches("NVL", "nvl");
  }

  lemma NvlUpperCase()
    ensures HasUpperAscii("NVL") && !HasLowerAscii("NVL")
  {
    assert 'A' <= "NVL"[0] <= 'Z';
  }

  lemma UpperCoalesce()
    ensures UpperAsciiString("coalesce") == "COALESCE"
  {
    var u := UpperAsciiString("coalesce");
    assert |u| == 8;
    assert u[0] == 'C' && u[1] == 'O' && u[2] == 'A' && u[3] == 'L';
    assert u[4] == 'E' && u[5] == 'S' && u[6] == 'C' && u[7] == 'E';
  }

  /** A list of call names, each replaced by the name it carries after the deparse. */
  function RenameNames(hook: Hook, names: seq<string>): seq<string> {
    seq(|names|, k requires 0 <= k < |names| => NewName(hook, names[k]))
  }

  /** The names the hook's glob matches, in their order, repeats kept. */
  function Hits(hook: Hook, names: seq<string>): (r: seq<string>)
    ensures |r| <= |names|
    ensures forall n <- r :: n in names && Hit(hook, n)
    ensures forall n <- names :: Hit(hook, n) ==> n in r
  {
    if names == [] then [] else (if Hit(hook, names[0]) then [names[0]] else []) + Hits(hook, names[1..])
  }

  lemma {:induction false} HitsConcat(hook: Hook, a: seq<string>, b: seq<string>)
    ensures Hits(hook, a + b) == Hits(hook, a) + Hits(hook, b)
    decreases |a|
  {
    if a == [] {
      assert a + b == b;
    } else {
      assert (a + b)[1..] == a[1..] + b;
      HitsConcat(hook, a[1..], b);
    }
  }

  lemma RenameNamesConcat(hook: Hook, a: seq<string>, b: seq<string>)
    ensures RenameNames(hook, a + b) == RenameNames(hook, a) + RenameNames(hook, b)
  {
    assert forall k :: 0 <= k < |a + b| ==> RenameNames(hook, a + b)[k] == (RenameNames(hook, a) + RenameNames(hook, b))[k];
  }

  // ---------------------------------------------------------------------------
  // Expressions
  // ---------------------------------------------------------------------------

  /** The calls a hook records are exactly the calls whose names its glob matches, in
      visiting order: nested calls are checked whether or not their caller matched. */
  lemma {:induction false} MatchedAreHits(hook: Hook, e: Expr)
    ensures Matched(hook, e) == Hits(hook, CallNames(e))
    decreases e, 1
  {
    match e
    case Call(name, args) =>
      MatchedListAreHits(hook, args);
      HitsConcat(hook, [name], CallNamesList(args));
    case BinOp(l, _, r) =>
      MatchedAreHits(hook, l);
      MatchedAreHits(hook, r);
      HitsConcat(hook, CallNames(l), CallNames(r));
    case _ =>
  }

  lemma {:induction false} MatchedListAreHits(hook: Hook, es: seq<Expr>)
    ensures MatchedList(hook, es) == Hits(hook, CallNamesList(es))
    decreases es, 0
  {
    if es != [] {
      var init := es[..|es| - 1];
      MatchedListAreHits(hook, init);
      MatchedAreHits(hook, Last(es));
      HitsConcat(hook, CallNamesList(init), CallNames(Last(es)));
    }
  }

  /** After the deparse, every call that matched carries the new name, verbatim, and
      every other call keeps its own; no call is added or lost. */
  lemma {:induction false} RenamedCallNames(hook: Hook, e: Expr)
    ensures CallNames(Renamed(hook, e)) == RenameNames(hook, CallNames(e))
    decreases e, 1
  {
    match e
    case Call(name, args) =>
      var inner := CallNamesList(args);
      assert CallNamesList(RenamedList(hook, args)) == RenameNames(hook, inner) by {
        RenamedListCallNames(hook, args);
      }
      assert RenameNames(hook, [name] + inner) == [NewName(hook, name)] + RenameNames(hook, inner) by {
        RenameNamesConcat(hook, [name], inner);
        assert RenameNames(hook, [name]) == [NewName(hook, name)];
      }
      assert CallNames(Renamed(hook, e)) == [NewName(hook, name)] + CallNamesList(RenamedList(hook, args));
    case BinOp(l, _, r) =>
      assert CallNames(Renamed(hook, l)) + CallNames(Renamed(hook, r)) == RenameNames(hook, CallNames(l) + CallNames(r)) by {
        RenamedCallNames(hook, l);
        RenamedCallNames(hook, r);
        RenameNamesConcat(hook, CallNames(l), CallNames(r));
      }
      assert CallNames(Renamed(hook, e)) == CallNames(Renamed(hook, l)) + CallNames(Renamed(hook, r));
    case _ =>
  }

  lemma {:induction false} RenamedListCallNames(hook: Hook, es: seq<Expr>)
    ensures CallNamesList(RenamedList(hook, es)) == RenameNames(hook, CallNamesList(es))
    decreases es, 0
  {
    if es != [] {
      var init := es[..|es| - 1];
      RenamedListCallNames(hook, init);
      RenamedCallNames(hook, Last(es));
      var rs := RenamedList(hook, es);
      assert rs[..|rs| - 1] == RenamedList(hook, init);
      RenameNamesConcat(hook, CallNamesList(init), CallNames(Last(es)));
    }
  }

  /** A deparse that renames nothing (FindFunction's, or ChangeFunctionName's on an
      expression without a matching call) leaves the expression as it was and appends
      the plain deparse. */
  lemma {:induction false} Untouched(hook: Hook, e: Expr)
    requires !hook.Rename? || Matched(hook, e) == []
    ensures Renamed(hook, e) == e && Deparsed(hook, e) == Deparsed(Plain, e)
    decreases e, 1
  {
    match e
    case Call(name, args) =>
      UntouchedList(hook, args);
    case BinOp(l, _, r) =>
      Untouched(hook, l);
      Untouched(hook, r);
    case _ =>
  }

  lemma {:induction false} UntouchedList(hook: Hook, es: seq<Expr>)
    requires !hook.Rename? || MatchedList(hook, es) == []
    ensures RenamedList(hook, es) == es && DeparsedList(hook, es) == DeparsedList(Plain, es)
    decreases es, 0
  {
    if es != [] {
      var i := |es| - 1;
      var init, e := es[..i], es[i];
      assert es[..i + 1] == es;
      assert !hook.Rename? || (MatchedList(hook, init) == [] && Matched(hook, e) == []) by {
        ListStep(hook, es, i);
      }
      UntouchedList(hook, init);
      Untouched(hook, e);
      assert RenamedList(hook, es) == es by {
        ListStep(hook, es, i);
        FrontLast(es);
      }
      assert DeparsedList(hook, es) == DeparsedList(Plain, es) by {
        ListStep(hook, es, i);
        ListStep(Plain, es, i);
      }
    }
  }

  // ---------------------------------------------------------------------------
  // Statements
  // ---------------------------------------------------------------------------

  function ClausesCallNames(where: Option<Expr>, groupBy: seq<Expr>, having: Option<Expr>, orderBy: seq<Expr>): seq<string> {
    CallNamesList(Opt(where)) + CallNamesList(groupBy) + CallNamesList(Opt(having)) + CallNamesList(orderBy)
  }

  /** Every call name of a select body, in the order the select deparser reaches them:
      the items, then each clause; every select of a set operation, left to right. */
  function BodyCallNames(b: SelectBody): seq<string> {
    match b
    case PlainSelect(items, _, where, groupBy, having, orderBy) =>
      CallNamesList(items) + ClausesCallNames(where, groupBy, having, orderBy)
    case SetOperation(l, _, r, orderBy) => BodyCallNames(l) + BodyCallNames(r) + CallNamesList(orderBy)
    case OtherSelect(_) => []
  }

  function SetsCallNames(sets: seq<UpdateSet>): seq<string> {
    if sets == [] then [] else SetsCallNames(sets[..|sets| - 1]) + CallNamesList(Last(sets).values)
  }

  /** Every call name of a statement, in the order the statement deparser reaches them. */
  function StmtCallNames(st: Statement): seq<string> {
    match st
    case Select(b) => BodyCallNames(b)
    case Update(_, sets, where) => SetsCallNames(sets) + CallNamesList(Opt(where))
    case Delete(_, _, where) => CallNamesList(Opt(where))
    case OtherStatement(_) => []
  }

  lemma ClausesMatchedAreHits(hook: Hook, where: Option<Expr>, groupBy: seq<Expr>, having: Option<Expr>, orderBy: seq<Expr>)
    ensures ClausesMatched(hook, where, groupBy, having, orderBy) == Hits(hook, ClausesCallNames(where, groupBy, having, orderBy))
  {
    var w, g, h := CallNamesList(Opt(where)), CallNamesList(groupBy), CallNamesList(Opt(having));
    MatchedListAreHits(hook, Opt(where));
    MatchedListAreHits(hook, groupBy);
    MatchedListAreHits(hook, Opt(having));
    MatchedListAreHits(hook, orderBy);
    HitsConcat(hook, w, g);
    HitsConcat(hook, w + g, h);
    HitsConcat(hook, w + g + h, CallNamesList(orderBy));
  }

  /** A select body's recorded calls are the calls its hook's glob matches, in order,
      in every select of a set operation. */
  lemma {:induction false} BodyMatchedAreHits(hook: Hook, b: SelectBody)
    ensures BodyMatched(hook, b) == Hits(hook, BodyCallNames(b))
    decreases b
  {
    match b
    case PlainSelect(items, _, where, groupBy, having, orderBy) =>
      MatchedListAreHits(hook, items);
      ClausesMatchedAreHits(hook, where, groupBy, having, orderBy);
      HitsConcat(hook, CallNamesList(items), ClausesCallNames(where, groupBy, having, orderBy));
    case SetOperation(l, _, r, orderBy) =>
      BodyMatchedAreHits(hook, l);
      BodyMatchedAreHits(hook, r);
      MatchedListAreHits(hook, orderBy);
      HitsConcat(hook, BodyCallNames(l), BodyCallNames(r));
      HitsConcat(hook, BodyCallNames(l) + BodyCallNames(r), CallNamesList(orderBy));
    case OtherSelect(_) =>
  }

  lemma {:induction false} SetsMatchedAreHits(hook: Hook, sets: seq<UpdateSet>)
    ensures SetsMatched(hook, sets) == Hits(hook, SetsCallNames(sets))
    decreases |sets|
  {
    if sets != [] {
      var init := sets[..|sets| - 1];
      SetsMatchedAreHits(hook, init);
      MatchedListAreHits(hook, Last(sets).values);
      HitsConcat(hook, SetsCallNames(init), CallNamesList(Last(sets).values));
    }
  }

  /** A statement's recorded calls are the calls its hook's glob matches, in order. */
  lemma StmtMatchedAreHits(hook: Hook, st: Statement)
    ensures StmtMatched(hook, st) == Hits(hook, StmtCallNames(st))
  {
    match st
    case Select(b) =>
      BodyMatchedAreHits(hook, b);
    case Update(_, sets, where) =>
      SetsMatchedAreHits(hook, sets);
      MatchedListAreHits(hook, Opt(where));
      HitsConcat(hook, SetsCallNames(sets), CallNamesList(Opt(where)));
    case Delete(_, _, where) =>
      MatchedListAreHits(hook, Opt(where));
    case OtherStatement(_) =>
  }

  lemma ClausesRenamedCallNames(hook: Hook, where: Option<Expr>, groupBy: seq<Expr>, having: Option<Expr>, orderBy: seq<Expr>)
    ensures ClausesCallNames(OptRenamed(hook, where), RenamedList(hook, groupBy), OptRenamed(hook, having), RenamedList(hook, orderBy))
            == RenameNames(hook, ClausesCallNames(where, groupBy, having, orderBy))
  {
    var w, g, h := CallNamesList(Opt(where)), CallNamesList(groupBy), CallNamesList(Opt(having));
    OptRenamedList(hook, where);
    OptRenamedList(hook, having);
    RenamedListCallNames(hook, Opt(where));
    RenamedListCallNames(hook, groupBy);
    RenamedListCallNames(hook, Opt(having));
    RenamedListCallNames(hook, orderBy);
    RenameNamesConcat(hook, w, g);
    RenameNamesConcat(hook, w + g, h);
    RenameNamesConcat(hook, w + g + h, CallNamesList(orderBy));
  }

  /** After the deparse, every select of a set operation carries the new name on its
      matching calls and its own names elsewhere. */
  lemma {:induction false} BodyRenamedCallNames(hook: Hook, b: SelectBody)
    ensures BodyCallNames(BodyRenamed(hook, b)) == RenameNames(hook, BodyCallNames(b))
    decreases b
  {
    match b
    case PlainSelect(items, _, where, groupBy, having, orderBy) =>
      RenamedListCallNames(hook, items);
      ClausesRenamedCallNames(hook, where, groupBy, having, orderBy);
      RenameNamesConcat(hook, CallNamesList(items), ClausesCallNames(where, groupBy, having, orderBy));
    case SetOperation(l, _, r, orderBy) =>
      BodyRenamedCallNames(hook, l);
      BodyRenamedCallNames(hook, r);
      RenamedListCallNames(hook, orderBy);
      RenameNamesConcat(hook, BodyCallNames(l), BodyCallNames(r));
      RenameNamesConcat(hook, BodyCallNames(l) + BodyCallNames(r), CallNamesList(orderBy));
    case OtherSelect(_) =>
  }

  lemma {:induction false} SetsRenamedCallNames(hook: Hook, sets: seq<UpdateSet>)
    ensures SetsCallNames(SetsRenamed(hook, sets)) == RenameNames(hook, SetsCallNames(sets))
    decreases |sets|
  {
    if sets != [] {
      var init := sets[..|sets| - 1];
      SetsRenamedCallNames(hook, init);
      RenamedListCallNames(hook, Last(sets).values);
      var rs := SetsRenamed(hook, sets);
      assert rs[..|rs| - 1] == SetsRenamed(hook, init);
      RenameNamesConcat(hook, SetsCallNames(init), CallNamesList(Last(sets).values));
    }
  }

  /** The statement the view holds after ChangeFunctionName's deparse: its calls, in
      order, are the old ones with every matching name replaced by the new name. */
  lemma StmtRenamedCallNames(hook: Hook, st: Statement)
    ensures StmtCallNames(StmtRenamed(hook, st)) == RenameNames(hook, StmtCallNames(st))
  {
    match st
    case Select(b) =>
      BodyRenamedCallNames(hook, b);
    case Update(_, sets, where) =>
      SetsRenamedCallNames(hook, sets);
      OptRenamedList(hook, where);
      RenamedListCallNames(hook, Opt(where));
      RenameNamesConcat(hook, SetsCallNames(sets), CallNamesList(Opt(where)));
    case Delete(_, _, where) =>
      OptRenamedList(hook, where);
      RenamedListCallNames(hook, Opt(where));
    case OtherStatement(_) =>
  }

  lemma ClauseUntouched(hook: Hook, keyword: string, es: seq<Expr>)
    requires !hook.Rename? || MatchedList(hook, es) == []
    ensures RenamedList(hook, es) == es && ClauseText(hook, keyword, es) == ClauseText(Plain, keyword, es)
  {
    UntouchedList(hook, es);
  }

  lemma OptUntouched(hook: Hook, keyword: string, e: Option<Expr>)
    requires !hook.Rename? || MatchedList(hook, Opt(e)) == []
    ensures OptRenamed(hook, e) == e && ClauseText(hook, keyword, Opt(e)) == ClauseText(Plain, keyword, Opt(e))
  {
    ClauseUntouched(hook, keyword, Opt(e));
    OptRenamedList(hook, e);
    if e.Some? {
      assert Opt(OptRenamed(hook, e))[0] == Opt(e)[0];
    }
  }

  lemma PlainSelectUntouched(hook: Hook, items: seq<Expr>, from: FromItem, where: Option<Expr>, groupBy: seq<Expr>,
                             having: Option<Expr>, orderBy: seq<Expr>)
    requires !hook.Rename? || BodyMatched(hook, PlainSelect(items, from, where, groupBy, having, orderBy)) == []
    ensures var b := PlainSelect(items, from, where, groupBy, having, orderBy);
            BodyRenamed(hook, b) == b && BodyDeparsed(hook, b) == BodyDeparsed(Plain, b)
  {
    if hook.Rename? {
      assert MatchedList(hook, items) + MatchedList(hook, Opt(where)) + MatchedList(hook, groupBy)
             + MatchedList(hook, Opt(having)) + MatchedList(hook, orderBy) == [];
    }
    UntouchedList(hook, items);
    OptUntouched(hook, " WHERE ", where);
    ClauseUntouched(hook, " GROUP BY ", groupBy);
    OptUntouched(hook, " HAVING ", having);
    ClauseUntouched(hook, " ORDER BY ", orderBy);
  }

  /** A select body without a renamed call is left as it was and deparses to its plain
      text, in every select of a set operation. */
  lemma {:induction false} BodyUntouched(hook: Hook, b: SelectBody)
    requires !hook.Rename? || BodyMatched(hook, b) == []
    ensures BodyRenamed(hook, b) == b && BodyDeparsed(hook, b) == BodyDeparsed(Plain, b)
    decreases b
  {
    match b
    case PlainSelect(items, from, where, groupBy, having, orderBy) =>
      PlainSelectUntouched(hook, items, from, where, groupBy, having, orderBy);
    case SetOperation(l, _, r, orderBy) =>
      if hook.Rename? {
        assert BodyMatched(hook, l) + BodyMatched(hook, r) + MatchedList(hook, orderBy) == [];
      }
      BodyUntouched(hook, l);
      BodyUntouched(hook, r);
      ClauseUntouched(hook, " ORDER BY ", orderBy);
    case OtherSelect(_) =>
  }

  lemma {:induction false} SetsUntouched(hook: Hook, sets: seq<UpdateSet>)
    requires !hook.Rename? || SetsMatched(hook, sets) == []
    ensures SetsRenamed(hook, sets) == sets && SetsText(hook, sets) == SetsText(Plain, sets)
    decreases |sets|
  {
    if sets != [] {
      var init, u := sets[..|sets| - 1], Last(sets);
      assert sets == init + [u];
      SetsSnoc(hook, init, u);
      SetsSnoc(Plain, init, u);
      SetsUntouched(hook, init);
      UntouchedList(hook, u.values);
      assert u.(values := RenamedList(hook, u.values)) == u;
    }
  }

  /** The SET groups' text, matches and renaming, one group at a time. */
  lemma SetsSnoc(hook: Hook, init: seq<UpdateSet>, u: UpdateSet)
    ensures SetsMatched(hook, init + [u]) == SetsMatched(hook, init) + MatchedList(hook, u.values)
    ensures SetsRenamed(hook, init + [u]) == SetsRenamed(hook, init) + [u.(values := RenamedList(hook, u.values))]
    ensures SetsText(hook, init + [u]) == SetsText(hook, init) + (SetHead(|init|, u) + DeparsedList(hook, u.values))
  {
    assert (init + [u])[..|init|] == init;
  }

  /** A statement without a renamed call is left as it was and deparses to its plain
      text: nothing is bracketed by markers. */
  lemma StmtUntouched(hook: Hook, st: Statement)
    requires !hook.Rename? || StmtMatched(hook, st) == []
    ensures StmtRenamed(hook, st) == st && StmtDeparsed(hook, st) == StmtDeparsed(Plain, st)
  {
    match st
    case Select(b) =>
      BodyUntouched(hook, b);
    case Update(_, sets, where) =>
      if hook.Rename? {
        assert SetsMatched(hook, sets) + MatchedList(hook, Opt(where)) == [];
      }
      SetsUntouched(hook, sets);
      OptUntouched(hook, " WHERE ", where);
    case Delete(_, _, where) =>
      OptUntouched(hook, " WHERE ", where);
    case OtherStatement(_) =>
  }
}
