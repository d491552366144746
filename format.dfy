/** FormatSql: re-indenting formatted SQL back into a Java text block. The indentation
    comes from the shortest run of blanks that follows a newline in the literal's
    source; the formatter itself is a parameter. */
module FormatSql {
  import opened Wrappers
  import opened Strings
  import Sql
  import SqlDetector

  // ---------------------------------------------------------------------------
  // Runs of indentation
  // ---------------------------------------------------------------------------

  /** A run of indentation, its tabs and its spaces counted apart. */
  datatype Run = Run(tabs: nat, spaces: nat)

  predicate IsBlank(c: char) {
    c == ' ' || c == '\t'
  }

  predicate AllBlank(s: string) {
    forall i :: 0 <= i < |s| ==> IsBlank(s[i])
  }

  /** The run with one more blank `c`. */
  function Bump(r: Run, c: char): Run {
    if c == '\t' then Run(r.tabs + 1, r.spaces) else Run(r.tabs, r.spaces + 1)
  }

  /** The tabs and spaces a line starts with, up to its first other character. */
  function Lead(line: string): Run {
    if line == [] then Run(0, 0)
    else if AllBlank(line) then Bump(Lead(line[..|line| - 1]), Last(line))
    else Lead(line[..|line| - 1])
  }

  /** The number of columns a run takes when a tab is `tabSize` columns wide. */
  function Weighted(r: Run, tabSize: nat): nat {
    r.spaces + r.tabs * tabSize
  }

  /** The number of characters in a run, whatever their kind. */
  function Width(r: Run): nat {
    r.tabs + r.spaces
  }

  // ---------------------------------------------------------------------------
  // What shortestPrefixAfterNewline computes
  // ---------------------------------------------------------------------------

  function Leads(lines: seq<string>): (runs: seq<Run>)
    ensures |runs| == |lines|
  {
    seq(|lines|, k requires 0 <= k < |lines| => Lead(lines[k]))
  }

  /** The runs the scan closes, given the text's lines: those of the lines after the
      first that are followed by a newline, and that of the last line when it holds a
      non-blank character. The first line is never measured. */
  function ClosedRunsOf(ls: seq<string>): seq<Run>
    requires |ls| >= 1
  {
    if |ls| == 1 then []
    else Leads(ls[1..|ls| - 1]) + (if AllBlank(Last(ls)) then [] else [Lead(Last(ls))])
  }

  /** Whether the scan ends inside a run: there is a newline and nothing but blanks after
      the last one. */
  predicate AfterNewlineOf(ls: seq<string>)
    requires |ls| >= 1
  {
    |ls| > 1 && AllBlank(Last(ls))
  }

  /** The counters at the end: the open run, or nothing. */
  function PendingOf(ls: seq<string>): Run
    requires |ls| >= 1
  {
    if AfterNewlineOf(ls) then Lead(Last(ls)) else Run(0, 0)
  }

  function ClosedRuns(s: string): seq<Run> {
    ClosedRunsOf(Lines(s))
  }

  predicate AfterNewline(s: string) {
    AfterNewlineOf(Lines(s))
  }

  function Pending(s: string): Run {
    PendingOf(Lines(s))
  }

  /** Only the lines after the first matter. */
  lemma TailLinesOnly(l1: seq<string>, l2: seq<string>)
    requires |l1| == |l2| >= 1 && l1[1..] == l2[1..]
    ensures ClosedRunsOf(l1) == ClosedRunsOf(l2) && PendingOf(l1) == PendingOf(l2)
  {
    if |l1| > 1 {
      assert Last(l1) == l1[1..][|l1| - 2] == Last(l2);
      assert l1[1..|l1| - 1] == l1[1..][..|l1| - 2] == l2[1..|l2| - 1];
    }
  }

  /** The scan's state after its closed runs: `shortest` (`None` stands for
      Integer.MAX_VALUE, the value before any run) and the stored pair. */
  datatype Best = Best(shortest: Option<int>, pair: Run)

  predicate Below(w: int, shortest: Option<int>) {
    shortest.None? || w < shortest.value
  }

  /** The closed runs folded as the code does: a run wins when its tab-weighted width is
      below `shortest`, but what is stored in `shortest` is its unweighted width. */
  function FoldRuns(runs: seq<Run>, tabSize: nat): Best {
    if runs == [] then Best(None, Run(0, 0))
    else
      var b := FoldRuns(runs[..|runs| - 1], tabSize);
      var r := Last(runs);
      if Below(Weighted(r, tabSize), b.shortest) then Best(Some(Width(r)), r) else b
  }

  /** The open run at the end replaces the pair when it is not empty and its unweighted
      width is below `shortest`. */
  function Finish(b: Best, pending: Run): Run {
    if Width(pending) > 0 && Below(Width(pending), b.shortest) then pending else b.pair
  }

  /** shortestPrefixAfterNewline, as the code computes it. */
  function ShortestPrefix(s: string, tabSize: nat): Run {
    Finish(FoldRuns(ClosedRuns(s), tabSize), Pending(s))
  }

  lemma AllBlankSnoc(s: string, c: char)
    ensures AllBlank(s + [c]) == (AllBlank(s) && IsBlank(c))
  {
    if AllBlank(s + [c]) {
      assert (s + [c])[|s|] == c;
      forall i | 0 <= i < |s| ensures IsBlank(s[i]) {
        assert (s + [c])[i] == s[i];
      }
    }
  }

  /** How one more character changes the closed runs, the open run and the flag. */
  lemma ScanStep(p: string, c: char)
    ensures AfterNewline(p + [c]) == (c == '\n' || (IsBlank(c) && AfterNewline(p)))
    ensures Pending(p + [c]) ==
              if c != '\n' && IsBlank(c) && AfterNewline(p) then Bump(Pending(p), c) else Run(0, 0)
    ensures ClosedRuns(p + [c]) ==
              if !IsBlank(c) && AfterNewline(p) then ClosedRuns(p) + [Pending(p)] else ClosedRuns(p)
  {
    if c == '\n' {
      ScanNewline(p);
    } else {
      ScanOther(p, c);
    }
  }

  /** A newline closes the last line and opens an empty one. */
  lemma ScanNewline(p: string)
    ensures AfterNewline(p + ['\n']) && Pending(p + ['\n']) == Run(0, 0)
    ensures ClosedRuns(p + ['\n']) ==
              if AfterNewline(p) then ClosedRuns(p) + [Pending(p)] else ClosedRuns(p)
  {
    var ls := Lines(p);
    var n := |ls|;
    SplitOnSnoc(p, '\n', '\n');
    var ls' := Lines(p + ['\n']);
    assert ls' == ls + [""];
    assert ls'[1..|ls'| - 1] == ls[1..];
    if n > 1 {
      assert ls[1..] == ls[1..n - 1] + [Last(ls)];
      assert Leads(ls[1..]) == Leads(ls[1..n - 1]) + [Lead(Last(ls))];
    }
  }

  /** Any other character extends the last line. */
  lemma ScanOther(p: string, c: char)
    requires c != '\n'
    ensures AfterNewline(p + [c]) == (IsBlank(c) && AfterNewline(p))
    ensures Pending(p + [c]) == if IsBlank(c) && AfterNewline(p) then Bump(Pending(p), c) else Run(0, 0)
    ensures ClosedRuns(p + [c]) ==
              if !IsBlank(c) && AfterNewline(p) then ClosedRuns(p) + [Pending(p)] else ClosedRuns(p)
  {
    var ls := Lines(p);
    var n := |ls|;
    SplitOnSnoc(p, c, '\n');
    var ls' := Lines(p + [c]);
    var last := Last(ls) + [c];
    assert ls' == ls[..n - 1] + [last];
    assert last[..|last| - 1] == Last(ls);
    AllBlankSnoc(Last(ls), c);
    if n > 1 {
      assert ls'[1..n - 1] == ls[1..n - 1];
    }
  }

  /** The scan's variables after a prefix of the text. */
  datatype ScanState = ScanState(shortest: Option<int>, pair: Run, counts: Run, afterNewline: bool)

  /** One character of the scan: a non-blank character right after a run closes it, then
      a newline opens a new run, a blank extends an open run, and anything else clears. */
  function ScanChar(st: ScanState, c: char, tabSize: nat): ScanState {
    var closed :=
      if !IsBlank(c) && st.afterNewline then
        if Below(Weighted(st.counts, tabSize), st.shortest)
        then st.(shortest := Some(Width(st.counts)), pair := st.counts, afterNewline := false)
        else st.(afterNewline := false)
      else st;
    if c == '\n' then closed.(afterNewline := true, counts := Run(0, 0))
    else if IsBlank(c) then (if closed.afterNewline then closed.(counts := Bump(closed.counts, c)) else closed)
    else closed.(afterNewline := false, counts := Run(0, 0))
  }

  function Scan(s: string, tabSize: nat): ScanState {
    if s == [] then ScanState(None, Run(0, 0), Run(0, 0), false)
    else ScanChar(Scan(s[..|s| - 1], tabSize), Last(s), tabSize)
  }

  /** After any prefix, the scan's variables hold the fold of the closed runs, the open
      run and whether the prefix ends inside one. */
  lemma {:induction false} ScanMeaning(s: string, tabSize: nat)
    ensures var b := FoldRuns(ClosedRuns(s), tabSize);
            Scan(s, tabSize) == ScanState(b.shortest, b.pair, Pending(s), AfterNewline(s))
    decreases |s|
  {
    if s == [] {
      assert Lines(s) == [""];
    } else {
      var p := s[..|s| - 1];
      assert s == p + [Last(s)];
      ScanMeaning(p, tabSize);
      ScanCharMeaning(p, Last(s), tabSize);
    }
  }

  /** One character of the scan takes the meaning of a prefix to that of the longer one. */
  lemma ScanCharMeaning(p: string, c: char, tabSize: nat)
    ensures var b := FoldRuns(ClosedRuns(p), tabSize);
            var b' := FoldRuns(ClosedRuns(p + [c]), tabSize);
            ScanChar(ScanState(b.shortest, b.pair, Pending(p), AfterNewline(p)), c, tabSize)
            == ScanState(b'.shortest, b'.pair, Pending(p + [c]), AfterNewline(p + [c]))
  {
    ScanStep(p, c);
    var closed := ClosedRuns(p);
    assert (closed + [Pending(p)])[..|closed|] == closed;
  }

  /** shortestPrefixAfterNewline: one pass over the text with two counters, a flag and
      the two-element array holding the best pair. */
  method ShortestPrefixAfterNewline(concatenation: string, tabSize: nat) returns (r: Run)
    ensures r == ShortestPrefix(concatenation, tabSize)
  {
    var s := concatenation;
    var shortest: Option<int> := None;
    var shortestPair := new nat[2];
    shortestPair[0], shortestPair[1] := 0, 0;
    var tabCount: nat, spaceCount: nat := 0, 0;
    var afterNewline := false;
    for i := 0 to |s|
      invariant ScanState(shortest, Run(shortestPair[0], shortestPair[1]), Run(tabCount, spaceCount), afterNewline)
                == Scan(s[..i], tabSize)
    {
      var c := s[i];
      assert s[..i + 1][..i] == s[..i];
      if c != ' ' && c != '\t' && afterNewline {
        if Below(spaceCount + tabCount * tabSize, shortest) {
          shortest := Some(spaceCount + tabCount);
          shortestPair[0] := tabCount;
          shortestPair[1] := spaceCount;
        }
        afterNewline := false;
      }
      if c == '\n' {
        afterNewline := true;
        spaceCount := 0;
        tabCount := 0;
      } else if c == ' ' {
        if afterNewline {
          spaceCount := spaceCount + 1;
        }
      } else if c == '\t' {
        if afterNewline {
          tabCount := tabCount + 1;
        }
      } else {
        afterNewline := false;
        spaceCount := 0;
        tabCount := 0;
      }
    }
    assert s[..|s|] == s;
    ScanMeaning(s, tabSize);
    if spaceCount + tabCount > 0 && Below(spaceCount + tabCount, shortest) {
      shortestPair[0] := tabCount;
      shortestPair[1] := spaceCount;
    }
    r := Run(shortestPair[0], shortestPair[1]);
  }

  // ---------------------------------------------------------------------------
  // Properties of the scan
  // ---------------------------------------------------------------------------

  /** A text without a newline has no run after a newline: the result is (0, 0). */
  lemma NoNewlineZero(s: string, tabSize: nat)
    requires '\n' !in s
    ensures ShortestPrefix(s, tabSize) == Run(0, 0)
  {
    SplitOnNoSeparator(s, '\n');
  }

  /** The first line is never measured: replacing it changes nothing. */
  lemma FirstLineIgnored(a: string, b: string, rest: string, tabSize: nat)
    requires '\n' !in a && '\n' !in b
    ensures ShortestPrefix(a + "\n" + rest, tabSize) == ShortestPrefix(b + "\n" + rest, tabSize)
  {
    SplitOnNoSeparator(a, '\n');
    SplitOnNoSeparator(b, '\n');
    SplitOnConcat(a, rest, '\n');
    SplitOnConcat(b, rest, '\n');
    var la, lb := Lines(a + "\n" + rest), Lines(b + "\n" + rest);
    assert la == [a] + Lines(rest) && lb == [b] + Lines(rest);
    TailLinesOnly(la, lb);
  }

  /** While a pair is stored, `shortest` holds its unweighted width. */
  lemma {:induction false} FoldStoresWidth(runs: seq<Run>, tabSize: nat)
    ensures var b := FoldRuns(runs, tabSize);
            (b.shortest.None? ==> b.pair == Run(0, 0)) && (b.shortest.Some? ==> b.shortest.value == Width(b.pair))
    decreases |runs|
  {
    if runs != [] {
      FoldStoresWidth(runs[..|runs| - 1], tabSize);
    }
  }

  /** Once an empty run is closed, the pair stays (0, 0). */
  lemma {:induction false} EmptyRunWins(runs: seq<Run>, tabSize: nat)
    requires Run(0, 0) in runs
    ensures FoldRuns(runs, tabSize) == Best(Some(0), Run(0, 0))
    decreases |runs|
  {
    var init := runs[..|runs| - 1];
    FoldStoresWidth(init, tabSize);
    if Run(0, 0) in init {
      EmptyRunWins(init, tabSize);
    } else {
      assert runs == init + [Last(runs)];
    }
  }

  /** A blank line between two lines closes an empty run, so the result is (0, 0). */
  lemma BlankLineZero(p: string, q: string, tabSize: nat)
    ensures ShortestPrefix(p + "\n\n" + q, tabSize) == Run(0, 0)
  {
    var s := p + "\n\n" + q;
    assert s == p + "\n" + ("\n" + q);
    SplitOnConcat(p, "\n" + q, '\n');
    assert ("\n" + q)[1..] == q;
    var lp := Lines(p);
    var ls := Lines(s);
    assert ls == lp + [""] + Lines(q);
    var k := |lp|;
    assert ls[k] == "";
    var runs := ClosedRuns(s);
    assert Leads(ls[1..|ls| - 1])[k - 1] == Lead("");
    assert runs[k - 1] == Run(0, 0);
    EmptyRunWins(runs, tabSize);
  }

  // ---------------------------------------------------------------------------
  // Comparing widths consistently
  // ---------------------------------------------------------------------------

  /** The fold as evidently intended: the width that is compared is the width that is
      stored. */
  function FoldIntended(runs: seq<Run>, tabSize: nat): Best {
    if runs == [] then Best(None, Run(0, 0))
    else
      var b := FoldIntended(runs[..|runs| - 1], tabSize);
      var r := Last(runs);
      if Below(Weighted(r, tabSize), b.shortest) then Best(Some(Weighted(r, tabSize)), r) else b
  }

  function FinishIntended(b: Best, pending: Run, tabSize: nat): Run {
    if Width(pending) > 0 && Below(Weighted(pending, tabSize), b.shortest) then pending else b.pair
  }

  /** The narrowest indentation after a newline, measured in columns throughout. */
  function ShortestPrefixIntended(s: string, tabSize: nat): Run {
    FinishIntended(FoldIntended(ClosedRuns(s), tabSize), Pending(s), tabSize)
  }

  /** The runs that compete: the closed ones and a non-empty open one at the end. */
  function Candidates(s: string): seq<Run> {
    ClosedRuns(s) + (if Width(Pending(s)) > 0 then [Pending(s)] else [])
  }

  /** Run k has the least weighted width of all runs, and every run before it is wider. */
  predicate EarliestNarrowest(runs: seq<Run>, k: int, tabSize: nat) {
    0 <= k < |runs|
    && (forall j :: 0 <= j < |runs| ==> Weighted(runs[k], tabSize) <= Weighted(runs[j], tabSize))
    && (forall j :: 0 <= j < k ==> Weighted(runs[j], tabSize) > Weighted(runs[k], tabSize))
  }

  /** The intended fold keeps the earliest of the narrowest runs. */
  lemma {:induction false} FoldIntendedMinimal(runs: seq<Run>, tabSize: nat)
    ensures var b := FoldIntended(runs, tabSize);
            (runs == [] ==> b == Best(None, Run(0, 0)))
            && (runs != [] ==>
                  b.shortest == Some(Weighted(b.pair, tabSize))
                  && exists k :: EarliestNarrowest(runs, k, tabSize) && b.pair == runs[k])
    decreases |runs|
  {
    if runs != [] {
      var init, r := runs[..|runs| - 1], Last(runs);
      assert runs == init + [r];
      FoldIntendedMinimal(init, tabSize);
      var b := FoldIntended(init, tabSize);
      if init == [] {
        assert EarliestNarrowest(runs, 0, tabSize);
      } else {
        var k :| EarliestNarrowest(init, k, tabSize) && b.pair == init[k];
        if Below(Weighted(r, tabSize), b.shortest) {
          NarrowestAppended(init, k, r, tabSize);
        } else {
          NarrowestKept(init, k, r, tabSize);
        }
      }
    }
  }

  /** A run narrower than the narrowest so far becomes the narrowest. */
  lemma NarrowestAppended(init: seq<Run>, k: int, r: Run, tabSize: nat)
    requires EarliestNarrowest(init, k, tabSize) && Weighted(r, tabSize) < Weighted(init[k], tabSize)
    ensures EarliestNarrowest(init + [r], |init|, tabSize) && (init + [r])[|init|] == r
  {
    var runs := init + [r];
    forall j | 0 <= j < |runs| ensures Weighted(runs[|init|], tabSize) <= Weighted(runs[j], tabSize) {
      if j < |init| { assert runs[j] == init[j]; }
    }
  }

  /** A run no narrower than the narrowest so far leaves it the narrowest. */
  lemma NarrowestKept(init: seq<Run>, k: int, r: Run, tabSize: nat)
    requires EarliestNarrowest(init, k, tabSize) && Weighted(r, tabSize) >= Weighted(init[k], tabSize)
    ensures EarliestNarrowest(init + [r], k, tabSize) && (init + [r])[k] == init[k]
  {
    var runs := init + [r];
    assert forall j :: 0 <= j < |init| ==> runs[j] == init[j];
  }

  /** The intended result is one of the candidates, and no candidate is narrower; with no
      candidate it is (0, 0). */
  lemma IntendedMinimal(s: string, tabSize: nat)
    ensures var r := ShortestPrefixIntended(s, tabSize);
            var cs := Candidates(s);
            (cs == [] ==> r == Run(0, 0))
            && (cs != [] ==> r in cs && forall q :: q in cs ==> Weighted(r, tabSize) <= Weighted(q, tabSize))
  {
    var runs := ClosedRuns(s);
    FoldIntendedMinimal(runs, tabSize);
    var b := FoldIntended(runs, tabSize);
    var cs := Candidates(s);
    var r := ShortestPrefixIntended(s, tabSize);
    if runs != [] {
      var k :| EarliestNarrowest(runs, k, tabSize) && b.pair == runs[k];
      assert cs[k] == runs[k];
      forall q | q in cs ensures Weighted(r, tabSize) <= Weighted(q, tabSize) {
        var j :| 0 <= j < |cs| && cs[j] == q;
        if j < |runs| {
          assert cs[j] == runs[j];
        }
      }
    } else if cs != [] {
      assert cs == [Pending(s)];
    }
  }

  /** Where every run's weighted width equals its character count (no tabs, or a tab one
      column wide), the two folds agree. */
  lemma {:induction false} FoldsAgree(runs: seq<Run>, tabSize: nat)
    requires forall k :: 0 <= k < |runs| ==> Weighted(runs[k], tabSize) == Width(runs[k])
    ensures FoldRuns(runs, tabSize) == FoldIntended(runs, tabSize)
    decreases |runs|
  {
    if runs != [] {
      var init := runs[..|runs| - 1];
      assert forall k :: 0 <= k < |init| ==> init[k] == runs[k];
      FoldsAgree(init, tabSize);
    }
  }

  lemma FinishesAgree(runs: seq<Run>, pending: Run, tabSize: nat)
    requires forall k :: 0 <= k < |runs| ==> Weighted(runs[k], tabSize) == Width(runs[k])
    requires Weighted(pending, tabSize) == Width(pending)
    ensures Finish(FoldRuns(runs, tabSize), pending)
            == FinishIntended(FoldIntended(runs, tabSize), pending, tabSize)
  {
    FoldsAgree(runs, tabSize);
  }

  /** A line without tabs leads with spaces only. */
  lemma {:induction false} LeadNoTabs(line: string)
    requires '\t' !in line
    ensures Lead(line).tabs == 0
    decreases |line|
  {
    if line != [] {
      assert Last(line) in line;
      LeadNoTabs(line[..|line| - 1]);
    }
  }

  lemma RunsOfTabFreeLines(ls: seq<string>)
    requires |ls| >= 1
    requires forall k :: 0 <= k < |ls| ==> Lead(ls[k]).tabs == 0
    ensures forall k :: 0 <= k < |ClosedRunsOf(ls)| ==> ClosedRunsOf(ls)[k].tabs == 0
    ensures PendingOf(ls).tabs == 0
  {
    if |ls| > 1 {
      var inner := ls[1..|ls| - 1];
      assert forall k :: 0 <= k < |inner| ==> inner[k] == ls[k + 1];
    }
  }

  /** For a text without tabs the code finds the narrowest run: the result is the
      intended one. */
  lemma NoTabsAgree(s: string, tabSize: nat)
    requires '\t' !in s
    ensures ShortestPrefix(s, tabSize) == ShortestPrefixIntended(s, tabSize)
  {
    var ls := Lines(s);
    forall k | 0 <= k < |ls| ensures Lead(ls[k]).tabs == 0 {
      if '\t' in ls[k] {
        SplitOnPartsWithin(s, '\n', k, '\t');
      }
      LeadNoTabs(ls[k]);
    }
    RunsOfTabFreeLines(ls);
    var runs := ClosedRuns(s);
    forall k | 0 <= k < |runs| ensures Weighted(runs[k], tabSize) == Width(runs[k]) {
      NoTabsWeighted(runs[k], tabSize);
    }
    NoTabsWeighted(Pending(s), tabSize);
    FinishesAgree(runs, Pending(s), tabSize);
  }

  /** Without tabs the weighted width is the character count. */
  lemma NoTabsWeighted(r: Run, tabSize: nat)
    requires r.tabs == 0
    ensures Weighted(r, tabSize) == Width(r)
  {
  }

  /** With a tab one column wide the two folds always agree. */
  lemma TabSizeOneAgrees(s: string)
    ensures ShortestPrefix(s, 1) == ShortestPrefixIntended(s, 1)
  {
    FinishesAgree(ClosedRuns(s), Pending(s), 1);
  }

  /** A blank prefix followed by a non-blank character leads the line. */
  lemma {:induction false} LeadThenText(blank: string, rest: string)
    requires AllBlank(blank) && rest != [] && !IsBlank(rest[0])
    ensures Lead(blank + rest) == Lead(blank)
    decreases |rest|
  {
    var s := blank + rest;
    assert !IsBlank(s[|blank|]);
    if |rest| == 1 {
      assert s[..|s| - 1] == blank;
    } else {
      assert s[..|s| - 1] == blank + rest[..|rest| - 1];
      LeadThenText(blank, rest[..|rest| - 1]);
    }
  }

  lemma ExampleLines()
    ensures Lines("x\n\ty\n  z") == ["x", "\ty", "  z"]
  {
    var s := "x\n\ty\n  z";
    var later := ["\ty", "  z"];
    ExampleLaterLines();
    assert s[1..][1..] == "\ty" + "\n" + "  z";
    SplitOnSeparatorThen(s[1..], s[1..][1..], later, '\n');
    SplitOnOtherThen(s, s[1..], [""], later, '\n');
    assert [s[0]] + "" == "x" && [""][1..] + later == later;
  }

  lemma ExampleLaterLines()
    ensures SplitOn("\ty" + "\n" + "  z", '\n') == ["\ty", "  z"]
  {
    SplitOnNoSeparator("\ty", '\n');
    SplitOnNoSeparator("  z", '\n');
    SplitOnConcat("\ty", "  z", '\n');
  }

  lemma ExampleRuns()
    ensures ClosedRunsOf(["x", "\ty", "  z"]) == [Run(1, 0), Run(0, 2)]
    ensures PendingOf(["x", "\ty", "  z"]) == Run(0, 0)
  {
    assert !AllBlank("  z") by {
      assert !IsBlank("  z"[2]);
    }
    ExampleTabLead();
    ExampleSpaceLead();
    assert ["x", "\ty", "  z"][1..2] == ["\ty"];
  }

  lemma ExampleTabLead()
    ensures Lead("\ty") == Run(1, 0)
  {
    assert "\ty" == "\t" + "y";
    LeadThenText("\t", "y");
    assert "\t"[..0] == "";
  }

  lemma ExampleSpaceLead()
    ensures Lead("  z") == Run(0, 2)
  {
    assert "  z" == "  " + "z";
    LeadThenText("  ", "z");
    assert "  "[..1] == " ";
    assert " "[..0] == "";
  }

  /** With tabs four columns wide, after a first line "x", a line led by one tab (four
      columns) and a line led by two spaces (two columns), the code keeps the tab: the
      weighted width 2 is compared against the stored unweighted width 1. */
  lemma WiderRunKept()
    ensures ShortestPrefix("x\n\ty\n  z", 4) == Run(1, 0)
    ensures ShortestPrefixIntended("x\n\ty\n  z", 4) == Run(0, 2)
    ensures Weighted(Run(0, 2), 4) < Weighted(Run(1, 0), 4)
  {
    ExampleCandidates();
    ExampleFolds();
  }

  /** The example's closed runs and its (empty) open run. */
  lemma ExampleCandidates()
    ensures ClosedRuns("x\n\ty\n  z") == [Run(1, 0), Run(0, 2)]
    ensures Pending("x\n\ty\n  z") == Run(0, 0)
  {
    ExampleLines();
    ExampleRuns();
  }

  /** Both folds over the example's runs. */
  lemma ExampleFolds()
    ensures FoldRuns([Run(1, 0), Run(0, 2)], 4) == Best(Some(1), Run(1, 0))
    ensures FoldIntended([Run(1, 0), Run(0, 2)], 4) == Best(Some(2), Run(0, 2))
  {
    var runs := [Run(1, 0), Run(0, 2)];
    assert runs[..1] == [Run(1, 0)];
    assert [Run(1, 0)][..0] == [];
    assert FoldRuns(runs[..1], 4) == Best(Some(1), Run(1, 0));
    assert FoldIntended(runs[..1], 4) == Best(Some(4), Run(1, 0));
  }

  // ---------------------------------------------------------------------------
  // getIndents and the indentation it builds
  // ---------------------------------------------------------------------------

  /** The indentation getIndents builds from a run: its tabs then its spaces when the
      style uses the tab character, otherwise spaces only, each tab widened to
      `tabSize` columns. */
  function IndentOf(r: Run, useTab: bool, tabSize: nat): (indentation: string)
    ensures AllBlank(indentation) && '\n' !in indentation
    ensures |indentation| == if useTab then Width(r) else Weighted(r, tabSize)
  {
    if useTab then Repeat('\t', r.tabs) + Repeat(' ', r.spaces)
    else Repeat(' ', Weighted(r, tabSize))
  }

  /** A blank text's lead counts all of it. */
  lemma {:induction false} LeadAllBlank(s: string)
    requires AllBlank(s)
    ensures Lead(s) == Run(CountChar(s, '\t'), CountChar(s, ' '))
    decreases |s|
  {
    if s != [] {
      var init := s[..|s| - 1];
      assert s == init + [Last(s)];
      AllBlankSnoc(init, Last(s));
      LeadAllBlank(init);
      CountCharConcat(init, [Last(s)], '\t');
      CountCharConcat(init, [Last(s)], ' ');
    }
  }

  /** Measuring the built indentation gives back the run when tabs are kept, and the
      run's weighted width in spaces when they are widened. */
  lemma IndentOfLead(r: Run, useTab: bool, tabSize: nat)
    ensures Lead(IndentOf(r, useTab, tabSize)) == if useTab then r else Run(0, Weighted(r, tabSize))
  {
    var indentation := IndentOf(r, useTab, tabSize);
    LeadAllBlank(indentation);
    if useTab {
      CountCharConcat(Repeat('\t', r.tabs), Repeat(' ', r.spaces), '\t');
      CountCharConcat(Repeat('\t', r.tabs), Repeat(' ', r.spaces), ' ');
      CountCharRepeat('\t', r.tabs, '\t');
      CountCharRepeat('\t', r.tabs, ' ');
      CountCharRepeat(' ', r.spaces, '\t');
      CountCharRepeat(' ', r.spaces, ' ');
    } else {
      CountCharRepeat(' ', Weighted(r, tabSize), '\t');
      CountCharRepeat(' ', Weighted(r, tabSize), ' ');
    }
  }

  /** getIndents: the indentation of the shortest run after a newline. */
  method GetIndents(concatenation: string, useTabCharacter: bool, tabSize: nat) returns (indentation: string)
    ensures indentation == IndentOf(ShortestPrefix(concatenation, tabSize), useTabCharacter, tabSize)
  {
    var counts := ShortestPrefixAfterNewline(concatenation, tabSize);
    if useTabCharacter {
      indentation := Repeat('\t', counts.tabs) + Repeat(' ', counts.spaces);
    } else {
      indentation := Repeat(' ', Weighted(counts, tabSize));
    }
  }

  // ---------------------------------------------------------------------------
  // Indenter.indent
  // ---------------------------------------------------------------------------

  /** The tabs-and-indents style of the source file: whether to indent with tabs, and
      how many columns a tab is worth. */
  datatype Style = Style(useTabCharacter: bool, tabSize: nat)

  /** IntelliJ's default style, used when the source file carries none. */
  const DefaultStyle := Style(false, 4)

  function StyleOrDefault(style: Option<Style>): Style {
    if style.Some? then style.value else DefaultStyle
  }

  /** The indentation for a text block whose source is `valueSource`. */
  function IndentationFor(valueSource: string, style: Option<Style>): (indentation: string)
    ensures '\n' !in indentation && AllBlank(indentation)
  {
    var st := StyleOrDefault(style);
    IndentOf(ShortestPrefix(valueSource, st.tabSize), st.useTabCharacter, st.tabSize)
  }

  /** A space before a newline is written `\s`, the text-block escape for a space, so
      that the trailing space survives the stripping of trailing blanks. */
  function Escaped(formatted: string): string {
    ReplaceAll(formatted, " \n", "\\s\n")
  }

  /** How a text block reads `\s` back: as a single space. */
  function SpaceEscapesRead(x: string): string {
    ReplaceAll(x, "\\s", " ")
  }

  /** No space is directly followed by a newline. */
  predicate NoSpaceBeforeNewline(x: string) {
    forall i :: 0 <= i < |x| - 1 && x[i] == ' ' ==> x[i + 1] != '\n'
  }

  /** Each line after the first, prefixed with the indentation. */
  function Prefixed(indentation: string, lines: seq<string>): (r: seq<string>)
    ensures |r| == |lines|
  {
    seq(|lines|, k requires 0 <= k < |lines| => indentation + lines[k])
  }

  /** What Indenter.indent returns: the escaped text with the indentation after every
      newline, preceded by a newline and the indentation, and, when the source does not
      end with a newline, followed by a line continuation and the indentation so that
      the closing delimiter sits on a line of its own. */
  function Indented(valueSource: string, formatted: string, indentation: string): string {
    var shifted := ReplaceAll(Escaped(formatted), "\n", "\n" + indentation);
    var body := "\n" + indentation + shifted;
    if EndsWith(valueSource, "\n") then body else body + "\\\n" + indentation
  }

  /** Indenter.indent with the style looked up (IntelliJ's default when absent). */
  method Indent(valueSource: string, formatted: string, style: Option<Style>) returns (indented: string)
    ensures indented == Indented(valueSource, formatted, IndentationFor(valueSource, style))
  {
    var st := if style.Some? then style.value else DefaultStyle;
    var indentation := GetIndents(valueSource, st.useTabCharacter, st.tabSize);
    indented := ReplaceAll(formatted, " \n", "\\s\n");
    indented := ReplaceAll(indented, "\n", "\n" + indentation);
    indented := "\n" + indentation + indented;
    if !EndsWith(valueSource, "\n") {
      indented := indented + "\\\n" + indentation;
    }
  }

  // ---------------------------------------------------------------------------
  // Properties of the indentation
  // ---------------------------------------------------------------------------

  /** After escaping, no line but the last ends with a space. */
  lemma {:induction false} EscapedNoTrailingSpace(s: string)
    ensures NoSpaceBeforeNewline(Escaped(s))
    decreases |s|
  {
    if |s| < 2 {
    } else if s[..2] == " \n" {
      EscapedNoTrailingSpace(s[2..]);
      var rest := Escaped(s[2..]);
      assert Escaped(s) == "\\s\n" + rest;
      forall i | 0 <= i < |Escaped(s)| - 1 && Escaped(s)[i] == ' '
        ensures Escaped(s)[i + 1] != '\n'
      {
        assert i >= 3;
        assert Escaped(s)[i] == rest[i - 3] && Escaped(s)[i + 1] == rest[i - 2];
      }
    } else {
      EscapedNoTrailingSpace(s[1..]);
      var rest := Escaped(s[1..]);
      assert Escaped(s) == [s[0]] + rest;
      if s[0] == ' ' && |s| > 2 {
        ReplaceHead(s[1..], " \n", "\\s\n");
      }
      forall i | 0 <= i < |Escaped(s)| - 1 && Escaped(s)[i] == ' '
        ensures Escaped(s)[i + 1] != '\n'
      {
        if i > 0 {
          assert Escaped(s)[i] == rest[i - 1] && Escaped(s)[i + 1] == rest[i];
        }
      }
    }
  }

  lemma SpaceEscapesReadCons(c: char, x: string)
    requires c != '\\'
    ensures SpaceEscapesRead([c] + x) == [c] + SpaceEscapesRead(x)
  {
    assert ([c] + x)[1..] == x;
  }

  /** Reading the escapes back gives the formatted text, as long as it holds no
      backslash of its own. */
  lemma {:induction false} EscapedRoundTrip(s: string)
    requires '\\' !in s
    ensures SpaceEscapesRead(Escaped(s)) == s
    decreases |s|
  {
    if |s| < 2 {
    } else if s[..2] == " \n" {
      EscapedRoundTrip(s[2..]);
      var rest := Escaped(s[2..]);
      assert Escaped(s) == "\\s" + ("\n" + rest);
      assert ("\\s" + ("\n" + rest))[2..] == "\n" + rest;
      SpaceEscapesReadCons('\n', rest);
      assert s == " \n" + s[2..];
    } else {
      EscapedRoundTrip(s[1..]);
      assert Escaped(s) == [s[0]] + Escaped(s[1..]);
      SpaceEscapesReadCons(s[0], Escaped(s[1..]));
      assert s == [s[0]] + s[1..];
    }
  }

  /** Escaping keeps the number of newlines, hence the number of lines. */
  lemma EscapedNewlines(s: string)
    ensures CountChar(Escaped(s), '\n') == CountChar(s, '\n')
  {
    assert CountChar(" \n", '\n') == 1 == CountChar("\\s\n", '\n');
    CountCharReplace(s, " \n", "\\s\n", '\n');
  }

  /** Putting the indentation after every newline keeps the first line and prefixes
      every other line with the indentation. */
  lemma {:induction false} ShiftLines(x: string, indentation: string)
    requires '\n' !in indentation
    ensures Lines(ReplaceAll(x, "\n", "\n" + indentation)) == [Lines(x)[0]] + Prefixed(indentation, Lines(x)[1..])
    decreases |x|
  {
    if x != [] {
      ShiftLines(x[1..], indentation);
      if x[0] == '\n' {
        ShiftNewline(x, indentation);
      } else {
        ShiftOther(x, indentation);
      }
    }
  }

  /** The step of ShiftLines for a text starting with a newline. */
  lemma ShiftNewline(x: string, ind: string)
    requires '\n' !in ind && x != [] && x[0] == '\n'
    requires Lines(ReplaceAll(x[1..], "\n", "\n" + ind)) == [Lines(x[1..])[0]] + Prefixed(ind, Lines(x[1..])[1..])
    ensures Lines(ReplaceAll(x, "\n", "\n" + ind)) == [Lines(x)[0]] + Prefixed(ind, Lines(x)[1..])
  {
    var rest := ReplaceAll(x[1..], "\n", "\n" + ind);
    var m := Lines(x[1..]);
    assert ReplaceAll(x, "\n", "\n" + ind) == "\n" + (ind + rest) by {
      assert x[..1] == "\n";
      ReplaceMatch(x, "\n", "\n" + ind);
    }
    assert Lines("\n" + (ind + rest)) == [""] + Lines(ind + rest) by {
      assert ("\n" + (ind + rest))[1..] == ind + rest;
    }
    SplitOnPrefix(ind, rest, '\n');
    assert Lines(x) == [""] + m;
    PrefixedCons(ind, m);
  }

  /** Prefixing a non-empty list of lines, one line at a time. */
  lemma PrefixedCons(ind: string, m: seq<string>)
    requires m != []
    ensures Prefixed(ind, m) == [ind + m[0]] + Prefixed(ind, m[1..])
  {
  }

  /** The step of ShiftLines for a text starting with any other character. */
  lemma ShiftOther(x: string, ind: string)
    requires '\n' !in ind && x != [] && x[0] != '\n'
    requires Lines(ReplaceAll(x[1..], "\n", "\n" + ind)) == [Lines(x[1..])[0]] + Prefixed(ind, Lines(x[1..])[1..])
    ensures Lines(ReplaceAll(x, "\n", "\n" + ind)) == [Lines(x)[0]] + Prefixed(ind, Lines(x)[1..])
  {
    var rest := ReplaceAll(x[1..], "\n", "\n" + ind);
    var m := Lines(x[1..]);
    assert x[..1] != "\n";
    var r := [x[0]] + rest;
    assert ReplaceAll(x, "\n", "\n" + ind) == r;
    assert r[1..] == rest;
    assert Lines(x) == [[x[0]] + m[0]] + m[1..];
  }

  /** The lines Indenter.indent produces: an empty first line (the one the opening
      delimiter ends), then every line of the escaped text prefixed with the
      indentation; without a newline at the end of the source, the last of those
      lines ends with a line continuation and a line holding only the indentation
      follows, for the closing delimiter. */
  lemma IndentedLines(valueSource: string, formatted: string, indentation: string)
    requires '\n' !in indentation
    ensures var e := Lines(Escaped(formatted));
            var ls := Lines(Indented(valueSource, formatted, indentation));
            if EndsWith(valueSource, "\n") then ls == [""] + Prefixed(indentation, e)
            else ls == [""] + Prefixed(indentation, e[..|e| - 1]) + [indentation + Last(e) + "\\", indentation]
  {
    var ind := indentation;
    var e := Lines(Escaped(formatted));
    var body := "\n" + ind + ReplaceAll(Escaped(formatted), "\n", "\n" + ind);
    IndentedBodyLines(formatted, ind);
    if !EndsWith(valueSource, "\n") {
      ContinuationLines(body, ind);
      var lb := Lines(body);
      assert lb[..|lb| - 1] == [""] + Prefixed(ind, e[..|e| - 1]);
      assert Last(lb) == ind + Last(e);
    }
  }

  /** The lines of Indenter.indent's result before any line continuation. */
  lemma IndentedBodyLines(formatted: string, ind: string)
    requires '\n' !in ind
    ensures Lines("\n" + ind + ReplaceAll(Escaped(formatted), "\n", "\n" + ind))
            == [""] + Prefixed(ind, Lines(Escaped(formatted)))
  {
    var e := Lines(Escaped(formatted));
    var shifted := ReplaceAll(Escaped(formatted), "\n", "\n" + ind);
    ShiftLines(Escaped(formatted), ind);
    var body := "\n" + ind + shifted;
    assert body[1..] == ind + shifted;
    SplitOnPrefix(ind, shifted, '\n');
    assert Prefixed(ind, e) == [ind + e[0]] + Prefixed(ind, e[1..]);
  }

  /** A line continuation and a line holding only the indentation, after a text. */
  lemma ContinuationLines(body: string, ind: string)
    requires '\n' !in ind
    ensures var lb := Lines(body);
            Lines(body + "\\\n" + ind) == lb[..|lb| - 1] + [Last(lb) + "\\", ind]
  {
    assert body + "\\\n" + ind == (body + ['\\']) + ['\n'] + ind;
    SplitOnConcat(body + ['\\'], ind, '\n');
    SplitOnNoSeparator(ind, '\n');
    SplitOnSnoc(body, '\\', '\n');
  }

  /** Indenter.indent adds one newline before the text and, without a newline at the end
      of the source, one after it. */
  lemma IndentedNewlines(valueSource: string, formatted: string, indentation: string)
    requires '\n' !in indentation
    ensures CountChar(Indented(valueSource, formatted, indentation), '\n') ==
              CountChar(formatted, '\n') + (if EndsWith(valueSource, "\n") then 1 else 2)
  {
    IndentedLines(valueSource, formatted, indentation);
    CountCharSplitOn(Indented(valueSource, formatted, indentation), '\n');
    CountCharSplitOn(Escaped(formatted), '\n');
    EscapedNewlines(formatted);
  }

  // ---------------------------------------------------------------------------
  // SqlTextBlockFormatVisitor.visitLiteral
  // ---------------------------------------------------------------------------

  /** A Java literal as the visitor sees it: whether its type is String, its value and
      its source text (either may be absent). */
  datatype JavaLiteral = JavaLiteral(isString: bool, value: Option<string>, valueSource: Option<string>)

  const TextBlockDelimiter := "\"\"\""

  /** isTextBlock: a String literal whose source starts with three double quotes. */
  predicate IsTextBlock(l: JavaLiteral) {
    l.isString && l.valueSource.Some? && StartsWith(l.valueSource.value, TextBlockDelimiter)
  }

  /** What visitLiteral returns. The SQL formatter, configured by the recipe's options,
      is the parameter `format`; the parser behind isSql is `parse`. */
  function FormattedLiteral(parse: Sql.Parser, format: string -> string, style: Option<Style>, l: JavaLiteral): JavaLiteral
  {
    if IsTextBlock(l) && SqlDetector.IsSqlText(parse, l.value) && format(l.value.value) != l.value.value then
      var formatted := format(l.value.value);
      var indented := Indented(l.valueSource.value, formatted, IndentationFor(l.valueSource.value, style));
      l.(value := Some(formatted), valueSource := Some(TextBlockDelimiter + indented + TextBlockDelimiter))
    else l
  }

  /** visitLiteral: a SQL text block whose formatting differs gets the formatted value and
      a re-indented text-block source; every other literal is returned as it is. */
  method VisitLiteral(parse: Sql.Parser, format: string -> string, style: Option<Style>, literal: JavaLiteral)
    returns (result: JavaLiteral)
    ensures result == FormattedLiteral(parse, format, style, literal)
  {
    if IsTextBlock(literal) {
      var originalValue := literal.value;
      var sql := SqlDetector.IsSql(parse, originalValue);
      if sql {
        var formatted := format(originalValue.value);
        if originalValue.value != formatted {
          var indented := Indent(literal.valueSource.value, formatted, style);
          return literal.(value := Some(formatted), valueSource := Some(TextBlockDelimiter + indented + TextBlockDelimiter));
        }
      }
    }
    return literal;
  }

  // ---------------------------------------------------------------------------
  // Properties of visitLiteral
  // ---------------------------------------------------------------------------

  /** A literal changes exactly when it is a text block holding SQL that the formatter
      changes; then its value is the formatted text. */
  lemma LiteralChangesExactly(parse: Sql.Parser, format: string -> string, style: Option<Style>, l: JavaLiteral)
    ensures var r := FormattedLiteral(parse, format, style, l);
            (r != l <==> IsTextBlock(l) && SqlDetector.IsSqlText(parse, l.value) && format(l.value.value) != l.value.value)
            && (r != l ==> r.value == Some(format(l.value.value)) && r.isString == l.isString)
  {
  }

  /** The ends of Indenter.indent's result: it starts with a newline and the
      indentation; it ends with a line continuation, a newline and the indentation when
      the source does not end with a newline, and with a newline and the indentation
      when the formatted text does. */
  lemma IndentedEnds(valueSource: string, formatted: string, indentation: string)
    requires '\n' !in indentation
    ensures var indented := Indented(valueSource, formatted, indentation);
            StartsWith(indented, "\n" + indentation)
            && (!EndsWith(valueSource, "\n") ==> EndsWith(indented, "\\\n" + indentation))
            && (EndsWith(formatted, "\n") ==> EndsWith(indented, "\n" + indentation))
  {
    IndentedStart(valueSource, formatted, indentation);
    if !EndsWith(valueSource, "\n") {
      IndentedContinuation(valueSource, formatted, indentation);
    } else if EndsWith(formatted, "\n") {
      IndentedFinalNewline(valueSource, formatted, indentation);
    }
  }

  lemma IndentedStart(valueSource: string, formatted: string, ind: string)
    ensures StartsWith(Indented(valueSource, formatted, ind), "\n" + ind)
  {
    var shifted := ReplaceAll(Escaped(formatted), "\n", "\n" + ind);
    var body := "\n" + ind + shifted;
    assert body[..|"\n" + ind|] == "\n" + ind;
    if !EndsWith(valueSource, "\n") {
      assert (body + "\\\n" + ind)[..|"\n" + ind|] == "\n" + ind;
    }
  }

  lemma IndentedContinuation(valueSource: string, formatted: string, ind: string)
    requires !EndsWith(valueSource, "\n")
    ensures EndsWith(Indented(valueSource, formatted, ind), "\\\n" + ind)
  {
    var shifted := ReplaceAll(Escaped(formatted), "\n", "\n" + ind);
    var body := "\n" + ind + shifted;
    assert Indented(valueSource, formatted, ind) == body + ("\\\n" + ind);
  }

  lemma IndentedFinalNewline(valueSource: string, formatted: string, ind: string)
    requires EndsWith(valueSource, "\n") && EndsWith(formatted, "\n")
    ensures EndsWith(Indented(valueSource, formatted, ind), "\n" + ind)
  {
    var shifted := ReplaceAll(Escaped(formatted), "\n", "\n" + ind);
    var body := "\n" + ind + shifted;
    ReplaceKeepsLast(formatted, " \n", "\\s\n", '\n');
    var e := Escaped(formatted);
    assert e[|e| - 1..] == "\n";
    ReplaceEndsWith(e, '\n', "\n" + ind);
    assert body[|body| - |"\n" + ind|..] == shifted[|shifted| - |"\n" + ind|..];
  }

  /** The text-block source visitLiteral writes: the opening delimiter ends its first
      line, and the closing delimiter sits after a newline and the indentation unless
      the source ends with a newline and the formatted text does not. */
  lemma TextBlockSource(valueSource: string, formatted: string, indentation: string)
    requires '\n' !in indentation
    ensures var src := TextBlockDelimiter + Indented(valueSource, formatted, indentation) + TextBlockDelimiter;
            StartsWith(src, TextBlockDelimiter) && StartsWith(src, TextBlockDelimiter + "\n")
            && (!EndsWith(valueSource, "\n") || EndsWith(formatted, "\n") ==>
                  EndsWith(src, "\n" + indentation + TextBlockDelimiter))
  {
    var indented := Indented(valueSource, formatted, indentation);
    var src := TextBlockDelimiter + indented + TextBlockDelimiter;
    assert StartsWith(indented, "\n") by {
      IndentedStart(valueSource, formatted, indentation);
      StartsWithShorter(indented, "\n", indentation);
    }
    assert StartsWith(src, TextBlockDelimiter) && StartsWith(src, TextBlockDelimiter + "\n") by {
      StartsWithBetween(TextBlockDelimiter, indented, TextBlockDelimiter, "\n");
    }
    if !EndsWith(valueSource, "\n") || EndsWith(formatted, "\n") {
      assert EndsWith(indented, "\n" + indentation) by {
        if !EndsWith(valueSource, "\n") {
          IndentedContinuation(valueSource, formatted, indentation);
          EndsWithShorter(indented, "\\", "\n" + indentation);
        } else {
          IndentedFinalNewline(valueSource, formatted, indentation);
        }
      }
      EndsWithBetween(TextBlockDelimiter, indented, TextBlockDelimiter, "\n" + indentation);
    }
  }

  /** A changed literal is again a text block, of the shape TextBlockSource describes. */
  lemma FormattedIsTextBlock(parse: Sql.Parser, format: string -> string, style: Option<Style>, l: JavaLiteral)
    requires FormattedLiteral(parse, format, style, l) != l
    ensures var r := FormattedLiteral(parse, format, style, l);
            IsTextBlock(r) && StartsWith(r.valueSource.value, TextBlockDelimiter + "\n")
            && (!EndsWith(l.valueSource.value, "\n") || EndsWith(r.value.value, "\n") ==>
                  EndsWith(r.valueSource.value, "\n" + IndentationFor(l.valueSource.value, style) + TextBlockDelimiter))
  {
    var vs := l.valueSource.value;
    var formatted := format(l.value.value);
    var ind := IndentationFor(vs, style);
    TextBlockSource(vs, formatted, ind);
    var src := TextBlockDelimiter + Indented(vs, formatted, ind) + TextBlockDelimiter;
    assert FormattedLiteral(parse, format, style, l) == l.(value := Some(formatted), valueSource := Some(src));
  }

  /** A source that ends with the closing delimiter does not end with a newline, so the
      source written for it ends with the line continuation, the indentation and the
      closing delimiter. */
  lemma ContinuedSource(valueSource: string, formatted: string, ind: string)
    requires EndsWith(valueSource, TextBlockDelimiter)
    ensures EndsWith(TextBlockDelimiter + Indented(valueSource, formatted, ind) + TextBlockDelimiter,
                     "\\\n" + ind + TextBlockDelimiter)
  {
    assert !EndsWith(valueSource, "\n") by {
      assert valueSource[|valueSource| - 1] == TextBlockDelimiter[2];
    }
    IndentedContinuation(valueSource, formatted, ind);
    EndsWithBetween(TextBlockDelimiter, Indented(valueSource, formatted, ind), TextBlockDelimiter, "\\\n" + ind);
  }

  /** A suffix of the middle part, followed by the last part, ends the whole. */
  lemma EndsWithBetween(a: string, b: string, c: string, t: string)
    requires EndsWith(b, t)
    ensures EndsWith(a + b + c, t + c)
  {
    var s := a + b + c;
    assert s[|s| - |t + c|..] == b[|b| - |t|..] + c;
  }

  /** A prefix of the middle part, after the first part, begins the whole. */
  lemma StartsWithBetween(a: string, b: string, c: string, p: string)
    requires StartsWith(b, p)
    ensures StartsWith(a + b + c, a) && StartsWith(a + b + c, a + p)
  {
    var s := a + b + c;
    assert s[..|a + p|] == a + b[..|p|];
  }

  /** Whatever starts with p + q starts with p. */
  lemma StartsWithShorter(s: string, p: string, q: string)
    requires StartsWith(s, p + q)
    ensures StartsWith(s, p)
  {
    assert s[..|p|] == (p + q)[..|p|];
  }

  /** Whatever ends with p + q ends with q. */
  lemma EndsWithShorter(s: string, p: string, q: string)
    requires EndsWith(s, p + q)
    ensures EndsWith(s, q)
  {
    assert s[|s| - |q|..] == (p + q)[|p|..];
  }

  /** A text block's source ends with its closing delimiter, never with a newline, so
      the line continuation is always added: the new source always ends with a
      backslash, a newline, the indentation and the closing delimiter. */
  lemma TextBlockAlwaysContinues(parse: Sql.Parser, format: string -> string, style: Option<Style>, l: JavaLiteral)
    requires l.valueSource.Some? && EndsWith(l.valueSource.value, TextBlockDelimiter)
    requires FormattedLiteral(parse, format, style, l) != l
    ensures EndsWith(FormattedLiteral(parse, format, style, l).valueSource.value,
                     "\\\n" + IndentationFor(l.valueSource.value, style) + TextBlockDelimiter)
  {
    var vs := l.valueSource.value;
    var formatted := format(l.value.value);
    var ind := IndentationFor(vs, style);
    ContinuedSource(vs, formatted, ind);
    var src := TextBlockDelimiter + Indented(vs, formatted, ind) + TextBlockDelimiter;
    assert FormattedLiteral(parse, format, style, l) == l.(value := Some(formatted), valueSource := Some(src));
  }

  /** Formatting twice changes nothing more when the formatter is idempotent on the
      formatted text. */
  lemma FormatIdempotent(parse: Sql.Parser, format: string -> string, style: Option<Style>, l: JavaLiteral)
    requires l.value.Some? ==> format(format(l.value.value)) == format(l.value.value)
    ensures var once := FormattedLiteral(parse, format, style, l);
            FormattedLiteral(parse, format, style, once) == once
  {
  }
}
