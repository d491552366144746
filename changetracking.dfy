/** ChangeTrackingExpressionDeParser's marker and its removal. The deparser that
    appends the marker (trackChange) is DeParse.DeParser.TrackCall. */
module ChangeTracking {
  import opened Strings

  /** CHANGE_MARKER: the three characters U+00E2 U+20AC U+00BB, which are the UTF-8
      bytes of the reference mark U+203B read as Windows-1252. */
  const ChangeMarker: string := "\U{00E2}\U{20AC}\U{00BB}"

  /** A text holding no whole marker. */
  predicate Unmarked(s: string) {
    !Contains(s, ChangeMarker)
  }

  /** applyChange: every marker removed; the original text plays no part. */
  function ApplyChange(original: string, changed: string): string
  {
    ReplaceAll(changed, ChangeMarker, "")
  }

  /** The marker's first character occurs nowhere else in it. */
  lemma MarkerHeadUnique()
    ensures HeadUnique(ChangeMarker)
  {
  }

  /** Unmarked text is left as it is; without even the marker's first character it
      also ends where no marker can straddle. */
  lemma UnmarkedUnchanged(original: string, s: string)
    requires Unmarked(s)
    ensures ApplyChange(original, s) == s
    ensures ChangeMarker[0] !in s ==> SafeEnd(s, ChangeMarker)
  {
    ReplaceAbsent(s, ChangeMarker, "");
    if ChangeMarker[0] !in s {
      HeadAbsent(s, ChangeMarker);
    }
  }

  /** Removal distributes over a concatenation whose left part ends safely. */
  lemma ApplyChangeConcat(original: string, a: string, b: string)
    requires SafeEnd(a, ChangeMarker)
    ensures ApplyChange(original, a + b) == ApplyChange(original, a) + ApplyChange(original, b)
  {
    ReplaceConcat(a, b, ChangeMarker, "");
  }

  /** The marker alone is removed entirely, and ends safely. */
  lemma MarkerRemoved(original: string)
    ensures ApplyChange(original, ChangeMarker) == "" && SafeEnd(ChangeMarker, ChangeMarker)
  {
    assert ChangeMarker[..|ChangeMarker|] == ChangeMarker;
    assert ChangeMarker[|ChangeMarker|..] == [];
    MarkerHeadUnique();
    SafeEndWithTarget(ChangeMarker, ChangeMarker);
  }

  /** An unmarked text written before a marker is kept, and the marker is removed: no
      marker starts inside the text, not even one running into the written marker,
      whatever the text ends with. */
  lemma MarkerAfter(original: string, p: string, rest: string)
    requires Unmarked(p)
    ensures ApplyChange(original, p + ChangeMarker + rest) == p + ApplyChange(original, rest)
  {
    var m := ChangeMarker;
    MarkerHeadUnique();
    assert p + m + rest == p + (m + rest);
    assert (m + rest)[..|m|] == m && (m + rest)[|m|..] == rest;
    ReplaceBeforeTarget(p, m, m + rest, "");
    ReplaceMatch(m + rest, m, "");
  }

  /** What trackChange brackets comes back without its markers: a prefix and an
      appended text, each without a whole marker, around which the two markers were
      written. */
  lemma PairRemoved(original: string, p: string, x: string)
    requires Unmarked(p) && Unmarked(x)
    ensures ApplyChange(original, p + ChangeMarker + x + ChangeMarker) == p + x
  {
    var m := ChangeMarker;
    MarkerAfter(original, p, x + m);
    MarkerAfter(original, x, []);
    assert p + m + x + m == p + m + (x + m);
    assert x + m == x + m + [];
  }

  /** A lone first character of the marker is no marker: applyChange leaves it. */
  lemma LoneHeadKept(original: string)
    ensures ApplyChange(original, "x" + [ChangeMarker[0]]) == "x" + [ChangeMarker[0]]
  {
    var s := "x" + [ChangeMarker[0]];
    ReplaceShort(s, ChangeMarker, "");
  }

  /** As written, removing the three-character marker can assemble a new one: in
      `â` + marker + `€»` the first pass leaves a whole marker, which only a second
      pass removes. So applyChange is not idempotent. */
  lemma ApplyChangeNotIdempotent(original: string)
    ensures var t := [ChangeMarker[0]] + ChangeMarker + ChangeMarker[1..];
            && ApplyChange(original, t) == ChangeMarker
            && ApplyChange(original, ApplyChange(original, t)) == ""
  {
    var m := ChangeMarker;
    var t := [m[0]] + m + m[1..];
    MarkerRemoved(original);
    assert t[..3] != m;
    ReplaceOther(t, m, "");
    assert t[1..] == m + m[1..];
    assert (m + m[1..])[..3] == m && (m + m[1..])[3..] == m[1..];
    ReplaceMatch(m + m[1..], m, "");
    ReplaceShort(m[1..], m, "");
  }

  // ---------------------------------------------------------------------------
  // Texts with markers written into them
  // ---------------------------------------------------------------------------

  /** The marker is written at position `i` of `t`, compared character by character. */
  predicate MarkerAt(t: string, i: nat) {
    i + 3 <= |t| && t[i] == ChangeMarker[0] && t[i + 1] == ChangeMarker[1] && t[i + 2] == ChangeMarker[2]
  }

  /** From position `i` of `t` and position `j` of `plain` on, `t` is `plain` with `n`
      markers written in. */
  predicate WrittenFrom(t: string, i: nat, plain: string, j: nat, n: nat)
    requires i <= |t| && j <= |plain|
    decreases |t| - i
  {
    if i == |t| then j == |plain| && n == 0
    else
      || (0 < n && MarkerAt(t, i) && WrittenFrom(t, i + 3, plain, j, n - 1))
      || (j < |plain| && t[i] == plain[j] && WrittenFrom(t, i + 1, plain, j + 1, n))
  }

  /** `t` is `plain` with `n` markers written in at some of its positions. */
  predicate WithMarkers(t: string, plain: string, n: nat) {
    WrittenFrom(t, 0, plain, 0, n)
  }

  lemma {:induction false} NoMarkersFrom(s: string, i: nat)
    requires i <= |s|
    ensures WrittenFrom(s, i, s, i, 0)
    decreases |s| - i
  {
    if i < |s| {
      NoMarkersFrom(s, i + 1);
    }
  }

  /** A text without markers written in. */
  lemma NoMarkersWritten(s: string)
    ensures WithMarkers(s, s, 0)
  {
    NoMarkersFrom(s, 0);
  }

  /** The marker alone: one marker written into nothing. */
  lemma MarkerWritten()
    ensures WithMarkers(ChangeMarker, "", 1)
  {
    assert WrittenFrom(ChangeMarker, 3, "", 0, 0);
    assert MarkerAt(ChangeMarker, 0);
  }

  /** Text put in front of both sides moves every position along. */
  lemma {:induction false} WrittenShift(x: string, b: string, k: nat, y: string, pb: string, l: nat, n: nat)
    requires k <= |b| && l <= |pb| && WrittenFrom(b, k, pb, l, n)
    ensures WrittenFrom(x + b, |x| + k, y + pb, |y| + l, n)
    decreases |b| - k
  {
    if k < |b| {
      if 0 < n && MarkerAt(b, k) && WrittenFrom(b, k + 3, pb, l, n - 1) {
        WrittenShift(x, b, k + 3, y, pb, l, n - 1);
        assert (x + b)[|x| + k] == b[k] && (x + b)[|x| + k + 1] == b[k + 1] && (x + b)[|x| + k + 2] == b[k + 2];
        assert MarkerAt(x + b, |x| + k);
      } else {
        WrittenShift(x, b, k + 1, y, pb, l + 1, n);
        assert (x + b)[|x| + k] == b[k] && (y + pb)[|y| + l] == pb[l];
      }
    }
  }

  lemma {:induction false} WrittenConcat(a: string, i: nat, pa: string, j: nat, na: nat, b: string, pb: string, nb: nat)
    requires i <= |a| && j <= |pa| && WrittenFrom(a, i, pa, j, na) && WithMarkers(b, pb, nb)
    ensures WrittenFrom(a + b, i, pa + pb, j, na + nb)
    decreases |a| - i
  {
    if i == |a| {
      WrittenShift(a, b, 0, pa, pb, 0, nb);
    } else if 0 < na && MarkerAt(a, i) && WrittenFrom(a, i + 3, pa, j, na - 1) {
      WrittenConcat(a, i + 3, pa, j, na - 1, b, pb, nb);
      assert (a + b)[i] == a[i] && (a + b)[i + 1] == a[i + 1] && (a + b)[i + 2] == a[i + 2];
      assert MarkerAt(a + b, i);
    } else {
      WrittenConcat(a, i + 1, pa, j + 1, na, b, pb, nb);
      assert (a + b)[i] == a[i] && (pa + pb)[j] == pa[j];
    }
  }

  /** Markers written into two texts are written into their concatenation. */
  lemma MarkersConcat(a: string, pa: string, na: nat, b: string, pb: string, nb: nat)
    requires WithMarkers(a, pa, na) && WithMarkers(b, pb, nb)
    ensures WithMarkers(a + b, pa + pb, na + nb)
  {
    WrittenConcat(a, 0, pa, 0, na, b, pb, nb);
  }

  /** A marker in `t` read as written text: then the plain text holds the marker too. */
  lemma MarkerReadAsText(t: string, i: nat, plain: string, j: nat, n: nat)
    requires MarkerAt(t, i) && j < |plain| && t[i] == plain[j]
    requires WrittenFrom(t, i + 1, plain, j + 1, n)
    ensures Contains(plain[j..], ChangeMarker)
  {
    var m := ChangeMarker;
    assert !MarkerAt(t, i + 1) && !MarkerAt(t, i + 2);
    assert j + 1 < |plain| && plain[j + 1] == t[i + 1];
    assert WrittenFrom(t, i + 2, plain, j + 2, n);
    assert j + 2 < |plain| && plain[j + 2] == t[i + 2];
    assert plain[j..][0..|m|] == m;
    assert OccursAt(plain[j..], m, 0);
  }

  lemma {:induction false} RemovedFrom(t: string, i: nat, plain: string, j: nat, n: nat)
    requires i <= |t| && j <= |plain| && WrittenFrom(t, i, plain, j, n) && Unmarked(plain[j..])
    ensures ReplaceAll(t[i..], ChangeMarker, "") == plain[j..]
    decreases |t| - i
  {
    var m := ChangeMarker;
    if i == |t| {
    } else if 0 < n && MarkerAt(t, i) && WrittenFrom(t, i + 3, plain, j, n - 1) {
      RemovedFrom(t, i + 3, plain, j, n - 1);
      assert t[i..][..|m|] == m;
      assert t[i..][|m|..] == t[i + 3..];
      ReplaceMatch(t[i..], m, "");
    } else if MarkerAt(t, i) {
      MarkerReadAsText(t, i, plain, j, n);
      assert false;
    } else {
      ContainsInTail(plain[j..], m);
      assert plain[j..][1..] == plain[j + 1..];
      RemovedFrom(t, i + 1, plain, j + 1, n);
      assert t[i..][1..] == t[i + 1..];
      if |t[i..]| < |m| {
        ReplaceShort(t[i..], m, "");
        ReplaceShort(t[i + 1..], m, "");
      } else {
        assert t[i..][..|m|][0] == t[i] && t[i..][..|m|][1] == t[i + 1] && t[i..][..|m|][2] == t[i + 2];
        ReplaceOther(t[i..], m, "");
      }
      assert [t[i]] + plain[j + 1..] == plain[j..];
    }
  }

  /** Removing every marker gives back the plain text, when the plain text holds no
      marker of its own. */
  lemma MarkersRemoved(original: string, t: string, plain: string, n: nat)
    requires WithMarkers(t, plain, n) && Unmarked(plain)
    ensures ApplyChange(original, t) == plain
  {
    assert plain[0..] == plain && t[0..] == t;
    RemovedFrom(t, 0, plain, 0, n);
  }

  lemma {:induction false} CountedFrom(t: string, i: nat, plain: string, j: nat, n: nat)
    requires i <= |t| && j <= |plain| && WrittenFrom(t, i, plain, j, n)
    ensures CountChar(t[i..], ChangeMarker[0]) == CountChar(plain[j..], ChangeMarker[0]) + n
    decreases |t| - i
  {
    var c := ChangeMarker[0];
    if i == |t| {
    } else if 0 < n && MarkerAt(t, i) && WrittenFrom(t, i + 3, plain, j, n - 1) {
      CountedFrom(t, i + 3, plain, j, n - 1);
      assert t[i..][1..] == t[i + 1..] && t[i + 1..][1..] == t[i + 2..] && t[i + 2..][1..] == t[i + 3..];
      assert CountChar(t[i..], c) == 1 + CountChar(t[i + 1..], c);
      assert CountChar(t[i + 1..], c) == CountChar(t[i + 2..], c);
      assert CountChar(t[i + 2..], c) == CountChar(t[i + 3..], c);
    } else {
      CountedFrom(t, i + 1, plain, j + 1, n);
      assert t[i..][1..] == t[i + 1..] && plain[j..][1..] == plain[j + 1..];
    }
  }

  /** Each marker written adds one marker character to those of the plain text. */
  lemma MarkersCounted(t: string, plain: string, n: nat)
    requires WithMarkers(t, plain, n)
    ensures CountChar(t, ChangeMarker[0]) == CountChar(plain, ChangeMarker[0]) + n
  {
    assert plain[0..] == plain && t[0..] == t;
    CountedFrom(t, 0, plain, 0, n);
  }

  lemma {:induction false} ShownFrom(t: string, i: nat, plain: string, j: nat, n: nat)
    requires i <= |t| && j <= |plain| && WrittenFrom(t, i, plain, j, n) && 0 < n
    ensures Contains(t, ChangeMarker) && ChangeMarker[0] in t
    decreases |t| - i
  {
    if 0 < n && MarkerAt(t, i) && WrittenFrom(t, i + 3, plain, j, n - 1) {
      assert t[i..i + |ChangeMarker|] == ChangeMarker;
      assert OccursAt(t, ChangeMarker, i);
    } else {
      ShownFrom(t, i + 1, plain, j + 1, n);
    }
  }

  /** A text with a marker written in holds a whole marker. */
  lemma MarkersShown(t: string, plain: string, n: nat)
    requires WithMarkers(t, plain, n) && 0 < n
    ensures Contains(t, ChangeMarker) && ChangeMarker[0] in t
  {
    ShownFrom(t, 0, plain, 0, n);
  }

  // ---------------------------------------------------------------------------
  // The marker as intended: the single reference mark
  // ---------------------------------------------------------------------------

  /** The reference mark U+203B, the character the marker's three characters encode. */
  const IntendedMarker: char := '\U{203B}'

  function ApplyChangeIntended(original: string, changed: string): (r: string)
  {
    ReplaceAll(changed, [IntendedMarker], "")
  }

  /** With a one-character marker, removal leaves no marker and is idempotent. */
  lemma IntendedRemovesAll(original: string, changed: string)
    ensures IntendedMarker !in ApplyChangeIntended(original, changed)
    ensures ApplyChangeIntended(original, ApplyChangeIntended(original, changed))
            == ApplyChangeIntended(original, changed)
  {
    var r := ApplyChangeIntended(original, changed);
    DeleteCharLeavesNone(changed, IntendedMarker);
    HeadAbsent(r, [IntendedMarker]);
    ReplaceAbsent(r, [IntendedMarker], "");
  }

  /** The bracketing law holds for the intended marker as well. */
  lemma IntendedPairRemoved(original: string, p: string, x: string)
    requires IntendedMarker !in p && IntendedMarker !in x
    ensures ApplyChangeIntended(original, p + [IntendedMarker] + x + [IntendedMarker]) == p + x
  {
    var m := [IntendedMarker];
    HeadAbsent(p, m);
    HeadAbsent(x, m);
    ReplaceAbsent(p, m, "");
    ReplaceAbsent(x, m, "");
    SafeEndForeignLast(m, [' ']);
    assert m[..1] == m && m[1..] == [];
    SafeEndWithTarget(m, m);
    SafeEndConcat(p, m, m);
    SafeEndConcat(p + m, x, m);
    ReplaceConcat(p + m + x, m, m, "");
    ReplaceConcat(p + m, x, m, "");
    ReplaceConcat(p, m, m, "");
  }
}
