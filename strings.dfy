/** The pieces of java.lang.String and of the repository's string helpers that the core
    relies on: ASCII case folding, substring search, `replace`, `split`, line splitting,
    character counting and repetition. */
module Strings {

  // ---------------------------------------------------------------------------
  // ASCII case folding (java.util.regex CASE_INSENSITIVE without UNICODE_CASE)
  // ---------------------------------------------------------------------------

  function UpperAscii(c: char): char {
    if 'a' <= c <= 'z' then (c as int - 32) as char else c
  }

  function LowerAscii(c: char): char {
    if 'A' <= c <= 'Z' then (c as int + 32) as char else c
  }

  /** String.toLowerCase, restricted to ASCII letters. */
  function LowerAsciiString(s: string): (r: string)
    ensures |r| == |s|
    ensures forall i :: 0 <= i < |s| ==> r[i] == LowerAscii(s[i])
  {
    if s == [] then [] else [LowerAscii(s[0])] + LowerAsciiString(s[1..])
  }

  /** String.toUpperCase, restricted to ASCII letters. */
  function UpperAsciiString(s: string): (r: string)
    ensures |r| == |s|
    ensures forall i :: 0 <= i < |s| ==> r[i] == UpperAscii(s[i])
  {
    if s == [] then [] else [UpperAscii(s[0])] + UpperAsciiString(s[1..])
  }

  predicate HasLowerAscii(s: string) {
    exists i :: 0 <= i < |s| && 'a' <= s[i] <= 'z'
  }

  predicate HasUpperAscii(s: string) {
    exists i :: 0 <= i < |s| && 'A' <= s[i] <= 'Z'
  }

  predicate EqualsIgnoreCase(a: string, b: string) {
    |a| == |b| && forall i :: 0 <= i < |a| ==> UpperAscii(a[i]) == UpperAscii(b[i])
  }

  predicate StartsWithIgnoreCase(s: string, prefix: string) {
    |prefix| <= |s| && EqualsIgnoreCase(s[..|prefix|], prefix)
  }

  /** Matcher.find() for a literal pattern under ASCII case-insensitive matching:
      scans the text left to right for a position where the pattern starts. */
  function ContainsIgnoreCase(s: string, pattern: string): bool
    decreases |s|
  {
    if |s| < |pattern| then false
    else StartsWithIgnoreCase(s, pattern) || ContainsIgnoreCase(s[1..], pattern)
  }

  /** The scan finds the pattern exactly when some position of the text starts it. */
  lemma {:induction false} ContainsIgnoreCaseAt(s: string, pattern: string)
    ensures ContainsIgnoreCase(s, pattern) <==>
            exists i :: 0 <= i <= |s| - |pattern| && StartsWithIgnoreCase(s[i..], pattern)
    decreases |s|
  {
    if |s| < |pattern| {
    } else if s == [] {
      assert StartsWithIgnoreCase(s[0..], pattern);
    } else {
      ContainsIgnoreCaseAt(s[1..], pattern);
      if ContainsIgnoreCase(s, pattern) {
        if StartsWithIgnoreCase(s, pattern) {
          assert s[0..] == s;
        } else {
          var i :| 0 <= i <= |s[1..]| - |pattern| && StartsWithIgnoreCase(s[1..][i..], pattern);
          assert s[1..][i..] == s[i + 1..];
        }
      } else {
        forall i | 0 <= i <= |s| - |pattern| ensures !StartsWithIgnoreCase(s[i..], pattern) {
          if i == 0 {
            assert s[0..] == s;
          } else {
            assert s[1..][i - 1..] == s[i..];
          }
        }
      }
    }
  }

  /** A match inside a piece of text is still a match once text is added around it. */
  lemma ContainsIgnoreCaseGrows(p: string, s: string, q: string, pattern: string)
    requires ContainsIgnoreCase(s, pattern)
    ensures ContainsIgnoreCase(p + s + q, pattern)
  {
    ContainsIgnoreCaseAt(s, pattern);
    var i :| 0 <= i <= |s| - |pattern| && StartsWithIgnoreCase(s[i..], pattern);
    var t, j, n := p + s + q, |p| + i, |pattern|;
    forall k | 0 <= k < n
      ensures t[j..][..n][k] == s[i..][..n][k]
    {
      assert t[j + k] == s[i + k];
    }
    assert t[j..][..n] == s[i..][..n];
    assert StartsWithIgnoreCase(t[j..], pattern);
    ContainsIgnoreCaseAt(t, pattern);
  }

  // ---------------------------------------------------------------------------
  // Occurrences and String.replace(CharSequence, CharSequence)
  // ---------------------------------------------------------------------------

  predicate OccursAt(s: string, t: string, i: int) {
    0 <= i && i + |t| <= |s| && s[i..i + |t|] == t
  }

  predicate Contains(s: string, t: string) {
    exists i | 0 <= i <= |s| - |t| :: OccursAt(s, t, i)
  }

  predicate StartsWith(s: string, prefix: string) {
    |prefix| <= |s| && s[..|prefix|] == prefix
  }

  predicate EndsWith(s: string, suffix: string) {
    |suffix| <= |s| && s[|s| - |suffix|..] == suffix
  }

  /** String.replace with a non-empty target: the text is scanned left to right and
      every occurrence found is replaced; scanning resumes after the replaced occurrence,
      so occurrences never overlap and replacements are never rescanned. */
  function ReplaceAll(s: string, target: string, replacement: string): string
    requires |target| > 0
    decreases |s|
  {
    if |s| < |target| then s
    else if s[..|target|] == target then replacement + ReplaceAll(s[|target|..], target, replacement)
    else [s[0]] + ReplaceAll(s[1..], target, replacement)
  }

  /** Text without the target is left as it is. */
  lemma {:induction false} ReplaceAbsent(s: string, target: string, replacement: string)
    requires |target| > 0
    requires !Contains(s, target)
    ensures ReplaceAll(s, target, replacement) == s
    decreases |s|
  {
    if |s| >= |target| {
      assert !OccursAt(s, target, 0);
      assert s[0..|target|] == s[..|target|];
      forall i | 0 <= i <= |s[1..]| - |target|
        ensures !OccursAt(s[1..], target, i)
      {
        assert !OccursAt(s, target, i + 1);
        assert s[1..][i..i + |target|] == s[i + 1..i + 1 + |target|];
      }
      ReplaceAbsent(s[1..], target, replacement);
    }
  }

  /** No proper suffix of `x` shorter than the target begins the target: an occurrence
      in `x + y` can then never straddle the boundary. */
  predicate SafeEnd(x: string, target: string) {
    forall i :: 0 <= i < |x| && |x| - i < |target| ==> !StartsWith(target, x[i..])
  }

  lemma SafeEndSuffix(x: string, k: int, target: string)
    requires SafeEnd(x, target) && 0 <= k <= |x|
    ensures SafeEnd(x[k..], target)
  {
    forall i | 0 <= i < |x[k..]| && |x[k..]| - i < |target|
      ensures !StartsWith(target, x[k..][i..])
    {
      assert x[k..][i..] == x[k + i..];
    }
  }

  /** With a safe end, no occurrence starts inside `x` and runs into `y`. */
  lemma NoStraddle(x: string, y: string, t: string)
    requires SafeEnd(x, t) && 0 < |x| < |t| <= |x + y|
    ensures (x + y)[..|t|] != t
  {
    assert x[0..] == x;
  }

  /** Replacing distributes over a concatenation whose boundary no occurrence straddles. */
  lemma {:induction false} ReplaceConcat(x: string, y: string, target: string, replacement: string)
    requires |target| > 0
    requires SafeEnd(x, target)
    ensures ReplaceAll(x + y, target, replacement)
         == ReplaceAll(x, target, replacement) + ReplaceAll(y, target, replacement)
    decreases |x|
  {
    var t := target;
    if x == [] {
      assert x + y == y;
    } else if |x + y| < |t| {
      ReplaceShort(x, t, replacement);
      ReplaceShort(y, t, replacement);
      ReplaceShort(x + y, t, replacement);
    } else if (x + y)[..|t|] == t {
      assert |x| >= |t| by {
        if |x| < |t| { NoStraddle(x, y, t); }
      }
      SafeEndSuffix(x, |t|, t);
      ReplaceConcat(x[|t|..], y, t, replacement);
      ReplaceConcatMatch(x, y, t, replacement);
    } else {
      SafeEndSuffix(x, 1, t);
      ReplaceConcat(x[1..], y, t, replacement);
      ReplaceConcatOther(x, y, t, replacement);
    }
  }

  /** The step of ReplaceConcat where the text starts with the target. */
  lemma ReplaceConcatMatch(x: string, y: string, t: string, replacement: string)
    requires 0 < |t| <= |x| && (x + y)[..|t|] == t
    requires ReplaceAll(x[|t|..] + y, t, replacement) == ReplaceAll(x[|t|..], t, replacement) + ReplaceAll(y, t, replacement)
    ensures ReplaceAll(x + y, t, replacement) == ReplaceAll(x, t, replacement) + ReplaceAll(y, t, replacement)
  {
    assert x[..|t|] == t;
    assert (x + y)[|t|..] == x[|t|..] + y;
    ReplaceMatch(x + y, t, replacement);
    ReplaceMatch(x, t, replacement);
  }

  /** The step of ReplaceConcat where the text does not start with the target. */
  lemma ReplaceConcatOther(x: string, y: string, t: string, replacement: string)
    requires 0 < |t| <= |x + y| && x != [] && (x + y)[..|t|] != t
    requires ReplaceAll(x[1..] + y, t, replacement) == ReplaceAll(x[1..], t, replacement) + ReplaceAll(y, t, replacement)
    ensures ReplaceAll(x + y, t, replacement) == ReplaceAll(x, t, replacement) + ReplaceAll(y, t, replacement)
  {
    ReplaceOtherConcat(x, y, t, replacement);
    ReplaceOtherPrefix(x, y, t, replacement);
    var rx, ry := ReplaceAll(x[1..], t, replacement), ReplaceAll(y, t, replacement);
    assert [x[0]] + (rx + ry) == ([x[0]] + rx) + ry;
  }

  /** The head of `x + y` is kept when no occurrence starts there. */
  lemma ReplaceOtherConcat(x: string, y: string, t: string, replacement: string)
    requires 0 < |t| <= |x + y| && x != [] && (x + y)[..|t|] != t
    ensures ReplaceAll(x + y, t, replacement) == [x[0]] + ReplaceAll(x[1..] + y, t, replacement)
  {
    assert (x + y)[1..] == x[1..] + y && (x + y)[0] == x[0];
    ReplaceOther(x + y, t, replacement);
  }

  /** Then the head of `x` alone is kept as well. */
  lemma ReplaceOtherPrefix(x: string, y: string, t: string, replacement: string)
    requires 0 < |t| <= |x + y| && x != [] && (x + y)[..|t|] != t
    ensures ReplaceAll(x, t, replacement) == [x[0]] + ReplaceAll(x[1..], t, replacement)
  {
    if |x| >= |t| {
      assert x[..|t|] == (x + y)[..|t|];
      ReplaceOther(x, t, replacement);
    } else {
      ReplaceShort(x, t, replacement);
      ReplaceShort(x[1..], t, replacement);
      assert x == [x[0]] + x[1..];
    }
  }

  /** A text shorter than the target is left as it is. */
  lemma ReplaceShort(s: string, target: string, replacement: string)
    requires 0 < |target| && |s| < |target|
    ensures ReplaceAll(s, target, replacement) == s
  {
  }

  /** A text starting with the target: the replacement, then the rest replaced. */
  lemma ReplaceMatch(s: string, target: string, replacement: string)
    requires 0 < |target| <= |s| && s[..|target|] == target
    ensures ReplaceAll(s, target, replacement) == replacement + ReplaceAll(s[|target|..], target, replacement)
  {
  }

  /** Any other text: its first character, then the rest replaced. */
  lemma ReplaceOther(s: string, target: string, replacement: string)
    requires 0 < |target| <= |s| && s[..|target|] != target
    ensures ReplaceAll(s, target, replacement) == [s[0]] + ReplaceAll(s[1..], target, replacement)
  {
  }

  /** A piece that ends in a character foreign to the target ends safely. */
  lemma SafeEndForeignLast(x: string, target: string)
    requires |x| > 0 && x[|x| - 1] !in target
    ensures SafeEnd(x, target)
  {
    forall i | 0 <= i < |x| && |x| - i < |target|
      ensures !StartsWith(target, x[i..])
    {
      var k := |x| - i - 1;
      assert target[k] in target;
      assert x[i..][k] == x[|x| - 1];
      assert x[i..][k] != target[k];
    }
  }

  /** The target's first character occurs nowhere else in it. */
  predicate HeadUnique(target: string) {
    |target| > 0 && forall k :: 0 < k < |target| ==> target[k] != target[0]
  }

  /** For a head-unique target, a piece that ends with the target ends safely. */
  lemma SafeEndWithTarget(x: string, target: string)
    requires HeadUnique(target) && EndsWith(x, target)
    ensures SafeEnd(x, target)
  {
    forall i | 0 <= i < |x| && |x| - i < |target|
      ensures !StartsWith(target, x[i..])
    {
      var d := |target| - (|x| - i);
      assert x[|x| - |target|..][d] == target[d];
      assert x[i] == target[d];
      assert target[d] != target[0];
      assert x[i..][0] != target[0];
    }
  }

  lemma SafeEndEmpty(target: string)
    ensures SafeEnd([], target)
  {
  }

  // ---------------------------------------------------------------------------
  // Splitting on one separator character
  // ---------------------------------------------------------------------------

  /** All the separator-delimited parts, empty ones included (there is always one more
      part than there are separators). */
  function SplitOn(s: string, sep: char): (parts: seq<string>)
    ensures |parts| >= 1
    decreases |s|
  {
    if s == [] then [""]
    else
      var rest := SplitOn(s[1..], sep);
      if s[0] == sep then [""] + rest else [[s[0]] + rest[0]] + rest[1..]
  }

  /** The separator-delimited lines of a text. */
  function Lines(s: string): (lines: seq<string>)
    ensures |lines| >= 1
  {
    SplitOn(s, '\n')
  }

  function Last<T>(s: seq<T>): T
    requires |s| > 0
  {
    s[|s| - 1]
  }

  /** Taking one more element of a sequence appends that element. */
  lemma TakeSnoc<T>(s: seq<T>, i: int)
    requires 0 <= i < |s|
    ensures s[..i + 1] == s[..i] + [s[i]]
  {
  }

  /** A non-empty sequence is its front followed by its last element. */
  lemma FrontLast<T>(s: seq<T>)
    requires |s| > 0
    ensures s == s[..|s| - 1] + [Last(s)]
  {
  }

  lemma {:induction false} SplitOnNoSeparator(s: string, sep: char)
    requires sep !in s
    ensures SplitOn(s, sep) == [s]
    decreases |s|
  {
    if s != [] {
      SplitOnNoSeparator(s[1..], sep);
      assert [s[0]] + s[1..] == s;
    }
  }

  /** No part holds the separator. */
  lemma {:induction false} SplitOnPartsFree(s: string, sep: char)
    ensures forall k :: 0 <= k < |SplitOn(s, sep)| ==> sep !in SplitOn(s, sep)[k]
    decreases |s|
  {
    if s != [] {
      SplitOnPartsFree(s[1..], sep);
    }
  }

  /** Every character of a part is a character of the text. */
  lemma {:induction false} SplitOnPartsWithin(s: string, sep: char, k: int, c: char)
    requires 0 <= k < |SplitOn(s, sep)| && c in SplitOn(s, sep)[k]
    ensures c in s
    decreases |s|
  {
    if s != [] {
      var rest := SplitOn(s[1..], sep);
      if s[0] == sep {
        SplitOnPartsWithin(s[1..], sep, k - 1, c);
      } else if k == 0 {
        if c != s[0] {
          SplitOnPartsWithin(s[1..], sep, 0, c);
        }
      } else {
        SplitOnPartsWithin(s[1..], sep, k, c);
      }
    }
  }

  /** Appending one character either opens a new (empty) part or extends the last one. */
  lemma {:induction false} SplitOnSnoc(s: string, c: char, sep: char)
    ensures SplitOn(s + [c], sep) == SnocParts(SplitOn(s, sep), c, sep)
    decreases |s|
  {
    if s == [] {
      assert s + [c] == [c];
      assert [c][1..] == [];
      assert SplitOn([], sep) == [""];
      assert [c] + "" == [c];
      assert SplitOn([c], sep) == (if c == sep then ["", ""] else [[c]]);
    } else {
      var t := s[1..];
      assert (s + [c])[1..] == t + [c];
      SplitOnSnoc(t, c, sep);
      SnocPartsCons(s[0], SplitOn(t, sep), c, sep);
    }
  }

  /** The parts after appending `c`, given the parts before. */
  function SnocParts(parts: seq<string>, c: char, sep: char): (r: seq<string>)
    requires |parts| >= 1
    ensures |r| >= 1
  {
    if c == sep then parts + [""] else parts[..|parts| - 1] + [Last(parts) + [c]]
  }

  lemma SnocPartsCons(a: char, st: seq<string>, c: char, sep: char)
    requires |st| >= 1
    ensures a == sep ==> SnocParts([""] + st, c, sep) == [""] + SnocParts(st, c, sep)
    ensures a != sep ==> SnocParts([[a] + st[0]] + st[1..], c, sep)
                         == [[a] + SnocParts(st, c, sep)[0]] + SnocParts(st, c, sep)[1..]
  {
    var n := |st|;
    if a == sep && c != sep {
      assert ([""] + st)[..n] == [""] + st[..n - 1];
    }
    if a != sep {
      var whole := [[a] + st[0]] + st[1..];
      if c == sep {
        assert (st + [""])[1..] == st[1..] + [""];
      } else if n == 1 {
        assert [a] + (st[0] + [c]) == ([a] + st[0]) + [c];
      } else {
        var stc := SnocParts(st, c, sep);
        assert stc[0] == st[0];
        assert stc[1..] == st[1..n - 1] + [st[n - 1] + [c]];
        assert whole[..n - 1] == [[a] + st[0]] + st[1..n - 1];
      }
    }
  }

  /** A separator-free prefix only lengthens the first part. */
  lemma {:induction false} SplitOnPrefix(p: string, s: string, sep: char)
    requires sep !in p
    ensures SplitOn(p + s, sep) == [p + SplitOn(s, sep)[0]] + SplitOn(s, sep)[1..]
    decreases |p|
  {
    if p == [] {
      assert p + s == s;
      assert p + SplitOn(s, sep)[0] == SplitOn(s, sep)[0];
      assert SplitOn(s, sep) == [SplitOn(s, sep)[0]] + SplitOn(s, sep)[1..];
    } else {
      assert (p + s)[1..] == p[1..] + s;
      SplitOnPrefix(p[1..], s, sep);
      assert [p[0]] + (p[1..] + SplitOn(s, sep)[0]) == p + SplitOn(s, sep)[0];
    }
  }

  /** A separator between two texts separates their parts. */
  lemma {:induction false} SplitOnConcat(x: string, y: string, sep: char)
    ensures SplitOn(x + [sep] + y, sep) == SplitOn(x, sep) + SplitOn(y, sep)
    decreases |x|
  {
    if x == [] {
      assert x + [sep] + y == [sep] + y;
      assert ([sep] + y)[1..] == y;
    } else {
      SplitOnConcat(x[1..], y, sep);
      if x[0] == sep {
        SplitOnConcatSeparator(x, y, sep);
      } else {
        SplitOnConcatOther(x, y, sep);
      }
    }
  }

  /** The step of SplitOnConcat where `x` starts with the separator. */
  lemma SplitOnConcatSeparator(x: string, y: string, sep: char)
    requires x != [] && x[0] == sep
    requires SplitOn(x[1..] + [sep] + y, sep) == SplitOn(x[1..], sep) + SplitOn(y, sep)
    ensures SplitOn(x + [sep] + y, sep) == SplitOn(x, sep) + SplitOn(y, sep)
  {
    var a, b := SplitOn(x[1..], sep), SplitOn(y, sep);
    TailAround(x, sep, y);
    SplitOnSeparatorThen(x + [sep] + y, x[1..] + [sep] + y, a + b, sep);
    SplitOnSeparatorThen(x, x[1..], a, sep);
    ConsAssoc("", a, b);
  }

  /** The step of SplitOnConcat where `x` starts with another character. */
  lemma SplitOnConcatOther(x: string, y: string, sep: char)
    requires x != [] && x[0] != sep
    requires SplitOn(x[1..] + [sep] + y, sep) == SplitOn(x[1..], sep) + SplitOn(y, sep)
    ensures SplitOn(x + [sep] + y, sep) == SplitOn(x, sep) + SplitOn(y, sep)
  {
    var a, b := SplitOn(x[1..], sep), SplitOn(y, sep);
    TailAround(x, sep, y);
    SplitOnOtherThen(x + [sep] + y, x[1..] + [sep] + y, a, b, sep);
    SplitOnOtherThen(x, x[1..], a, [], sep);
    ConsAssoc([x[0]] + a[0], a[1..], b);
  }

  /** Dropping the first character of `x + [c] + y`, for a non-empty `x`. */
  lemma TailAround(x: string, c: char, y: string)
    requires x != []
    ensures (x + [c] + y)[1..] == x[1..] + [c] + y && (x + [c] + y)[0] == x[0]
  {
  }

  /** Regrouping after a leading element (the middle part may carry an empty tail). */
  lemma ConsAssoc<T>(h: T, p: seq<T>, q: seq<T>)
    ensures [h] + (p + q) == [h] + (p + []) + q
  {
    assert p + [] == p;
  }

  /** SplitOnSeparator with the parts of the rest given. */
  lemma SplitOnSeparatorThen(s: string, t: string, parts: seq<string>, sep: char)
    requires s != [] && s[0] == sep && s[1..] == t && SplitOn(t, sep) == parts
    ensures SplitOn(s, sep) == [""] + parts
  {
    SplitOnSeparator(s, sep);
  }

  /** SplitOnOther with the parts of the rest given as `a + b`. */
  lemma SplitOnOtherThen(s: string, t: string, a: seq<string>, b: seq<string>, sep: char)
    requires s != [] && s[0] != sep && s[1..] == t && |a| > 0 && SplitOn(t, sep) == a + b
    ensures SplitOn(s, sep) == [[s[0]] + a[0]] + (a[1..] + b)
  {
    SplitOnOther(s, sep);
    assert (a + b)[0] == a[0] && (a + b)[1..] == a[1..] + b;
  }

  /** A text starting with the separator: an empty part, then the parts of the rest. */
  lemma SplitOnSeparator(s: string, sep: char)
    requires s != [] && s[0] == sep
    ensures SplitOn(s, sep) == [""] + SplitOn(s[1..], sep)
  {
  }

  /** Any other text: its first character joins the first part of the rest. */
  lemma SplitOnOther(s: string, sep: char)
    requires s != [] && s[0] != sep
    ensures var rest := SplitOn(s[1..], sep);
            SplitOn(s, sep) == [[s[0]] + rest[0]] + rest[1..]
  {
  }

  /** Joins parts with a separator character between consecutive parts. */
  function Join(parts: seq<string>, sep: char): string
  {
    if |parts| == 0 then ""
    else if |parts| == 1 then parts[0]
    else parts[0] + [sep] + Join(parts[1..], sep)
  }

  /** Splitting and joining again gives back the text. */
  lemma {:induction false} JoinSplitOn(s: string, sep: char)
    ensures Join(SplitOn(s, sep), sep) == s
    decreases |s|
  {
    if s != [] {
      var rest := SplitOn(s[1..], sep);
      JoinSplitOn(s[1..], sep);
      if s[0] == sep {
        assert ([""] + rest)[1..] == rest;
      } else {
        var parts := [[s[0]] + rest[0]] + rest[1..];
        assert parts[1..] == rest[1..];
        if |rest| > 1 {
          assert Join(rest, sep) == rest[0] + [sep] + Join(rest[1..], sep);
        }
        assert [s[0]] + s[1..] == s;
      }
    }
  }

  /** Drops the empty parts at the end (Java `split` with limit 0). */
  function DropTrailingEmpty(parts: seq<string>): (r: seq<string>)
    ensures |r| <= |parts| && r == parts[..|r|]
    ensures forall k :: |r| <= k < |parts| ==> parts[k] == ""
    ensures |r| > 0 ==> Last(r) != ""
  {
    if parts == [] then []
    else if Last(parts) == "" then DropTrailingEmpty(parts[..|parts| - 1])
    else parts
  }

  /** String.split(String) for a one-character separator that is not a regex
      metacharacter: without a separator the text itself is the only part; otherwise
      the parts between separators, with the trailing empty parts dropped. */
  function JavaSplit(s: string, sep: char): seq<string>
  {
    if sep !in s then [s] else DropTrailingEmpty(SplitOn(s, sep))
  }

  /** The parts of Java's split are separator-free, and when the text holds a separator
      they are the leading parts of the full split, ending in a non-empty part. */
  lemma JavaSplitParts(s: string, sep: char)
    ensures forall k :: 0 <= k < |JavaSplit(s, sep)| ==> sep !in JavaSplit(s, sep)[k]
    ensures sep in s ==> JavaSplit(s, sep) == SplitOn(s, sep)[..|JavaSplit(s, sep)|]
    ensures sep in s && |JavaSplit(s, sep)| > 0 ==> Last(JavaSplit(s, sep)) != ""
  {
    SplitOnPartsFree(s, sep);
  }

  // ---------------------------------------------------------------------------
  // Counting and repetition
  // ---------------------------------------------------------------------------

  /** StringUtils.countOccurrences for a one-character needle. */
  function CountChar(s: string, c: char): nat
  {
    if s == [] then 0 else (if s[0] == c then 1 else 0) + CountChar(s[1..], c)
  }

  lemma {:induction false} CountCharConcat(a: string, b: string, c: char)
    ensures CountChar(a + b, c) == CountChar(a, c) + CountChar(b, c)
    decreases |a|
  {
    if a == [] {
      assert a + b == b;
    } else {
      assert (a + b)[1..] == a[1..] + b;
      CountCharConcat(a[1..], b, c);
    }
  }

  /** A text has one more part than it has separators. */
  lemma {:induction false} CountCharSplitOn(s: string, c: char)
    ensures CountChar(s, c) == |SplitOn(s, c)| - 1
    decreases |s|
  {
    if s != [] {
      CountCharSplitOn(s[1..], c);
    }
  }

  /** A character is counted zero times exactly when it does not occur. */
  lemma {:induction false} CountCharAbsent(s: string, c: char)
    ensures CountChar(s, c) == 0 <==> c !in s
    decreases |s|
  {
    if s != [] {
      CountCharAbsent(s[1..], c);
      assert s == [s[0]] + s[1..];
    }
  }

  /** StringUtils.repeat for a one-character string. */
  function Repeat(c: char, n: nat): (r: string)
    ensures |r| == n && forall i :: 0 <= i < n ==> r[i] == c
  {
    seq(n, _ => c)
  }

  /** Counting one character of a repetition. */
  lemma {:induction false} CountCharRepeat(c: char, n: nat, d: char)
    ensures CountChar(Repeat(c, n), d) == if c == d then n else 0
    decreases n
  {
    if n > 0 {
      assert Repeat(c, n)[1..] == Repeat(c, n - 1);
      CountCharRepeat(c, n - 1, d);
    }
  }

  /** Replacing the target by text holding as many `c` as the target keeps the count of
      `c`. */
  lemma {:induction false} CountCharReplace(s: string, target: string, replacement: string, c: char)
    requires |target| > 0 && CountChar(target, c) == CountChar(replacement, c)
    ensures CountChar(ReplaceAll(s, target, replacement), c) == CountChar(s, c)
    decreases |s|
  {
    if |s| < |target| {
    } else if s[..|target|] == target {
      var rest := s[|target|..];
      CountCharReplace(rest, target, replacement, c);
      CountCharConcat(replacement, ReplaceAll(rest, target, replacement), c);
      assert s == target + rest;
      CountCharConcat(target, rest, c);
    } else {
      CountCharReplace(s[1..], target, replacement, c);
      assert ([s[0]] + ReplaceAll(s[1..], target, replacement))[1..] == ReplaceAll(s[1..], target, replacement);
    }
  }

  /** The first character after replacing: the replacement's if the text starts with the
      target, the text's own otherwise. */
  lemma ReplaceHead(s: string, target: string, replacement: string)
    requires |target| > 0 && |replacement| > 0 && |s| > 0
    ensures var r := ReplaceAll(s, target, replacement);
            |r| > 0 && r[0] == if StartsWith(s, target) then replacement[0] else s[0]
  {
  }

  /** Replacing keeps a last character that the target and the replacement both end with. */
  lemma {:induction false} ReplaceKeepsLast(s: string, target: string, replacement: string, c: char)
    requires |target| > 0 && |replacement| > 0 && Last(target) == c && Last(replacement) == c
    requires |s| > 0 && Last(s) == c
    ensures var r := ReplaceAll(s, target, replacement); |r| > 0 && Last(r) == c
    decreases |s|
  {
    if |s| < |target| {
      ReplaceShort(s, target, replacement);
    } else if s[..|target|] == target {
      if |s| > |target| {
        assert Last(s[|target|..]) == c;
        ReplaceKeepsLast(s[|target|..], target, replacement, c);
      }
      ReplaceKeepsLastMatch(s, target, replacement, c);
    } else {
      if |s| > 1 {
        assert Last(s[1..]) == c;
        ReplaceKeepsLast(s[1..], target, replacement, c);
      }
      ReplaceKeepsLastOther(s, target, replacement, c);
    }
  }

  /** The step of ReplaceKeepsLast where the text starts with the target. */
  lemma ReplaceKeepsLastMatch(s: string, target: string, replacement: string, c: char)
    requires 0 < |target| <= |s| && s[..|target|] == target && |replacement| > 0 && Last(replacement) == c
    requires |s| > |target| ==> var r := ReplaceAll(s[|target|..], target, replacement); |r| > 0 && Last(r) == c
    ensures var r := ReplaceAll(s, target, replacement); |r| > 0 && Last(r) == c
  {
    var rest := s[|target|..];
    var r := ReplaceAll(rest, target, replacement);
    ReplaceMatch(s, target, replacement);
    if |s| == |target| {
      ReplaceShort(rest, target, replacement);
      assert replacement + r == replacement;
    }
  }

  /** The step of ReplaceKeepsLast where the text does not start with the target; it
      cannot then be a single character, for that character would be the target. */
  lemma ReplaceKeepsLastOther(s: string, target: string, replacement: string, c: char)
    requires 0 < |target| <= |s| && s[..|target|] != target && Last(target) == c && Last(s) == c
    requires |s| > 1 ==> var r := ReplaceAll(s[1..], target, replacement); |r| > 0 && Last(r) == c
    ensures var r := ReplaceAll(s, target, replacement); |r| > 0 && Last(r) == c
  {
    if |s| == 1 {
      assert false;
    }
    ReplaceOther(s, target, replacement);
  }

  /** A text ending with a one-character target ends, once replaced, with the replacement. */
  lemma {:induction false} ReplaceEndsWith(s: string, c: char, replacement: string)
    requires EndsWith(s, [c])
    ensures EndsWith(ReplaceAll(s, [c], replacement), replacement)
    decreases |s|
  {
    var rest := ReplaceAll(s[1..], [c], replacement);
    if |s| == 1 {
      assert s[..1] == [c];
      assert ReplaceAll(s, [c], replacement) == replacement + ReplaceAll([], [c], replacement);
    } else {
      assert s[1..][|s| - 2..] == s[|s| - 1..];
      ReplaceEndsWith(s[1..], c, replacement);
      if s[..1] == [c] {
        assert ReplaceAll(s, [c], replacement) == replacement + rest;
      } else {
        assert ReplaceAll(s, [c], replacement) == [s[0]] + rest;
      }
    }
  }

  /** Two safe ends make a safe end. */
  lemma SafeEndConcat(x: string, y: string, target: string)
    requires SafeEnd(x, target) && SafeEnd(y, target)
    ensures SafeEnd(x + y, target)
  {
    forall i | 0 <= i < |x + y| && |x + y| - i < |target|
      ensures !StartsWith(target, (x + y)[i..])
    {
      if i >= |x| {
        assert (x + y)[i..] == y[i - |x|..];
      } else {
        assert (x + y)[i..] == x[i..] + y;
      }
    }
  }

  /** A text without the target's first character neither holds the target nor ends
      with a part of it. */
  lemma HeadAbsent(s: string, target: string)
    requires |target| > 0 && target[0] !in s
    ensures !Contains(s, target) && SafeEnd(s, target)
  {
    forall i | 0 <= i <= |s| - |target|
      ensures !OccursAt(s, target, i)
    {
      assert s[i..i + |target|][0] == s[i];
    }
    forall i | 0 <= i < |s| && |s| - i < |target|
      ensures !StartsWith(target, s[i..])
    {
      assert s[i..][0] == s[i];
    }
  }

  /** An occurrence in the tail is an occurrence in the whole text. */
  lemma ContainsInTail(s: string, t: string)
    requires s != []
    ensures Contains(s[1..], t) ==> Contains(s, t)
  {
    if Contains(s[1..], t) {
      var i :| 0 <= i <= |s[1..]| - |t| && OccursAt(s[1..], t, i);
      assert s[1..][i..i + |t|] == s[i + 1..i + 1 + |t|];
      assert OccursAt(s, t, i + 1);
    }
  }

  /** No occurrence starts at the head of a non-empty text free of a head-unique target,
      even when a text starting with the target follows it. */
  lemma NoMatchBeforeTarget(p: string, t: string, u: string)
    requires HeadUnique(t) && !Contains(p, t) && p != [] && StartsWith(u, t)
    ensures (p + u)[..|t|] != t
  {
    var s := p + u;
    if |p| >= |t| {
      assert s[..|t|] == p[0..|t|];
      assert !OccursAt(p, t, 0);
    } else {
      assert s[..|t|][|p|] == u[0] == t[0];
      assert t[|p|] != t[0];
    }
  }

  /** A text free of a head-unique target and followed by a text starting with the
      target is kept as it is: no occurrence starts inside it, not even one running into
      the target. */
  lemma {:induction false} ReplaceBeforeTarget(p: string, t: string, u: string, replacement: string)
    requires HeadUnique(t) && !Contains(p, t) && StartsWith(u, t)
    ensures ReplaceAll(p + u, t, replacement) == p + ReplaceAll(u, t, replacement)
    decreases |p|
  {
    if p == [] {
      assert p + u == u;
    } else {
      assert ReplaceAll(p + u, t, replacement) == [p[0]] + ReplaceAll(p[1..] + u, t, replacement) by {
        NoMatchBeforeTarget(p, t, u);
        ReplaceOther(p + u, t, replacement);
        assert (p + u)[1..] == p[1..] + u;
      }
      assert !Contains(p[1..], t) by {
        ContainsInTail(p, t);
      }
      ReplaceBeforeTarget(p[1..], t, u, replacement);
      var r := ReplaceAll(u, t, replacement);
      assert [p[0]] + (p[1..] + r) == p + r;
    }
  }

  /** Deleting a one-character target leaves none of it. */
  lemma {:induction false} DeleteCharLeavesNone(s: string, c: char)
    ensures c !in ReplaceAll(s, [c], "")
    decreases |s|
  {
    if |s| >= 1 {
      DeleteCharLeavesNone(s[1..], c);
      if s[..1] != [c] {
        assert s[0] != c;
      }
    }
  }
}
