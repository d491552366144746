/** StringUtils.matchesGlob is not part of this model. The recipes document their name
    patterns as case-insensitive globs, so this module defines one: `*` matches any run
    of characters, `?` any single character, and every other character matches itself
    with ASCII case ignored. */
module Glob {
  import opened Strings

  function Matches(value: string, pattern: string): bool
    decreases |pattern| + |value|
  {
    if pattern == [] then value == []
    else if pattern[0] == '*' then
      Matches(value, pattern[1..]) || (value != [] && Matches(value[1..], pattern))
    else
      value != [] && (pattern[0] == '?' || UpperAscii(pattern[0]) == UpperAscii(value[0]))
      && Matches(value[1..], pattern[1..])
  }

  predicate Literal(pattern: string) {
    forall i :: 0 <= i < |pattern| ==> pattern[i] != '*' && pattern[i] != '?'
  }

  /** A pattern without wildcards matches exactly the names equal to it up to case. */
  lemma {:induction false} LiteralMatches(value: string, pattern: string)
    requires Literal(pattern)
    ensures Matches(value, pattern) <==> EqualsIgnoreCase(value, pattern)
    decreases |pattern|
  {
    if pattern != [] && value != [] {
      LiteralMatches(value[1..], pattern[1..]);
      if EqualsIgnoreCase(value, pattern) {
        assert EqualsIgnoreCase(value[1..], pattern[1..]) by {
          forall i | 0 <= i < |value[1..]|
            ensures UpperAscii(value[1..][i]) == UpperAscii(pattern[1..][i])
          {
            assert value[1..][i] == value[i + 1];
          }
        }
      }
    }
  }

  /** A lone `*` matches every name. */
  lemma {:induction false} StarMatchesAll(value: string)
    ensures Matches(value, "*")
    decreases |value|
  {
    if value != [] {
      StarMatchesAll(value[1..]);
    }
  }
}
