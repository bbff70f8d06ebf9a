/** String helpers with the semantics of the Rust and Python library calls the worker uses. */
module Text {
  import opened Common

  predicate StartsWith(s: string, p: string) {
    |p| <= |s| && s[..|p|] == p
  }

  predicate EndsWith(s: string, p: string) {
    |p| <= |s| && s[|s| - |p|..] == p
  }

  function AsciiLowerChar(c: char): char {
    if 'A' <= c <= 'Z' then (c as int + 32) as char else c
  }

  /** Lower-casing of ASCII letters; every other character is kept. */
  function AsciiLower(s: string): string {
    seq(|s|, i requires 0 <= i < |s| => AsciiLowerChar(s[i]))
  }

  /** Lower-casing is idempotent, so a lower-cased extension dispatches like itself. */
  lemma AsciiLowerIdempotent(s: string)
    ensures AsciiLower(AsciiLower(s)) == AsciiLower(s)
  {
  }

  /** `c` with an ASCII lower-case letter raised to upper case; every other character is kept. */
  function AsciiUpperChar(c: char): char {
    if 'a' <= c <= 'z' then (c as int - 32) as char else c
  }

  /** `s` spells `word` in any mix of ASCII letter case, `word` being written in lower case. */
  predicate SpellsIgnoringCase(s: string, word: string) {
    |s| == |word| && forall i :: 0 <= i < |s| ==> s[i] == word[i] || s[i] == AsciiUpperChar(word[i])
  }

  /** Lower-casing gives a lower-case `word` exactly when the text spells that word in some mix of case. */
  lemma LowerSpells(s: string, word: string)
    requires forall i :: 0 <= i < |word| ==> !('A' <= word[i] <= 'Z')
    ensures AsciiLower(s) == word <==> SpellsIgnoringCase(s, word)
  {
    if AsciiLower(s) == word {
      forall i | 0 <= i < |s|
        ensures s[i] == word[i] || s[i] == AsciiUpperChar(word[i])
      {
        assert AsciiLowerChar(s[i]) == word[i];
      }
    }
    if SpellsIgnoringCase(s, word) {
      forall i | 0 <= i < |s|
        ensures AsciiLower(s)[i] == word[i]
      {
        assert AsciiLower(s)[i] == AsciiLowerChar(s[i]);
      }
    }
  }

  /** Index of the last occurrence of `c` in `s` (Rust `rfind`, Python `str.rfind`). */
  function LastIndexOf(s: string, c: char): (r: Option<nat>)
    ensures r.Some? ==> r.value < |s| && s[r.value] == c && c !in s[r.value + 1..]
    ensures r.None? ==> c !in s
    decreases |s|
  {
    if |s| == 0 then None
    else if s[|s| - 1] == c then Some(|s| - 1)
    else
      var r := LastIndexOf(s[..|s| - 1], c);
      assert s == s[..|s| - 1] + [s[|s| - 1]];
      r
  }

  /** The last `c` is the one with no `c` after it. */
  lemma {:induction false} LastIndexOfAfter(a: string, c: char, b: string)
    requires c !in b
    ensures LastIndexOf(a + [c] + b, c) == Some(|a|)
    decreases |b|
  {
    var s := a + [c] + b;
    if |b| > 0 {
      assert s[|s| - 1] == b[|b| - 1] && b[|b| - 1] in b;
      assert s[..|s| - 1] == a + [c] + b[..|b| - 1];
      assert b == b[..|b| - 1] + [b[|b| - 1]];
      LastIndexOfAfter(a, c, b[..|b| - 1]);
    }
  }

  lemma {:induction false} LastIndexOfNone(s: string, c: char)
    requires c !in s
    ensures LastIndexOf(s, c) == None
    decreases |s|
  {
    if |s| > 0 {
      assert s[|s| - 1] in s;
      assert s == s[..|s| - 1] + [s[|s| - 1]];
      LastIndexOfNone(s[..|s| - 1], c);
    }
  }

  /** `n` copies of `p` back to back. */
  function Repeat(p: string, n: nat): string {
    if n == 0 then "" else Repeat(p, n - 1) + p
  }

  /** Rust `str::trim_end_matches(p)` for a non-empty string pattern: strip `p` from the end as long as it is there. */
  function TrimEnd(s: string, p: string): string
    requires |p| > 0
    decreases |s|
  {
    if EndsWith(s, p) then TrimEnd(s[..|s| - |p|], p) else s
  }

  /** How many copies of `p` `TrimEnd` removes. */
  function TrimCount(s: string, p: string): nat
    requires |p| > 0
    decreases |s|
  {
    if EndsWith(s, p) then TrimCount(s[..|s| - |p|], p) + 1 else 0
  }

  /** `TrimEnd` splits `s` into a remainder that no longer ends with `p` followed by whole copies of `p`. */
  lemma {:induction false} TrimEndSplits(s: string, p: string)
    requires |p| > 0
    ensures s == TrimEnd(s, p) + Repeat(p, TrimCount(s, p))
    ensures !EndsWith(TrimEnd(s, p), p)
    decreases |s|
  {
    if EndsWith(s, p) {
      var t := s[..|s| - |p|];
      TrimEndSplits(t, p);
      assert s == t + p;
    }
  }

  /** Whether `pat` occurs anywhere in `s`. */
  predicate Occurs(s: string, pat: string)
    requires |pat| > 0
    decreases |s|
  {
    |pat| <= |s| && (s[..|pat|] == pat || Occurs(s[1..], pat))
  }

  /** Python `s.replace(pat, "")`: remove every occurrence found scanning left to right. */
  function RemoveAll(s: string, pat: string): string
    requires |pat| > 0
    decreases |s|
  {
    if |s| < |pat| then s
    else if s[..|pat|] == pat then RemoveAll(s[|pat|..], pat)
    else [s[0]] + RemoveAll(s[1..], pat)
  }

  /** Removing a pattern that does not occur leaves the string as it is. */
  lemma {:induction false} RemoveAllAbsent(s: string, pat: string)
    requires |pat| > 0 && !Occurs(s, pat)
    ensures RemoveAll(s, pat) == s
    decreases |s|
  {
    if |s| >= |pat| {
      RemoveAllAbsent(s[1..], pat);
      assert [s[0]] + s[1..] == s;
    }
  }

  /** A leading occurrence is removed, and nothing else changes when the rest holds none. */
  lemma RemoveAllLeading(pat: string, rest: string)
    requires |pat| > 0 && !Occurs(rest, pat)
    ensures RemoveAll(pat + rest, pat) == rest
  {
    assert (pat + rest)[..|pat|] == pat;
    assert (pat + rest)[|pat|..] == rest;
    RemoveAllAbsent(rest, pat);
  }
}
