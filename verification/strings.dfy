/** The few string primitives of JavaScript that the loader relies on,
    restricted to what the model needs. */
module Strings {
  import opened Wrappers

  predicate IsLower(c: char) {
    'a' <= c <= 'z'
  }

  /** ASCII upper-casing: `toUpperCase` / `toLocaleUpperCase` on `a`..`z`;
      every other character is returned unchanged. */
  function ToUpper(c: char): (u: char)
    ensures IsLower(c) ==> 'A' <= u <= 'Z' && u as int == c as int - 32
    ensures !IsLower(c) ==> u == c
  {
    if IsLower(c) then (c as int - 32) as char else c
  }

  predicate EndsWith(s: string, suffix: string) {
    |suffix| <= |s| && s[|s| - |suffix|..] == suffix
  }

  /** `pat` occurs in `s` starting at index `i`. */
  predicate MatchesAt(s: string, pat: string, i: nat) {
    i + |pat| <= |s| && s[i..i + |pat|] == pat
  }

  /** A concatenation ends with its last part. */
  lemma EndsWithAppend(a: string, b: string)
    ensures EndsWith(a + b, b)
  {
    assert (a + b)[|a|..] == b;
  }

  /** The middle part of a three-way concatenation occurs right after the
      first part. */
  lemma MatchesAtMiddle(a: string, b: string, c: string)
    ensures MatchesAt(a + b + c, b, |a|)
  {
    assert (a + b + c)[|a|..|a| + |b|] == b;
  }

  /** `s.indexOf(pat, from)`: the first index at or after `from` where
      `pat` occurs, or None. */
  function IndexOfFrom(s: string, pat: string, from: nat): (r: Option<nat>)
    decreases |s| - from
    ensures r.Some? ==> from <= r.value && MatchesAt(s, pat, r.value)
    ensures r.Some? ==> forall j :: from <= j < r.value ==> !MatchesAt(s, pat, j)
    ensures r.None? ==> forall j :: from <= j ==> !MatchesAt(s, pat, j)
  {
    if from + |pat| > |s| then None
    else if s[from..from + |pat|] == pat then Some(from)
    else IndexOfFrom(s, pat, from + 1)
  }

  /** `s.replace(pat, '')` with a string pattern: only the first
      occurrence of `pat` is removed; without one, `s` is unchanged. */
  function RemoveFirst(s: string, pat: string): (r: string)
    ensures |r| <= |s|
    ensures r == s || |r| == |s| - |pat|
  {
    match IndexOfFrom(s, pat, 0)
    case None => s
    case Some(i) => s[..i] + s[i + |pat|..]
  }

  /** `key.charAt(0).toUpperCase() + key.slice(1)`. */
  function Capitalize(key: string): (r: string)
    ensures |r| == |key|
    ensures |key| > 0 ==> r[0] == ToUpper(key[0]) && r[1..] == key[1..]
  {
    if |key| == 0 then "" else [ToUpper(key[0])] + key[1..]
  }

  /** When the root occurs at the very front of a path, removing its first
      occurrence is the same as dropping it as a prefix. */
  lemma RemoveFirstOfPrefix(s: string, root: string)
    requires |root| <= |s| && s[..|root|] == root
    ensures RemoveFirst(s, root) == s[|root|..]
  {
    assert MatchesAt(s, root, 0);
  }

  /** When the pattern does not occur at all, the string is unchanged;
      when it does, exactly `|pat|` characters disappear. */
  lemma RemoveFirstLength(s: string, pat: string)
    ensures (forall j :: !MatchesAt(s, pat, j)) ==> RemoveFirst(s, pat) == s
    ensures (exists j :: MatchesAt(s, pat, j)) ==> |RemoveFirst(s, pat)| == |s| - |pat|
  {
    if exists j :: MatchesAt(s, pat, j) {
      var j :| MatchesAt(s, pat, j);
      var r := IndexOfFrom(s, pat, 0);
      assert r.Some?;
    }
  }
}
