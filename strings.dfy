/**
 * The string primitives the services rely on: lower-casing, ordinal and
 * ignore-case substring search, and splitting and joining on one character.
 * Case folding covers ASCII letters only.
 */
module Strings {
  import opened Common

  function LowerChar(c: char): char
  {
    if 'A' <= c <= 'Z' then (c as int + 32) as char else c
  }

  /** `ToLower()`: a string of the same length whose every character is folded. */
  function Lower(s: string): (r: string)
    ensures |r| == |s|
    ensures forall i :: 0 <= i < |s| ==> r[i] == LowerChar(s[i])
  {
    seq(|s|, i requires 0 <= i < |s| => LowerChar(s[i]))
  }

  /** Lower-casing commutes with taking a slice. */
  lemma LowerSlice(s: string, a: int, b: int)
    requires 0 <= a <= b <= |s|
    ensures Lower(s)[a..b] == Lower(s[a..b])
  {
  }

  /** Ordinal comparison that ignores the case of letters. */
  predicate EqualsIgnoreCase(a: string, b: string)
  {
    Lower(a) == Lower(b)
  }

  /** `pat` occurs verbatim in `text` starting at index `i`. */
  predicate OccursAt(text: string, pat: string, i: int)
  {
    0 <= i && i + |pat| <= |text| && text[i..i + |pat|] == pat
  }

  /** The first index at or after `from` where `pat` occurs in `text`. */
  function IndexOfFrom(text: string, pat: string, from: nat): (r: Option<nat>)
    decreases |text| - from
    ensures r.Some? ==> from <= r.value && OccursAt(text, pat, r.value)
    ensures r.Some? ==> forall j :: from <= j < r.value ==> !OccursAt(text, pat, j)
    ensures r.None? ==> forall j :: from <= j ==> !OccursAt(text, pat, j)
  {
    if from + |pat| > |text| then None
    else if text[from..from + |pat|] == pat then Some(from)
    else IndexOfFrom(text, pat, from + 1)
  }

  /** Ordinal `IndexOf`: the first index where `pat` occurs in `text`, if any. */
  function IndexOf(text: string, pat: string): (r: Option<nat>)
    ensures r.Some? ==> OccursAt(text, pat, r.value)
    ensures r.Some? ==> forall j :: 0 <= j < r.value ==> !OccursAt(text, pat, j)
    ensures r.None? ==> forall j :: 0 <= j ==> !OccursAt(text, pat, j)
  {
    IndexOfFrom(text, pat, 0)
  }

  /** An occurrence at `i` means the search succeeds, no later than `i`. */
  lemma IndexOfFindsOccurrence(text: string, pat: string, i: int)
    requires OccursAt(text, pat, i)
    ensures IndexOf(text, pat).Some? && IndexOf(text, pat).value <= i
  {
  }

  /** The window of `text` at `i` equals `pat` ignoring case. */
  predicate MatchesIgnoreCaseAt(text: string, pat: string, i: int)
  {
    0 <= i && i + |pat| <= |text| && EqualsIgnoreCase(text[i..i + |pat|], pat)
  }

  /** `IndexOf(pat, StringComparison.OrdinalIgnoreCase)`: the first window equal to `pat` ignoring case. */
  function IndexOfIgnoreCase(text: string, pat: string): (r: Option<nat>)
    ensures r.Some? ==> MatchesIgnoreCaseAt(text, pat, r.value)
    ensures r.Some? ==> forall j :: 0 <= j < r.value ==> !MatchesIgnoreCaseAt(text, pat, j)
    ensures r.None? ==> forall j :: !MatchesIgnoreCaseAt(text, pat, j)
  {
    LowerSearch(text, pat);
    IndexOf(Lower(text), Lower(pat))
  }

  /** Searching the lower-cased strings compares every window ignoring case. */
  lemma LowerSearch(text: string, pat: string)
    ensures forall j :: OccursAt(Lower(text), Lower(pat), j) <==> MatchesIgnoreCaseAt(text, pat, j)
  {
    forall j | 0 <= j && j + |pat| <= |text|
      ensures OccursAt(Lower(text), Lower(pat), j) <==> MatchesIgnoreCaseAt(text, pat, j)
    {
      LowerSlice(text, j, j + |pat|);
    }
  }

  /** A verbatim occurrence is also found by the ignore-case search, no later. */
  lemma IgnoreCaseFindsOccurrence(text: string, pat: string, i: int)
    requires OccursAt(text, pat, i)
    ensures IndexOfIgnoreCase(text, pat).Some? && IndexOfIgnoreCase(text, pat).value <= i
  {
    LowerSlice(text, i, i + |pat|);
    IndexOfFindsOccurrence(Lower(text), Lower(pat), i);
  }

  /** `String.Join(sep, parts)`. */
  function Join(parts: seq<string>, sep: char): string
  {
    if |parts| == 0 then ""
    else if |parts| == 1 then parts[0]
    else parts[0] + [sep] + Join(parts[1..], sep)
  }

  /** `s.Split(sep)`: the pieces between separators, empty pieces included, so joining them gives `s` back. */
  function Split(s: string, sep: char): (r: seq<string>)
    decreases |s|
    ensures |r| >= 1
    ensures forall k :: 0 <= k < |r| ==> sep !in r[k]
    ensures Join(r, sep) == s
  {
    var i := Common.IndexOf(s, sep);
    if i == -1 then [s]
    else
      var rest := Split(s[i + 1..], sep);
      JoinCons(s[..i], rest, sep);
      assert s == s[..i] + [sep] + s[i + 1..];
      [s[..i]] + rest
  }

  lemma JoinCons(a: string, rest: seq<string>, sep: char)
    requires |rest| >= 1
    ensures Join([a] + rest, sep) == a + [sep] + Join(rest, sep)
  {
    assert ([a] + rest)[1..] == rest;
  }

  /** Where the `k`-th part starts inside `Join(parts, sep)`. */
  function PartOffset(parts: seq<string>, k: nat): nat
    requires k <= |parts|
  {
    if k == 0 then 0 else |parts[0]| + 1 + PartOffset(parts[1..], k - 1)
  }

  /** Every part of a join occurs verbatim at its offset. */
  lemma {:induction false} JoinContainsPart(parts: seq<string>, sep: char, k: nat)
    requires k < |parts|
    ensures OccursAt(Join(parts, sep), parts[k], PartOffset(parts, k))
  {
    if k == 0 {
      if |parts| > 1 {
        assert Join(parts, sep)[..|parts[0]|] == parts[0];
      }
    } else {
      JoinContainsPart(parts[1..], sep, k - 1);
      var tail := Join(parts[1..], sep);
      var o := PartOffset(parts[1..], k - 1);
      assert Join(parts, sep) == parts[0] + [sep] + tail;
      assert Join(parts, sep)[|parts[0]| + 1 + o..|parts[0]| + 1 + o + |parts[k]|] == tail[o..o + |parts[k]|];
    }
  }
}
