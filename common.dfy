/** Small value types and sequence helpers shared by both generations of the game. */
module Common {

  /** A value that may be absent (C# `null`, a nullable `int?`, a TypeScript `null`). */
  datatype Option<+T> = None | Some(value: T)

  /** The outcome of an operation that either returns a value or raises an error. */
  datatype Result<+T, +E> = Success(value: T) | Failure(error: E)

  function Max(a: int, b: int): int { if a >= b then a else b }

  function Min(a: int, b: int): int { if a <= b then a else b }

  /** Integer division as C# `/` and the `(int)` cast of a quotient compute it: rounded toward zero. */
  function TruncDiv(a: int, b: int): (q: int)
    requires b > 0
    ensures a >= 0 ==> 0 <= q && q * b <= a < q * b + b
    ensures a < 0 ==> q <= 0 && q * b - b < a <= q * b
  {
    if a >= 0 then a / b else -((-a) / b)
  }

  /** JavaScript's `Array.prototype.indexOf`: the first index holding `x`, or -1. */
  function IndexOf<T(==)>(s: seq<T>, x: T): (i: int)
    ensures -1 <= i < |s|
    ensures i == -1 <==> x !in s
    ensures 0 <= i ==> s[i] == x && x !in s[..i]
  {
    if s == [] then -1
    else if s[0] == x then 0
    else
      var j := IndexOf(s[1..], x);
      if j == -1 then -1
      else
        assert s[..j + 1] == [s[0]] + s[1..][..j];
        j + 1
  }

  /** `splice(i, 1)`: the sequence without its element at index `i`. */
  function RemoveAt<T>(s: seq<T>, i: int): (r: seq<T>)
    requires 0 <= i < |s|
    ensures |r| == |s| - 1
    ensures forall k :: 0 <= k < i ==> r[k] == s[k]
    ensures forall k :: i <= k < |r| ==> r[k] == s[k + 1]
  {
    s[..i] + s[i + 1..]
  }

  /** Removing the element at `i` takes exactly one copy of it out of the multiset. */
  lemma RemoveAtMultiset<T>(s: seq<T>, i: int)
    requires 0 <= i < |s|
    ensures multiset(RemoveAt(s, i)) + multiset{s[i]} == multiset(s)
  {
    assert s == s[..i] + [s[i]] + s[i + 1..];
  }

  /**
   * The selection toggle both front-end stores implement:
   * an absent id is pushed at the end, a present one loses its first occurrence.
   */
  function Toggled<T(==)>(s: seq<T>, x: T): seq<T>
  {
    var i := IndexOf(s, x);
    if i == -1 then s + [x] else RemoveAt(s, i)
  }

  /** No element occurs twice. */
  predicate NoDup<T(==)>(s: seq<T>)
  {
    forall i, j :: 0 <= i < j < |s| ==> s[i] != s[j]
  }

  /** Toggling adds exactly one `x` when it is absent and removes exactly one when it is present. */
  lemma ToggledMultiset<T>(s: seq<T>, x: T)
    ensures x !in s ==> multiset(Toggled(s, x)) == multiset(s) + multiset{x}
    ensures x in s ==> multiset(Toggled(s, x)) == multiset(s) - multiset{x}
  {
    var i := IndexOf(s, x);
    if i != -1 {
      assert s == s[..i] + [x] + s[i + 1..];
      calc {
        multiset(s);
        multiset(s[..i]) + multiset{x} + multiset(s[i + 1..]);
        multiset(Toggled(s, x)) + multiset{x};
      }
    }
  }

  /** Toggling flips the membership of `x` (for a duplicate-free selection) and of nothing else. */
  lemma ToggledMembership<T>(s: seq<T>, x: T)
    requires NoDup(s)
    ensures x in Toggled(s, x) <==> x !in s
    ensures forall y :: y != x ==> (y in Toggled(s, x) <==> y in s)
  {
    ToggledMultiset(s, x);
    if x in s {
      assert multiset(s)[x] == 1 by { SingleOccurrence(s, x); }
    }
    forall y | y != x ensures y in Toggled(s, x) <==> y in s {
      assert multiset(Toggled(s, x))[y] == multiset(s)[y];
    }
  }

  /** In a duplicate-free sequence an element occurs once. */
  lemma {:induction false} SingleOccurrence<T>(s: seq<T>, x: T)
    requires NoDup(s) && x in s
    ensures multiset(s)[x] == 1
  {
    assert s == [s[0]] + s[1..];
    if s[0] == x {
      assert x !in s[1..];
    } else {
      SingleOccurrence(s[1..], x);
    }
  }

  /** Toggling keeps a duplicate-free selection duplicate-free. */
  lemma ToggledNoDup<T>(s: seq<T>, x: T)
    requires NoDup(s)
    ensures NoDup(Toggled(s, x))
  {
    var i := IndexOf(s, x);
    var t := Toggled(s, x);
    if i == -1 {
      forall a, b | 0 <= a < b < |t| ensures t[a] != t[b] {
        if b == |s| { assert t[a] == s[a]; }
      }
    }
  }

  /** Toggling an absent id twice gives back the original selection. */
  lemma ToggledTwiceAbsent<T>(s: seq<T>, x: T)
    requires x !in s
    ensures Toggled(Toggled(s, x), x) == s
  {
    var t := s + [x];
    assert IndexOf(t, x) == |s| by {
      assert x !in t[..|s|] by { assert t[..|s|] == s; }
    }
    assert t[..|s|] == s;
  }

  /**
   * The distinct elements of `s` in order of first occurrence,
   * the order in which a .NET HashSet built from `s` (with no removals) enumerates them.
   */
  function Distinct<T(==)>(s: seq<T>): (r: seq<T>)
    ensures NoDup(r)
    ensures forall i :: 0 <= i < |s| ==> s[i] in r
    ensures forall i :: 0 <= i < |r| ==> r[i] in s
    ensures |r| <= |s|
  {
    if s == [] then []
    else
      var d := Distinct(s[..|s| - 1]);
      var last := s[|s| - 1];
      assert s == s[..|s| - 1] + [last];
      if last in d then d else d + [last]
  }

  /** LINQ `Where`: the elements satisfying `p`, in their original order. */
  function Filter<T>(s: seq<T>, p: T -> bool): (r: seq<T>)
    ensures |r| <= |s|
    ensures forall i :: 0 <= i < |r| ==> r[i] in s && p(r[i])
    ensures forall i :: 0 <= i < |s| && p(s[i]) ==> s[i] in r
  {
    if s == [] then []
    else (if p(s[0]) then [s[0]] else []) + Filter(s[1..], p)
  }

  /** An element is kept by a filter exactly when it occurs and passes. */
  lemma FilterMember<T>(s: seq<T>, p: T -> bool, x: T)
    ensures x in Filter(s, p) <==> x in s && p(x)
  {
    if x in s && p(x) {
      var i :| 0 <= i < |s| && s[i] == x;
    }
  }

  /** Two different positions holding the same value make it occur at least twice. */
  lemma CountAtLeastTwo<T>(r: seq<T>, i: int, j: int)
    requires 0 <= i < j < |r|
    ensures r[i] == r[j] ==> multiset(r)[r[i]] >= 2
  {
    assert r == r[..j] + [r[j]] + r[j + 1..];
    assert r[i] in r[..j];
  }

  /** Filtering a sequence extended by one element. */
  lemma {:induction false} FilterAppend<T>(s: seq<T>, x: T, p: T -> bool)
    ensures Filter(s + [x], p) == Filter(s, p) + (if p(x) then [x] else [])
  {
    if s != [] {
      assert (s + [x])[1..] == s[1..] + [x];
      FilterAppend(s[1..], x, p);
    }
  }

  /** An element and its predicate's complement split a sequence's length. */
  lemma {:induction false} FilterPartition<T>(s: seq<T>, p: T -> bool, q: T -> bool)
    requires forall x :: q(x) == !p(x)
    ensures |Filter(s, p)| + |Filter(s, q)| == |s|
  {
    if s != [] {
      FilterPartition(s[1..], p, q);
    }
  }

  /** Filtering keeps a duplicate-free sequence duplicate-free. */
  lemma {:induction false} FilterNoDup<T>(s: seq<T>, p: T -> bool)
    requires NoDup(s)
    ensures NoDup(Filter(s, p))
  {
    if s != [] {
      FilterNoDup(s[1..], p);
      assert s[0] !in s[1..];
      var rest := Filter(s[1..], p);
      assert s[0] !in rest;
    }
  }

  /** A duplicate-free sequence has as many elements as its set. */
  lemma {:induction false} NoDupCardinality<T>(s: seq<T>)
    requires NoDup(s)
    ensures |set x | x in s| == |s|
  {
    if s != [] {
      NoDupCardinality(s[1..]);
      assert (set x | x in s) == {s[0]} + (set x | x in s[1..]);
      assert s[0] !in s[1..];
    }
  }

  /** Two duplicate-free sequences with the same elements have the same length. */
  lemma SameElementsSameLength<T>(a: seq<T>, b: seq<T>)
    requires NoDup(a) && NoDup(b)
    requires (set x | x in a) == (set x | x in b)
    ensures |a| == |b|
  {
    NoDupCardinality(a);
    NoDupCardinality(b);
  }

  /** Filtering distributes over concatenation. */
  lemma {:induction false} FilterConcat<T>(a: seq<T>, b: seq<T>, p: T -> bool)
    ensures Filter(a + b, p) == Filter(a, p) + Filter(b, p)
  {
    if a == [] {
      assert a + b == b;
    } else {
      assert (a + b)[0] == a[0];
      assert (a + b)[1..] == a[1..] + b;
      FilterConcat(a[1..], b, p);
    }
  }

  /** Where the elements of the three parts of a concatenation sit. */
  lemma ConcatIndex<T>(a: seq<T>, b: seq<T>, c: seq<T>)
    ensures |a + b + c| == |a| + |b| + |c|
    ensures forall k :: 0 <= k < |a| ==> (a + b + c)[k] == a[k]
    ensures forall k :: |a| <= k < |a| + |b| ==> (a + b + c)[k] == b[k - |a|]
    ensures forall k :: |a| + |b| <= k < |a| + |b| + |c| ==> (a + b + c)[k] == c[k - |a| - |b|]
  {
  }

  /** The three parts of a concatenation, sliced back out. */
  lemma ConcatThreeSlices<T>(a: seq<T>, b: seq<T>, c: seq<T>)
    ensures (a + b + c)[..|a|] == a
    ensures (a + b + c)[|a|..|a| + |b|] == b
    ensures (a + b + c)[|a| + |b|..] == c
  {
    ConcatIndex(a, b, c);
    assert (a + b + c)[..|a|] == a;
    assert (a + b + c)[|a|..|a| + |b|] == b;
    assert (a + b + c)[|a| + |b|..] == c;
  }

  /** A slice of the middle part of a concatenation is that slice of the part. */
  lemma SliceInMiddle<T>(x: seq<T>, m: seq<T>, y: seq<T>, a: nat, b: nat)
    requires a <= b <= |m|
    ensures (x + m + y)[|x| + a..|x| + b] == m[a..b]
  {
    var s := (x + m + y)[|x| + a..|x| + b];
    assert forall j :: 0 <= j < b - a ==> s[j] == (x + m + y)[|x| + a + j] == m[a + j];
  }

  /** A slice of a slice is a slice of the whole. */
  lemma SliceOfSlice<T>(s: seq<T>, lo: nat, hi: nat, a: nat, b: nat)
    requires lo <= hi <= |s| && a <= b <= hi - lo
    ensures s[lo..hi][a..b] == s[lo + a..lo + b]
  {
    var w := s[lo..hi][a..b];
    assert forall j :: 0 <= j < b - a ==> w[j] == s[lo..hi][a + j] == s[lo + a + j];
  }

  /** A filter every element passes keeps the whole sequence. */
  lemma {:induction false} FilterAll<T>(s: seq<T>, p: T -> bool)
    requires forall i :: 0 <= i < |s| ==> p(s[i])
    ensures Filter(s, p) == s
  {
    if s != [] {
      FilterAll(s[1..], p);
    }
  }

  /** A filter no element passes keeps nothing. */
  lemma {:induction false} FilterNone<T>(s: seq<T>, p: T -> bool)
    requires forall i :: 0 <= i < |s| ==> !p(s[i])
    ensures Filter(s, p) == []
  {
    if s != [] {
      FilterNone(s[1..], p);
    }
  }
}
