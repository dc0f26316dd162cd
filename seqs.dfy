/**
 * Sequence helpers shared by the agents: `min`/`max`, Python slicing `s[:n]`,
 * list filtering, and the stable descending sort that stands for both
 * `list.sort(key=..., reverse=True)` and an SQL `ORDER BY ... DESC`.
 */
module Seqs {

  function Min(a: int, b: int): int { if a <= b then a else b }

  function Max(a: int, b: int): int { if a <= b then b else a }

  function MinReal(a: real, b: real): real { if a <= b then a else b }

  function MaxReal(a: real, b: real): real { if a <= b then b else a }

  /** Python's `s[:n]` for a non-negative `n`. */
  function Take<T>(s: seq<T>, n: nat): (r: seq<T>)
    ensures |r| == Min(n, |s|)
    ensures r == s[..|r|]
  {
    if n <= |s| then s[..n] else s
  }

  /**
   * Python's `s[a:b]` for non-negative bounds: each bound is cut down to the
   * length, and the slice is empty when the lower bound is not below the upper.
   */
  function Slice<T>(s: seq<T>, a: nat, b: nat): (r: seq<T>)
    ensures |r| == Max(0, Min(b, |s|) - Min(a, |s|))
    ensures a <= b <= |s| ==> r == s[a..b]
    ensures forall k :: 0 <= k < |r| ==> r[k] == s[Min(a, |s|) + k]
  {
    var lo := Min(a, |s|);
    s[lo..Max(lo, Min(b, |s|))]
  }

  /** The elements of `s` that satisfy `p`, in their original order. */
  function Filter<T>(s: seq<T>, p: T -> bool): (r: seq<T>)
    ensures |r| <= |s|
    ensures forall k :: 0 <= k < |r| ==> p(r[k])
    ensures forall k :: 0 <= k < |r| ==> r[k] in s
    ensures forall k :: 0 <= k < |s| && p(s[k]) ==> s[k] in r
    decreases |s|
  {
    if |s| == 0 then []
    else Filter(s[..|s| - 1], p) + (if p(s[|s| - 1]) then [s[|s| - 1]] else [])
  }

  /** One more element at the end of the input adds at most that element at the end of the output. */
  lemma FilterSnoc<T>(s: seq<T>, x: T, p: T -> bool)
    ensures Filter(s + [x], p) == Filter(s, p) + (if p(x) then [x] else [])
  {
    assert (s + [x])[..|s + [x]| - 1] == s;
  }

  lemma {:induction false} FilterAll<T>(s: seq<T>, p: T -> bool)
    requires forall k :: 0 <= k < |s| ==> p(s[k])
    ensures Filter(s, p) == s
    decreases |s|
  {
    if |s| > 0 {
      FilterAll(s[..|s| - 1], p);
      assert s[..|s| - 1] + [s[|s| - 1]] == s;
    }
  }

  /** `[f(x) for x in s if keep(x)]`. */
  function FilterMap<A, B>(s: seq<A>, keep: A -> bool, f: A -> B): (r: seq<B>)
    ensures |r| <= |s|
    decreases |s|
  {
    if |s| == 0 then []
    else FilterMap(s[..|s| - 1], keep, f) + (if keep(s[|s| - 1]) then [f(s[|s| - 1])] else [])
  }

  lemma FilterMapSnoc<A, B>(s: seq<A>, keep: A -> bool, f: A -> B, i: int)
    requires 0 <= i < |s|
    ensures FilterMap(s[..i + 1], keep, f) == FilterMap(s[..i], keep, f) + (if keep(s[i]) then [f(s[i])] else [])
  {
    assert s[..i + 1][..i] == s[..i];
  }

  /** When every element is kept, the comprehension maps each element in place. */
  lemma {:induction false} FilterMapAllKept<A, B>(s: seq<A>, keep: A -> bool, f: A -> B)
    requires forall k :: 0 <= k < |s| ==> keep(s[k])
    ensures |FilterMap(s, keep, f)| == |s|
    ensures forall k :: 0 <= k < |s| ==> FilterMap(s, keep, f)[k] == f(s[k])
    decreases |s|
  {
    if |s| > 0 {
      var init := s[..|s| - 1];
      FilterMapAllKept(init, keep, f);
      assert forall k :: 0 <= k < |init| ==> init[k] == s[k];
    }
  }

  predicate SortedDesc<T>(s: seq<T>, key: T -> real)
  {
    forall i, j :: 0 <= i < j < |s| ==> key(s[i]) >= key(s[j])
  }

  /**
   * Inserts `x` in front of the first element whose key is not larger than
   * its own, so that `x` precedes every element of equal key that follows it.
   */
  function InsertDesc<T>(x: T, s: seq<T>, key: T -> real): (r: seq<T>)
    ensures |r| == |s| + 1
    ensures multiset(r) == multiset(s) + multiset{x}
    decreases |s|
  {
    if |s| == 0 then [x]
    else if key(s[0]) <= key(x) then [x] + s
    else
      assert s == [s[0]] + s[1..];
      [s[0]] + InsertDesc(x, s[1..], key)
  }

  /** A bound on the keys of `s` and of `x` bounds the keys after insertion. */
  lemma {:induction false} InsertDescBounded<T>(x: T, s: seq<T>, key: T -> real, b: real)
    requires key(x) <= b
    requires forall k :: 0 <= k < |s| ==> key(s[k]) <= b
    ensures forall k :: 0 <= k < |InsertDesc(x, s, key)| ==> key(InsertDesc(x, s, key)[k]) <= b
    decreases |s|
  {
    if |s| > 0 && key(s[0]) > key(x) {
      InsertDescBounded(x, s[1..], key, b);
    }
  }

  /** An element whose key bounds a sorted sequence can go in front of it. */
  lemma ConsSorted<T>(a: T, t: seq<T>, key: T -> real)
    requires SortedDesc(t, key)
    requires forall k :: 0 <= k < |t| ==> key(t[k]) <= key(a)
    ensures SortedDesc([a] + t, key)
  {
    var r := [a] + t;
    forall i, j | 0 <= i < j < |r|
      ensures key(r[i]) >= key(r[j])
    {
      assert r[j] == t[j - 1];
      if i > 0 {
        assert r[i] == t[i - 1];
      }
    }
  }

  /** Inserting into a sorted sequence keeps it sorted. */
  lemma {:induction false} InsertDescSorted<T>(x: T, s: seq<T>, key: T -> real)
    requires SortedDesc(s, key)
    ensures SortedDesc(InsertDesc(x, s, key), key)
    decreases |s|
  {
    if |s| == 0 {
    } else if key(s[0]) <= key(x) {
      ConsSorted(x, s, key);
    } else {
      var tail := s[1..];
      assert SortedDesc(tail, key);
      InsertDescSorted(x, tail, key);
      InsertDescBounded(x, tail, key, key(s[0]));
      ConsSorted(s[0], InsertDesc(x, tail, key), key);
    }
  }

  /**
   * Stable sort by non-increasing key; stands for Python's
   * `sort(key=key, reverse=True)`, which keeps equal keys in input order.
   */
  function SortDesc<T>(s: seq<T>, key: T -> real): (r: seq<T>)
    ensures |r| == |s|
    ensures multiset(r) == multiset(s)
    ensures SortedDesc(r, key)
    decreases |s|
  {
    if |s| == 0 then []
    else
      assert s == [s[0]] + s[1..];
      var t := SortDesc(s[1..], key);
      InsertDescSorted(s[0], t, key);
      InsertDesc(s[0], t, key)
  }

  /** Sorting neither adds nor loses elements. */
  lemma SortDescSameElements<T>(s: seq<T>, key: T -> real)
    ensures forall k :: 0 <= k < |SortDesc(s, key)| ==> SortDesc(s, key)[k] in s
    ensures forall k :: 0 <= k < |s| ==> s[k] in SortDesc(s, key)
  {
    var r := SortDesc(s, key);
    forall k | 0 <= k < |r|
      ensures r[k] in s
    {
      assert r[k] in multiset(r);
    }
    forall k | 0 <= k < |s|
      ensures s[k] in r
    {
      assert s[k] in multiset(s);
    }
  }

  /** The elements of `s` whose key is exactly `v`, in order. */
  function WithKey<T>(s: seq<T>, key: T -> real, v: real): seq<T>
    decreases |s|
  {
    if |s| == 0 then []
    else (if key(s[0]) == v then [s[0]] else []) + WithKey(s[1..], key, v)
  }

  lemma WithKeyCons<T>(a: T, t: seq<T>, key: T -> real, v: real)
    ensures WithKey([a] + t, key, v) == (if key(a) == v then [a] else []) + WithKey(t, key, v)
  {
    assert ([a] + t)[1..] == t;
  }

  /** Two elements of different keys cannot both be kept by `WithKey`, so their order there does not matter. */
  lemma WithKeyCommute<T>(x: T, y: T, w: seq<T>, key: T -> real, v: real)
    requires key(x) != key(y)
    ensures (if key(y) == v then [y] else []) + ((if key(x) == v then [x] else []) + w)
         == (if key(x) == v then [x] else []) + ((if key(y) == v then [y] else []) + w)
  {
  }

  lemma {:induction false} InsertDescWithKey<T>(x: T, s: seq<T>, key: T -> real, v: real)
    ensures WithKey(InsertDesc(x, s, key), key, v)
         == (if key(x) == v then [x] else []) + WithKey(s, key, v)
    decreases |s|
  {
    if |s| == 0 {
      WithKeyCons(x, s, key, v);
    } else if key(s[0]) <= key(x) {
      WithKeyCons(x, s, key, v);
    } else {
      var t := InsertDesc(x, s[1..], key);
      assert InsertDesc(x, s, key) == [s[0]] + t;
      WithKeyCons(s[0], t, key, v);
      InsertDescWithKey(x, s[1..], key, v);
      WithKeyCons(s[0], s[1..], key, v);
      assert [s[0]] + s[1..] == s;
      WithKeyCommute(x, s[0], WithKey(s[1..], key, v), key, v);
    }
  }

  /** Stability: among elements of one key the sorted order is the input order. */
  lemma {:induction false} SortDescStable<T>(s: seq<T>, key: T -> real, v: real)
    ensures WithKey(SortDesc(s, key), key, v) == WithKey(s, key, v)
    decreases |s|
  {
    if |s| > 0 {
      SortDescStable(s[1..], key, v);
      InsertDescWithKey(s[0], SortDesc(s[1..], key), key, v);
    }
  }

  /** After sorting, every element kept by a prefix has a key at least that of every element cut off. */
  lemma SortedPrefixDominates<T>(s: seq<T>, key: T -> real, n: nat)
    requires SortedDesc(s, key)
    ensures forall i, j :: 0 <= i < |Take(s, n)| <= j < |s| ==> key(Take(s, n)[i]) >= key(s[j])
  {
  }

  /** A sequence with prefix `h` is `h`, the slice up to `e` after it and the rest, joined. */
  lemma PrefixSplit<T>(s: seq<T>, h: seq<T>, e: int)
    requires h <= s && |h| <= e <= |s|
    ensures s == h + s[|h|..e] + s[e..]
  {
    assert h == s[..|h|];
    assert s[..|h|] + s[|h|..e] == s[..e];
  }
}
