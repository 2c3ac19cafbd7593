/**
 * Sorting by a string key, as sort.Slice does with `key(a) < key(b)`.
 * sort.Slice is not stable, so callers may rely only on the result being a
 * permutation of the input that is ordered by the key; SortBy is one such
 * permutation.
 */
module Sorting {
  import opened Text

  /** No element is followed by one whose key is strictly smaller. */
  predicate SortedBy<T>(key: T -> string, xs: seq<T>) {
    forall i, j :: 0 <= i < j < |xs| ==> LexLeq(key(xs[i]), key(xs[j]))
  }

  /** Every element's key is at least `k`. */
  predicate AllFrom<T>(key: T -> string, k: string, xs: seq<T>) {
    forall i :: 0 <= i < |xs| ==> LexLeq(k, key(xs[i]))
  }

  lemma AllFromPermutation<T>(key: T -> string, k: string, xs: seq<T>, ys: seq<T>)
    requires AllFrom(key, k, xs)
    requires multiset(ys) <= multiset(xs)
    ensures AllFrom(key, k, ys)
  {
    forall j | 0 <= j < |ys|
      ensures LexLeq(k, key(ys[j]))
    {
      assert ys[j] in multiset(ys);
      assert ys[j] in multiset(xs);
      var i :| 0 <= i < |xs| && xs[i] == ys[j];
    }
  }

  /** Puts `x` into the sorted `xs` before the first element whose key is not smaller. */
  function InsertBy<T>(key: T -> string, x: T, xs: seq<T>): (r: seq<T>)
    requires SortedBy(key, xs)
    ensures SortedBy(key, r)
    ensures multiset(r) == multiset(xs) + multiset{x}
    ensures |r| == |xs| + 1
  {
    if |xs| == 0 then [x]
    else if LexLeq(key(x), key(xs[0])) then
      InsertFrontSorted(key, x, xs);
      [x] + xs
    else
      var rest := InsertBy(key, x, xs[1..]);
      InsertBehindSorted(key, x, xs, rest);
      assert xs == [xs[0]] + xs[1..];
      [xs[0]] + rest
  }

  lemma InsertFrontSorted<T>(key: T -> string, x: T, xs: seq<T>)
    requires SortedBy(key, xs) && |xs| > 0
    requires LexLeq(key(x), key(xs[0]))
    ensures SortedBy(key, [x] + xs)
  {
    var r := [x] + xs;
    forall i, j | 0 <= i < j < |r|
      ensures LexLeq(key(r[i]), key(r[j]))
    {
      if i == 0 && j > 1 {
        LexLeqTransitive(key(x), key(xs[0]), key(xs[j - 1]));
      }
    }
  }

  lemma InsertBehindSorted<T>(key: T -> string, x: T, xs: seq<T>, rest: seq<T>)
    requires SortedBy(key, xs) && |xs| > 0
    requires !LexLeq(key(x), key(xs[0]))
    requires SortedBy(key, rest)
    requires multiset(rest) == multiset(xs[1..]) + multiset{x}
    ensures SortedBy(key, [xs[0]] + rest)
  {
    LexLeqTotal(key(x), key(xs[0]));
    var ext := xs[1..] + [x];
    assert multiset(ext) == multiset(rest);
    forall i | 0 <= i < |ext|
      ensures LexLeq(key(xs[0]), key(ext[i]))
    {
      if i < |xs| - 1 {
        assert ext[i] == xs[i + 1];
      }
    }
    AllFromPermutation(key, key(xs[0]), ext, rest);
  }

  /** Insertion sort by key: a key-ordered permutation of `xs`. */
  function SortBy<T>(key: T -> string, xs: seq<T>): (r: seq<T>)
    ensures SortedBy(key, r)
    ensures multiset(r) == multiset(xs)
    ensures |r| == |xs|
  {
    if |xs| == 0 then []
    else
      assert xs == [xs[0]] + xs[1..];
      InsertBy(key, xs[0], SortBy(key, xs[1..]))
  }
}
