/**
 * Python's `list.sort(key=...)`, which is stable, reduced to sorting by an integer key.
 * A descending sort (`reverse=True`) is a sort by the negated key: Python keeps equal
 * elements in their original order under `reverse=True` too, and so does this sort.
 */
module Sorting {
  import opened Common

  predicate SortedBy<T>(xs: seq<T>, key: T -> int)
  {
    forall i, j :: 0 <= i < j < |xs| ==> key(xs[i]) <= key(xs[j])
  }

  /** The elements whose key is `k`, in their order of appearance. */
  function WithKey<T>(xs: seq<T>, key: T -> int, k: int): seq<T>
  {
    Filter(xs, x => key(x) == k)
  }

  predicate AllAtLeast<T>(xs: seq<T>, key: T -> int, b: int)
  {
    forall i :: 0 <= i < |xs| ==> b <= key(xs[i])
  }

  /** Puts `x` in front of the first element whose key is not smaller than its own. */
  function Insert<T>(x: T, ys: seq<T>, key: T -> int): (r: seq<T>)
    ensures multiset(r) == multiset(ys) + multiset{x}
    ensures |r| == |ys| + 1
  {
    if |ys| == 0 then [x]
    else if key(x) <= key(ys[0]) then [x] + ys
    else
      assert ys == [ys[0]] + ys[1..];
      [ys[0]] + Insert(x, ys[1..], key)
  }

  lemma {:induction false} InsertAtLeast<T>(x: T, ys: seq<T>, key: T -> int, b: int)
    requires b <= key(x) && AllAtLeast(ys, key, b)
    ensures AllAtLeast(Insert(x, ys, key), key, b)
  {
    if |ys| > 0 && key(x) > key(ys[0]) {
      InsertAtLeast(x, ys[1..], key, b);
    }
  }

  lemma {:induction false} InsertSorted<T>(x: T, ys: seq<T>, key: T -> int)
    requires SortedBy(ys, key)
    ensures SortedBy(Insert(x, ys, key), key)
  {
    if |ys| > 0 && key(x) > key(ys[0]) {
      var tail := ys[1..];
      InsertSorted(x, tail, key);
      InsertAtLeast(x, tail, key, key(ys[0]));
    }
  }

  /** Stable insertion sort: a permutation of `xs`, ordered by `key`. */
  function SortByKey<T>(xs: seq<T>, key: T -> int): (r: seq<T>)
    ensures multiset(r) == multiset(xs)
    ensures |r| == |xs|
    ensures SortedBy(r, key)
  {
    if |xs| == 0 then []
    else
      assert xs == [xs[0]] + xs[1..];
      var rest := SortByKey(xs[1..], key);
      InsertSorted(xs[0], rest, key);
      Insert(xs[0], rest, key)
  }

  lemma {:induction false} InsertWithKey<T>(x: T, ys: seq<T>, key: T -> int, k: int)
    ensures WithKey(Insert(x, ys, key), key, k)
         == (if key(x) == k then [x] else []) + WithKey(ys, key, k)
  {
    if |ys| > 0 && key(x) > key(ys[0]) {
      InsertWithKey(x, ys[1..], key, k);
      assert ([ys[0]] + Insert(x, ys[1..], key))[1..] == Insert(x, ys[1..], key);
    } else if |ys| > 0 {
      assert ([x] + ys)[1..] == ys;
    }
  }

  /** Stability: elements with equal keys leave the sort in the order they entered it. */
  lemma {:induction false} SortStable<T>(xs: seq<T>, key: T -> int, k: int)
    ensures WithKey(SortByKey(xs, key), key, k) == WithKey(xs, key, k)
  {
    if |xs| > 0 {
      SortStable(xs[1..], key, k);
      InsertWithKey(xs[0], SortByKey(xs[1..], key), key, k);
    }
  }

  /** Dropping the first element of a sorted sequence leaves it sorted. */
  lemma SortedTail<T>(xs: seq<T>, key: T -> int)
    requires |xs| > 0 && SortedBy(xs, key)
    ensures SortedBy(xs[1..], key)
  {
    var tail := xs[1..];
    forall i, j | 0 <= i < j < |tail| ensures key(tail[i]) <= key(tail[j]) {
      assert tail[i] == xs[i + 1] && tail[j] == xs[j + 1];
    }
  }

  /** A sorted sequence is left unchanged by sorting it again (the calendar's per-month re-sort). */
  lemma {:induction false} SortSorted<T>(xs: seq<T>, key: T -> int)
    requires SortedBy(xs, key)
    ensures SortByKey(xs, key) == xs
  {
    if |xs| > 0 {
      var tail := xs[1..];
      SortedTail(xs, key);
      SortSorted(tail, key);
      assert SortByKey(xs, key) == Insert(xs[0], tail, key);
      if |tail| > 0 {
        assert key(xs[0]) <= key(tail[0]);
      }
      InsertFront(xs[0], tail, key);
      assert xs == [xs[0]] + tail;
    }
  }

  /** An element no larger than the first goes in front. */
  lemma InsertFront<T>(x: T, ys: seq<T>, key: T -> int)
    requires |ys| == 0 || key(x) <= key(ys[0])
    ensures Insert(x, ys, key) == [x] + ys
  {
  }
}
