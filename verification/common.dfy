/** Small value types and sequence helpers shared by every other module. */
module Common {

  /** A possibly missing value: SQL NULL, Python `None`, an absent dictionary key. */
  datatype Option<+T> = None | Some(value: T) {
    /** Python's `x if x is not None else default`. */
    function GetOr(default: T): (r: T)
      ensures Some? ==> r == value
      ensures None? ==> r == default
    {
      match this
      case Some(v) => v
      case None => default
    }
  }

  /** The outcome of an operation that either succeeds with a value or fails with a reason. */
  datatype Result<+T, +E> = Ok(value: T) | Err(error: E)

  /** Python's `[x for x in xs if p(x)]`: the elements satisfying `p`, in their original order. */
  function Filter<T>(xs: seq<T>, p: T -> bool): (r: seq<T>)
    ensures |r| <= |xs|
    ensures forall i :: 0 <= i < |r| ==> r[i] in xs && p(r[i])
    ensures forall i :: 0 <= i < |xs| && p(xs[i]) ==> xs[i] in r
    ensures multiset(r) <= multiset(xs)
  {
    if |xs| == 0 then []
    else
      var rest := Filter(xs[1..], p);
      FilterStep(xs, p, rest);
      if p(xs[0]) then [xs[0]] + rest else rest
  }

  /** One step of `Filter`: what holds of the filtered tail holds of the filtered sequence. */
  lemma FilterStep<T>(xs: seq<T>, p: T -> bool, rest: seq<T>)
    requires |xs| > 0
    requires |rest| <= |xs[1..]|
    requires forall i :: 0 <= i < |rest| ==> rest[i] in xs[1..] && p(rest[i])
    requires forall i :: 0 <= i < |xs[1..]| && p(xs[1..][i]) ==> xs[1..][i] in rest
    requires multiset(rest) <= multiset(xs[1..])
    ensures var r := if p(xs[0]) then [xs[0]] + rest else rest;
            && |r| <= |xs|
            && (forall i :: 0 <= i < |r| ==> r[i] in xs && p(r[i]))
            && (forall i :: 0 <= i < |xs| && p(xs[i]) ==> xs[i] in r)
            && multiset(r) <= multiset(xs)
  {
    var tail := xs[1..];
    assert xs == [xs[0]] + tail;
    var r := if p(xs[0]) then [xs[0]] + rest else rest;
    assert forall i :: 0 < i < |xs| ==> xs[i] == tail[i - 1];
    assert forall x :: x in rest ==> x in r;
  }

  lemma {:induction false} FilterConcat<T>(a: seq<T>, b: seq<T>, p: T -> bool)
    ensures Filter(a + b, p) == Filter(a, p) + Filter(b, p)
  {
    if |a| == 0 {
      assert a + b == b;
    } else {
      assert (a + b)[1..] == a[1..] + b;
      FilterConcat(a[1..], b, p);
    }
  }

  /** Filtering keeps the multiplicity of every element that satisfies `p`. */
  lemma {:induction false} FilterCount<T>(xs: seq<T>, p: T -> bool, x: T)
    ensures p(x) ==> multiset(Filter(xs, p))[x] == multiset(xs)[x]
    ensures !p(x) ==> multiset(Filter(xs, p))[x] == 0
  {
    if |xs| > 0 {
      var rest := Filter(xs[1..], p);
      FilterCount(xs[1..], p, x);
      CountStep(xs, x, rest, Filter(xs, p), p(xs[0]));
    }
  }

  /** How often `x` occurs in a sequence and in one with a first element maybe put in front. */
  lemma CountStep<T>(xs: seq<T>, x: T, rest: seq<T>, r: seq<T>, keep: bool)
    requires |xs| > 0 && r == if keep then [xs[0]] + rest else rest
    ensures multiset(r)[x] == (if keep && xs[0] == x then 1 else 0) + multiset(rest)[x]
    ensures multiset(xs)[x] == (if xs[0] == x then 1 else 0) + multiset(xs[1..])[x]
  {
    assert xs == [xs[0]] + xs[1..];
  }

  /** Whatever a filter keeps came from its input and passes the filter. */
  lemma FilterHolds<T>(xs: seq<T>, p: T -> bool, x: T)
    requires x in multiset(Filter(xs, p))
    ensures x in xs && p(x)
  {
    FilterCount(xs, p, x);
  }

  /** A filter every element passes keeps the whole sequence. */
  lemma {:induction false} FilterAll<T>(xs: seq<T>, p: T -> bool)
    requires forall i :: 0 <= i < |xs| ==> p(xs[i])
    ensures Filter(xs, p) == xs
  {
    if |xs| > 0 {
      FilterAll(xs[1..], p);
      assert xs == [xs[0]] + xs[1..];
    }
  }

  /** A filter no element passes keeps nothing. */
  lemma {:induction false} FilterNone<T>(xs: seq<T>, p: T -> bool)
    requires forall i :: 0 <= i < |xs| ==> !p(xs[i])
    ensures Filter(xs, p) == []
  {
    if |xs| > 0 {
      FilterNone(xs[1..], p);
      assert xs == [xs[0]] + xs[1..];
    }
  }

  /** Filtering by the conjunction of two predicates is filtering twice. */
  lemma {:induction false} FilterFilter<T>(xs: seq<T>, p: T -> bool, q: T -> bool)
    ensures Filter(Filter(xs, p), q) == Filter(xs, x => p(x) && q(x))
  {
    if |xs| > 0 {
      FilterFilter(xs[1..], p, q);
    }
  }

  /** Each element transformed, in order. */
  function Map<T, U>(xs: seq<T>, f: T -> U): (r: seq<U>)
    ensures |r| == |xs|
    ensures forall i :: 0 <= i < |xs| ==> r[i] == f(xs[i])
  {
    if |xs| == 0 then [] else [f(xs[0])] + Map(xs[1..], f)
  }

  /** The keys of the rows of a table. */
  function KeySet<T, K>(xs: seq<T>, key: T -> K): (r: set<K>)
  {
    set i | 0 <= i < |xs| :: key(xs[i])
  }

  /** No two rows share a key: the meaning of a PRIMARY KEY or UNIQUE constraint. */
  predicate Distinct<T, K(==)>(xs: seq<T>, key: T -> K)
  {
    forall i, j :: 0 <= i < j < |xs| ==> key(xs[i]) != key(xs[j])
  }

  /** In a table with distinct keys, two rows with the same key are the same row. */
  lemma DistinctSameKey<T, K>(xs: seq<T>, key: T -> K, x: T, y: T)
    requires Distinct(xs, key)
    requires x in xs && y in xs && key(x) == key(y)
    ensures x == y
  {
    var i :| 0 <= i < |xs| && xs[i] == x;
    var j :| 0 <= j < |xs| && xs[j] == y;
    assert i == j;
  }

  /** Appending a row with a fresh key keeps the keys distinct. */
  lemma DistinctAppend<T, K>(xs: seq<T>, key: T -> K, x: T)
    requires Distinct(xs, key)
    requires key(x) !in KeySet(xs, key)
    ensures Distinct(xs + [x], key)
  {
    var ys := xs + [x];
    forall i, j | 0 <= i < j < |ys|
      ensures key(ys[i]) != key(ys[j])
    {
      if j == |xs| {
        assert ys[i] in xs;
      }
    }
  }

  /** The first row of a table with distinct keys shares its key with no later row. */
  lemma DistinctHead<T, K>(xs: seq<T>, key: T -> K)
    requires Distinct(xs, key) && |xs| > 0
    ensures key(xs[0]) !in KeySet(xs[1..], key)
    ensures Distinct(xs[1..], key)
  {
    forall i, j | 0 <= i < j < |xs| - 1
      ensures key(xs[1..][i]) != key(xs[1..][j])
    {
      assert xs[1..][i] == xs[i + 1] && xs[1..][j] == xs[j + 1];
    }
  }

  /** Putting a row with a fresh key in front of a table with distinct keys keeps them distinct. */
  lemma DistinctCons<T, K>(x: T, xs: seq<T>, key: T -> K)
    requires Distinct(xs, key) && key(x) !in KeySet(xs, key)
    ensures Distinct([x] + xs, key)
  {
    var ys := [x] + xs;
    forall i, j | 0 <= i < j < |ys|
      ensures key(ys[i]) != key(ys[j])
    {
      assert ys[j] == xs[j - 1];
      if i > 0 {
        assert ys[i] == xs[i - 1];
      }
    }
  }

  /** Deleting rows keeps the remaining keys distinct. */
  lemma {:induction false} DistinctFilter<T, K>(xs: seq<T>, key: T -> K, p: T -> bool)
    requires Distinct(xs, key)
    ensures Distinct(Filter(xs, p), key)
  {
    if |xs| > 0 {
      var rest := Filter(xs[1..], p);
      DistinctHead(xs, key);
      DistinctFilter(xs[1..], key, p);
      if p(xs[0]) {
        DistinctCons(xs[0], rest, key);
        assert Filter(xs, p) == [xs[0]] + rest;
      } else {
        assert Filter(xs, p) == rest;
      }
    }
  }

  /** The keys of a table with one more row in front. */
  lemma KeySetCons<T, K>(x: T, xs: seq<T>, key: T -> K)
    ensures KeySet([x] + xs, key) == {key(x)} + KeySet(xs, key)
  {
    var ys := [x] + xs;
    forall k | k in KeySet(ys, key) ensures k in {key(x)} + KeySet(xs, key) {
      var i :| 0 <= i < |ys| && key(ys[i]) == k;
      if i > 0 {
        assert ys[i] == xs[i - 1];
      }
    }
    forall k | k in KeySet(xs, key) ensures k in KeySet(ys, key) {
      var i :| 0 <= i < |xs| && key(xs[i]) == k;
      assert ys[i + 1] == xs[i];
    }
    assert ys[0] == x;
  }

  /** A row's key is among the table's keys. */
  lemma InKeySet<T, K>(xs: seq<T>, key: T -> K, x: T)
    requires x in xs
    ensures key(x) in KeySet(xs, key)
  {
    var i :| 0 <= i < |xs| && xs[i] == x;
  }

  /** SQL `UPDATE ... SET ... WHERE p`: every row satisfying `p` becomes `f` of itself, in place. */
  function Update<T>(xs: seq<T>, p: T -> bool, f: T -> T): (r: seq<T>)
    ensures |r| == |xs|
    ensures forall i :: 0 <= i < |xs| ==> r[i] == if p(xs[i]) then f(xs[i]) else xs[i]
  {
    if |xs| == 0 then []
    else [if p(xs[0]) then f(xs[0]) else xs[0]] + Update(xs[1..], p, f)
  }

  /** An update that changes no key keeps the keys distinct. */
  lemma DistinctUpdate<T, K>(xs: seq<T>, key: T -> K, p: T -> bool, f: T -> T)
    requires Distinct(xs, key)
    requires forall i :: 0 <= i < |xs| ==> key(f(xs[i])) == key(xs[i])
    ensures Distinct(Update(xs, p, f), key)
  {
    var r := Update(xs, p, f);
    forall i, j | 0 <= i < j < |r| ensures key(r[i]) != key(r[j]) {
      KeyKept(xs, key, p, f, i);
      KeyKept(xs, key, p, f, j);
    }
  }

  lemma KeyKept<T, K>(xs: seq<T>, key: T -> K, p: T -> bool, f: T -> T, i: int)
    requires 0 <= i < |xs|
    requires key(f(xs[i])) == key(xs[i])
    ensures key(Update(xs, p, f)[i]) == key(xs[i])
  {
  }

  /** Appending a row adds exactly its key to the table's keys. */
  lemma KeySetAppend<T, K>(xs: seq<T>, key: T -> K, x: T)
    ensures KeySet(xs + [x], key) == KeySet(xs, key) + {key(x)}
  {
    var ys := xs + [x];
    forall k | k in KeySet(ys, key) ensures k in KeySet(xs, key) + {key(x)} {
      var i :| 0 <= i < |ys| && key(ys[i]) == k;
      if i < |xs| {
        assert ys[i] == xs[i];
      }
    }
    forall k | k in KeySet(xs, key) ensures k in KeySet(ys, key) {
      var i :| 0 <= i < |xs| && key(xs[i]) == k;
      assert ys[i] == xs[i];
    }
    assert ys[|xs|] == x;
  }

  /** When every row `p` keeps points into `ids`, so does every row of the filtered table. */
  lemma FilterKeepsRefs<T, K>(xs: seq<T>, p: T -> bool, ref: T -> K, ids: set<K>)
    requires forall i :: 0 <= i < |xs| && p(xs[i]) ==> ref(xs[i]) in ids
    ensures forall i :: 0 <= i < |Filter(xs, p)| ==> ref(Filter(xs, p)[i]) in ids
  {
    var r := Filter(xs, p);
    forall i | 0 <= i < |r| ensures ref(r[i]) in ids {
      var j :| 0 <= j < |xs| && xs[j] == r[i];
    }
  }
}
