/**
 * The column arithmetic the reporting pages get from pandas: `sum`, `groupby(...).sum()`
 * and `sort_values(..., ascending=False)`, each defined once over a sequence of rows.
 */
module Aggregates {

  /** `Series.sum()` of `val` over the rows: 0 for no rows. */
  function SumOf<T>(xs: seq<T>, val: T -> real): real
  {
    if xs == [] then 0.0 else SumOf(xs[..|xs| - 1], val) + val(xs[|xs| - 1])
  }

  /** The sum over the rows whose `key` is `k`: one group of `groupby(key)[val].sum()`. */
  function SumWhere<T, K(==)>(xs: seq<T>, key: T -> K, val: T -> real, k: K): real
  {
    if xs == [] then 0.0
    else SumWhere(xs[..|xs| - 1], key, val, k) + (if key(xs[|xs| - 1]) == k then val(xs[|xs| - 1]) else 0.0)
  }

  /** `groupby(key)[val].sum()`, folded over the rows one at a time: a map from each key seen to its running sum. */
  function SumBy<T, K(==)>(xs: seq<T>, key: T -> K, val: T -> real): map<K, real>
  {
    if xs == [] then map[]
    else
      var m := SumBy(xs[..|xs| - 1], key, val);
      var k := key(xs[|xs| - 1]);
      m[k := (if k in m then m[k] else 0.0) + val(xs[|xs| - 1])]
  }

  lemma {:induction false} SumOfAppend<T>(a: seq<T>, b: seq<T>, val: T -> real)
    ensures SumOf(a + b, val) == SumOf(a, val) + SumOf(b, val)
  {
    if b == [] {
      assert a + b == a;
    } else {
      assert (a + b)[..|a + b| - 1] == a + b[..|b| - 1];
      SumOfAppend(a, b[..|b| - 1], val);
    }
  }

  /** A group no row belongs to sums to 0; that is pandas' `fillna(0)` after a left join. */
  lemma {:induction false} SumWhereAbsent<T, K>(xs: seq<T>, key: T -> K, val: T -> real, k: K)
    requires forall i | 0 <= i < |xs| :: key(xs[i]) != k
    ensures SumWhere(xs, key, val, k) == 0.0
  {
    if xs != [] {
      SumWhereAbsent(xs[..|xs| - 1], key, val, k);
    }
  }

  /** A key has a group in the group-by map exactly when some row carries it. */
  lemma {:induction false} SumByHasKey<T, K>(xs: seq<T>, key: T -> K, val: T -> real, k: K)
    ensures k in SumBy(xs, key, val) <==> exists i :: 0 <= i < |xs| && key(xs[i]) == k
  {
    if xs != [] {
      var init := xs[..|xs| - 1];
      SumByHasKey(init, key, val, k);
      if k in SumBy(init, key, val) {
        var i :| 0 <= i < |init| && key(init[i]) == k;
        assert xs[i] == init[i];
      }
      if exists i :: 0 <= i < |xs| && key(xs[i]) == k {
        var i :| 0 <= i < |xs| && key(xs[i]) == k;
        if i < |init| {
          assert init[i] == xs[i];
        }
      }
    }
  }

  /** Each group of the group-by map holds the sum of exactly the rows with that key. */
  lemma {:induction false} SumByGroup<T, K>(xs: seq<T>, key: T -> K, val: T -> real, k: K)
    requires k in SumBy(xs, key, val)
    ensures SumBy(xs, key, val)[k] == SumWhere(xs, key, val, k)
  {
    var init := xs[..|xs| - 1];
    SumByHasKey(init, key, val, k);
    if k in SumBy(init, key, val) {
      SumByGroup(init, key, val, k);
    } else {
      SumWhereAbsent(init, key, val, k);
    }
  }

  /** The number of times `k` occurs in `ks`. */
  function Occurrences<K(==)>(ks: seq<K>, k: K): nat
  {
    if ks == [] then 0 else Occurrences(ks[..|ks| - 1], k) + (if ks[|ks| - 1] == k then 1 else 0)
  }

  predicate Distinct<K(==)>(ks: seq<K>)
  {
    forall i, j | 0 <= i < j < |ks| :: ks[i] != ks[j]
  }

  /** The group sums of the keys `ks`, added up in the order of `ks`. */
  function SumEach<T, K(==)>(xs: seq<T>, key: T -> K, val: T -> real, ks: seq<K>): real
  {
    if ks == [] then 0.0 else SumEach(xs, key, val, ks[..|ks| - 1]) + SumWhere(xs, key, val, ks[|ks| - 1])
  }

  lemma {:induction false} OccursOnce<K>(ks: seq<K>, k: K)
    requires Distinct(ks) && k in ks
    ensures Occurrences(ks, k) == 1
  {
    var init := ks[..|ks| - 1];
    if ks[|ks| - 1] == k {
      forall i | 0 <= i < |init| ensures init[i] != k {
        assert ks[i] == init[i];
      }
      NotOccurring(init, k);
    } else {
      assert k in init by {
        var i :| 0 <= i < |ks| && ks[i] == k;
        assert i < |init| && init[i] == k;
      }
      OccursOnce(init, k);
    }
  }

  lemma {:induction false} NotOccurring<K>(ks: seq<K>, k: K)
    requires forall i | 0 <= i < |ks| :: ks[i] != k
    ensures Occurrences(ks, k) == 0
  {
    if ks != [] {
      NotOccurring(ks[..|ks| - 1], k);
    }
  }

  lemma {:induction false} SumEachStep<T, K>(xs: seq<T>, x: T, key: T -> K, val: T -> real, ks: seq<K>)
    ensures SumEach(xs + [x], key, val, ks) == SumEach(xs, key, val, ks) + Occurrences(ks, key(x)) as real * val(x)
  {
    if ks != [] {
      SumEachStep(xs, x, key, val, ks[..|ks| - 1]);
      assert (xs + [x])[..|xs + [x]| - 1] == xs;
    }
  }

  /**
   * Summing the groups of distinct keys that cover every row gives the total:
   * no row is counted twice and none is lost.
   */
  lemma {:induction false} SumEachCovers<T, K>(xs: seq<T>, key: T -> K, val: T -> real, ks: seq<K>)
    requires Distinct(ks)
    requires forall i | 0 <= i < |xs| :: key(xs[i]) in ks
    ensures SumEach(xs, key, val, ks) == SumOf(xs, val)
  {
    if xs == [] {
      EmptyGroups(key, val, ks);
    } else {
      var init, x := xs[..|xs| - 1], xs[|xs| - 1];
      assert init + [x] == xs;
      SumEachCovers(init, key, val, ks);
      SumEachStep(init, x, key, val, ks);
      OccursOnce(ks, key(x));
    }
  }

  lemma {:induction false} EmptyGroups<T, K>(key: T -> K, val: T -> real, ks: seq<K>)
    ensures SumEach([], key, val, ks) == 0.0
  {
    if ks != [] {
      EmptyGroups(key, val, ks[..|ks| - 1]);
    }
  }

  /** Every value lies in `[lo, hi]`, so the sum of `n` of them lies in `[n * lo, n * hi]`. */
  lemma {:induction false} SumOfBounds<T>(xs: seq<T>, val: T -> real, lo: real, hi: real)
    requires forall i | 0 <= i < |xs| :: lo <= val(xs[i]) <= hi
    ensures |xs| as real * lo <= SumOf(xs, val) <= |xs| as real * hi
  {
    if xs != [] {
      SumOfBounds(xs[..|xs| - 1], val, lo, hi);
    }
  }

  /** Ordered by `key`, largest first. */
  predicate SortedDesc<T>(xs: seq<T>, key: T -> real)
  {
    forall i, j | 0 <= i < j < |xs| :: key(xs[i]) >= key(xs[j])
  }

  function InsertDesc<T>(x: T, sorted: seq<T>, key: T -> real): seq<T>
  {
    if sorted == [] then [x]
    else if key(x) >= key(sorted[0]) then [x] + sorted
    else [sorted[0]] + InsertDesc(x, sorted[1..], key)
  }

  /** `sort_values(key, ascending=False)`: an insertion sort, largest key first. */
  function SortDescBy<T>(xs: seq<T>, key: T -> real): seq<T>
  {
    if xs == [] then [] else InsertDesc(xs[0], SortDescBy(xs[1..], key), key)
  }

  /** A bound on the key of every row survives inserting one more row under the same bound. */
  lemma {:induction false} InsertDescBound<T>(x: T, sorted: seq<T>, key: T -> real, b: real)
    requires b >= key(x)
    requires forall j | 0 <= j < |sorted| :: b >= key(sorted[j])
    ensures forall j | 0 <= j < |InsertDesc(x, sorted, key)| :: b >= key(InsertDesc(x, sorted, key)[j])
  {
    if sorted != [] && key(x) < key(sorted[0]) {
      InsertDescBound(x, sorted[1..], key, b);
    }
  }

  lemma {:induction false} InsertDescCorrect<T>(x: T, sorted: seq<T>, key: T -> real)
    requires SortedDesc(sorted, key)
    ensures SortedDesc(InsertDesc(x, sorted, key), key)
    ensures multiset(InsertDesc(x, sorted, key)) == multiset(sorted) + multiset{x}
  {
    InsertDescSorted(x, sorted, key);
    InsertDescPerm(x, sorted, key);
  }

  lemma {:induction false} InsertDescSorted<T>(x: T, sorted: seq<T>, key: T -> real)
    requires SortedDesc(sorted, key)
    ensures SortedDesc(InsertDesc(x, sorted, key), key)
  {
    if sorted != [] && key(x) < key(sorted[0]) {
      InsertDescSorted(x, sorted[1..], key);
      InsertDescBound(x, sorted[1..], key, key(sorted[0]));
    }
  }

  lemma {:induction false} InsertDescPerm<T>(x: T, sorted: seq<T>, key: T -> real)
    ensures multiset(InsertDesc(x, sorted, key)) == multiset(sorted) + multiset{x}
  {
    if sorted != [] && key(x) < key(sorted[0]) {
      InsertDescPerm(x, sorted[1..], key);
      assert sorted == [sorted[0]] + sorted[1..];
    }
  }

  /** The sorted table holds the same rows, largest key first; the order among equal keys is not promised. */
  lemma {:induction false} SortDescByCorrect<T>(xs: seq<T>, key: T -> real)
    ensures SortedDesc(SortDescBy(xs, key), key)
    ensures multiset(SortDescBy(xs, key)) == multiset(xs)
  {
    if xs != [] {
      SortDescByCorrect(xs[1..], key);
      InsertDescCorrect(xs[0], SortDescBy(xs[1..], key), key);
      assert xs == [xs[0]] + xs[1..];
    }
  }
}
