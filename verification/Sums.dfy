/** Weighted sums over the rows of a table, with the few laws the ledger needs. */
module Sums {

  ghost function Pick<K, V>(m: map<K, V>): (k: K)
    requires m.Keys != {}
    ensures k in m
  {
    var k :| k in m.Keys; k
  }

  /** The sum of `w(k, m[k])` over all keys of `m`. */
  ghost function SumBy<K, V>(m: map<K, V>, w: (K, V) -> int): int
    decreases |m|
  {
    if m.Keys == {} then 0
    else
      var k := Pick(m);
      w(k, m[k]) + SumBy(m - {k}, w)
  }

  /** Any key may be taken out first: the order of summation does not matter. */
  lemma {:induction false} SumPick<K, V>(m: map<K, V>, w: (K, V) -> int, k: K)
    requires k in m
    ensures SumBy(m, w) == w(k, m[k]) + SumBy(m - {k}, w)
    decreases |m|
  {
    var p := Pick(m);
    if p != k {
      SumPick(m - {p}, w, k);
      SumPick(m - {k}, w, p);
      assert m - {p} - {k} == m - {k} - {p};
    }
  }

  lemma {:induction false} SumSame<K, V, U>(m: map<K, V>, w: (K, V) -> int, m': map<K, U>, w': (K, U) -> int)
    requires m.Keys == m'.Keys
    requires forall k :: k in m ==> w(k, m[k]) == w'(k, m'[k])
    ensures SumBy(m, w) == SumBy(m', w')
    decreases |m|
  {
    if m.Keys != {} {
      var k := Pick(m);
      SumSame(m - {k}, w, m' - {k}, w');
      SumPick(m', w', k);
    }
  }

  /** One row inserted or changed: the sum moves by the difference of that row's weights. */
  lemma {:induction false} SumUpdate<K, V>(m: map<K, V>, w: (K, V) -> int, m': map<K, V>, w': (K, V) -> int, k: K)
    requires m'.Keys == m.Keys + {k}
    requires forall j :: j in m && j != k ==> w(j, m[j]) == w'(j, m'[j])
    ensures SumBy(m', w') == SumBy(m, w) - (if k in m then w(k, m[k]) else 0) + w'(k, m'[k])
  {
    SumPick(m', w', k);
    SumSame(m - {k}, w, m' - {k}, w');
    if k in m {
      SumPick(m, w, k);
    } else {
      assert m - {k} == m;
    }
  }

  lemma {:induction false} SumLe<K, V>(m: map<K, V>, w: (K, V) -> int, w': (K, V) -> int)
    requires forall k :: k in m ==> w(k, m[k]) <= w'(k, m[k])
    ensures SumBy(m, w) <= SumBy(m, w')
    decreases |m|
  {
    if m.Keys != {} {
      var k := Pick(m);
      SumLe(m - {k}, w, w');
    }
  }

  lemma {:induction false} SumMinus<K, V>(m: map<K, V>, a: (K, V) -> int, b: (K, V) -> int, d: (K, V) -> int)
    requires forall k :: k in m ==> d(k, m[k]) == a(k, m[k]) - b(k, m[k])
    ensures SumBy(m, d) == SumBy(m, a) - SumBy(m, b)
    decreases |m|
  {
    if m.Keys != {} {
      SumMinus(m - {Pick(m)}, a, b, d);
    }
  }

  lemma {:induction false} SumNonNegative<K, V>(m: map<K, V>, w: (K, V) -> int)
    requires forall k :: k in m ==> 0 <= w(k, m[k])
    ensures 0 <= SumBy(m, w)
    decreases |m|
  {
    if m.Keys != {} {
      SumNonNegative(m - {Pick(m)}, w);
    }
  }

  lemma {:induction false} SumZero<K, V>(m: map<K, V>, w: (K, V) -> int)
    requires forall k :: k in m ==> w(k, m[k]) == 0
    ensures SumBy(m, w) == 0
    decreases |m|
  {
    if m.Keys != {} {
      SumZero(m - {Pick(m)}, w);
    }
  }

  /** A sum of non-negative weights is at least any two of its terms together. */
  lemma SumAtLeastTwo<K, V>(m: map<K, V>, w: (K, V) -> int, j: K, k: K)
    requires forall i :: i in m ==> 0 <= w(i, m[i])
    requires j in m && k in m
    ensures w(j, m[j]) <= SumBy(m, w)
    ensures j != k ==> w(j, m[j]) + w(k, m[k]) <= SumBy(m, w)
  {
    SumPick(m, w, j);
    SumNonNegative(m - {j}, w);
    if j != k {
      SumPick(m - {j}, w, k);
      SumNonNegative(m - {j} - {k}, w);
    }
  }

  /** When one weight dominates another, the sums agree only if every term agrees. */
  lemma {:induction false} SumEqualTerms<K, V>(m: map<K, V>, w: (K, V) -> int, w': (K, V) -> int)
    requires forall k :: k in m ==> w(k, m[k]) <= w'(k, m[k])
    ensures SumBy(m, w) == SumBy(m, w') <==> forall k :: k in m ==> w(k, m[k]) == w'(k, m[k])
  {
    if forall k :: k in m ==> w(k, m[k]) == w'(k, m[k]) {
      SumSame(m, w, m, w');
    } else {
      var k :| k in m && w(k, m[k]) != w'(k, m[k]);
      SumPick(m, w, k);
      SumPick(m, w', k);
      SumLe(m - {k}, w, w');
    }
  }
}
