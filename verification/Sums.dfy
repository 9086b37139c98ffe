/** Sums of a weight over the entries of a finite map. The concurrent models count
    the calls or goroutines in some phase as a sum of weights 0 and 1, and their
    termination measures as sums of larger weights. */
module Sums {

  ghost function Sum<K, V>(m: map<K, V>, w: (K, V) -> nat): nat
    decreases |m|
  {
    if m == map[] then 0
    else
      var k :| k in m;
      w(k, m[k]) + Sum(m - {k}, w)
  }

  /** Sum does not depend on the order in which keys are taken. */
  lemma {:induction false} SumRemove<K, V>(m: map<K, V>, w: (K, V) -> nat, k: K)
    requires k in m
    ensures Sum(m, w) == w(k, m[k]) + Sum(m - {k}, w)
    decreases |m|
  {
    var j :| j in m && Sum(m, w) == w(j, m[j]) + Sum(m - {j}, w);
    if j != k {
      SumRemove(m - {j}, w, k);
      SumRemove(m - {k}, w, j);
      assert m - {j} - {k} == m - {k} - {j};
    }
  }

  /** Writing one entry changes the sum by that entry's change of weight. */
  lemma SumUpdate<K, V>(m: map<K, V>, w: (K, V) -> nat, k: K, v: V)
    ensures Sum(m[k := v], w) + (if k in m then w(k, m[k]) else 0) == Sum(m, w) + w(k, v)
  {
    SumRemove(m[k := v], w, k);
    if k in m {
      SumRemove(m, w, k);
      assert m[k := v] - {k} == m - {k};
    } else {
      assert m[k := v] - {k} == m;
    }
  }

  lemma {:induction false} SumAtLeast<K, V>(m: map<K, V>, w: (K, V) -> nat, k: K)
    requires k in m
    ensures Sum(m, w) >= w(k, m[k])
  {
    SumRemove(m, w, k);
  }

  lemma {:induction false} SumZero<K, V>(m: map<K, V>, w: (K, V) -> nat)
    requires forall k | k in m :: w(k, m[k]) == 0
    ensures Sum(m, w) == 0
    decreases |m|
  {
    if m != map[] {
      var k :| k in m && Sum(m, w) == w(k, m[k]) + Sum(m - {k}, w);
      SumZero(m - {k}, w);
    }
  }

  lemma {:induction false} SumAtMostSize<K, V>(m: map<K, V>, w: (K, V) -> nat)
    requires forall k | k in m :: w(k, m[k]) <= 1
    ensures Sum(m, w) <= |m|
    decreases |m|
  {
    if m != map[] {
      var k :| k in m && Sum(m, w) == w(k, m[k]) + Sum(m - {k}, w);
      SumAtMostSize(m - {k}, w);
      assert m.Keys == (m - {k}).Keys + {k};
    }
  }

  lemma {:induction false} SumMonotone<K, V>(m: map<K, V>, w: (K, V) -> nat, w': (K, V) -> nat)
    requires forall k | k in m :: w(k, m[k]) <= w'(k, m[k])
    ensures Sum(m, w) <= Sum(m, w')
    decreases |m|
  {
    if m != map[] {
      var k :| k in m;
      SumRemove(m, w, k);
      SumRemove(m, w', k);
      SumMonotone(m - {k}, w, w');
    }
  }

  lemma {:induction false} SumAdd<K, V>(m: map<K, V>, w: (K, V) -> nat, u: (K, V) -> nat, t: (K, V) -> nat)
    requires forall k | k in m :: w(k, m[k]) + u(k, m[k]) == t(k, m[k])
    ensures Sum(m, w) + Sum(m, u) == Sum(m, t)
    decreases |m|
  {
    if m != map[] {
      var k :| k in m;
      SumRemove(m, w, k);
      SumRemove(m, u, k);
      SumRemove(m, t, k);
      SumAdd(m - {k}, w, u, t);
    }
  }
}
