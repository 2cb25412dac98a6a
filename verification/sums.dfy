/** Finite sums over the rows of a table.

    A table is a map from row id to row; `SumOf(m, f)` adds up `f(row)` over
    every row. The order in which rows are visited is left open (a row is
    chosen with `:|`), and `SumOfRemove` shows the result does not depend on
    it: any row can be taken out first. */
module Sums {

  ghost function SumOf<K, V>(m: map<K, V>, f: V -> real): real
    decreases |m|
  {
    if |m| == 0 then 0.0
    else
      var k :| k in m;
      f(m[k]) + SumOf(m - {k}, f)
  }

  /** Any row may be peeled off the sum, not just the one the definition picks. */
  lemma {:induction false} SumOfRemove<K, V>(m: map<K, V>, f: V -> real, k: K)
    requires k in m
    ensures SumOf(m, f) == f(m[k]) + SumOf(m - {k}, f)
    decreases |m|
  {
    assert |m| != 0;
    var j :| j in m && SumOf(m, f) == f(m[j]) + SumOf(m - {j}, f);
    if j != k {
      var mj := m - {j};
      var mk := m - {k};
      RemoveShrinks(m, j);
      RemoveShrinks(m, k);
      assert k in mj && mj[k] == m[k];
      assert j in mk && mk[j] == m[j];
      var rest := mj - {k};
      assert rest == mk - {j};
      SumOfRemove(mj, f, k);
      SumOfRemove(mk, f, j);
      assert SumOf(mj, f) == f(m[k]) + SumOf(rest, f);
      assert SumOf(mk, f) == f(m[j]) + SumOf(rest, f);
    }
  }

  lemma RemoveShrinks<K, V>(m: map<K, V>, k: K)
    requires k in m
    ensures |m - {k}| == |m| - 1
  {
    assert (m - {k}).Keys == m.Keys - {k};
  }

  /** Adding a row with a fresh id adds its weight to the sum. */
  lemma SumOfInsert<K, V>(m: map<K, V>, f: V -> real, k: K, v: V)
    requires k !in m
    ensures SumOf(m[k := v], f) == SumOf(m, f) + f(v)
  {
    SumOfRemove(m[k := v], f, k);
    assert m[k := v] - {k} == m;
  }

  /** Replacing rows whose weight is unchanged leaves the sum unchanged. */
  lemma {:induction false} SumOfSameWeights<K, V>(m: map<K, V>, m': map<K, V>, f: V -> real)
    requires m.Keys == m'.Keys
    requires forall k :: k in m ==> f(m[k]) == f(m'[k])
    ensures SumOf(m, f) == SumOf(m', f)
    decreases |m|
  {
    if |m| != 0 {
      var k :| k in m;
      SumOfRemove(m, f, k);
      SumOfRemove(m', f, k);
      SumOfSameWeights(m - {k}, m' - {k}, f);
    }
  }

  /** A sum whose every weight is zero is zero. */
  lemma {:induction false} SumOfZero<K, V>(m: map<K, V>, f: V -> real)
    requires forall k :: k in m ==> f(m[k]) == 0.0
    ensures SumOf(m, f) == 0.0
    decreases |m|
  {
    if |m| != 0 {
      var k :| k in m;
      SumOfRemove(m, f, k);
      SumOfZero(m - {k}, f);
    }
  }
}
