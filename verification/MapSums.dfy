/** Sums of natural numbers held in a map. */
module MapSums {

  ghost function MapSum<K>(m: map<K, nat>): nat
    decreases |m|
  {
    if m == map[] then 0
    else
      var k :| k in m;
      RemoveSmaller(m, k);
      m[k] + MapSum(m - {k})
  }

  lemma RemoveSmaller<K>(m: map<K, nat>, k: K)
    requires k in m
    ensures |m - {k}| < |m|
  {
    assert m.Keys == (m - {k}).Keys + {k};
  }

  /** Any entry can be taken out first. */
  lemma {:induction false} MapSumRemove<K>(m: map<K, nat>, k: K)
    requires k in m
    ensures MapSum(m) == m[k] + MapSum(m - {k})
    decreases |m|
  {
    var first :| first in m && MapSum(m) == m[first] + MapSum(m - {first});
    if first != k {
      RemoveSmaller(m, first);
      RemoveSmaller(m, k);
      MapSumRemove(m - {first}, k);
      MapSumRemove(m - {k}, first);
      assert m - {first} - {k} == m - {k} - {first};
    }
  }

  lemma MapSumInsert<K>(m: map<K, nat>, k: K, v: nat)
    ensures MapSum(m[k := v]) == v + MapSum(m - {k})
    ensures k !in m ==> MapSum(m[k := v]) == v + MapSum(m)
    ensures k in m ==> MapSum(m[k := v]) == MapSum(m) - m[k] + v
  {
    MapSumRemove(m[k := v], k);
    assert m[k := v] - {k} == m - {k};
    if k in m {
      MapSumRemove(m, k);
    } else {
      assert m - {k} == m;
    }
  }
}
