/** Sums over finite maps. */
module Sums {
  ghost function Sum<K>(m: map<K, nat>): (r: nat)
    decreases |m|
  {
    if m == map[] then 0
    else
      var k :| k in m;
      m[k] + Sum(m - {k})
  }

  lemma {:induction false} SumRemove<K>(m: map<K, nat>, k: K)
    requires k in m
    ensures Sum(m) == m[k] + Sum(m - {k})
    decreases |m|
  {
    var j :| j in m && Sum(m) == m[j] + Sum(m - {j});
    if j != k {
      SumRemove(m - {j}, k);
      SumRemove(m - {k}, j);
      assert (m - {j}) - {k} == (m - {k}) - {j};
    }
  }

  function At<K>(m: map<K, nat>, k: K): (r: nat) {
    if k in m then m[k] else 0
  }

  lemma SumUpdate<K>(m: map<K, nat>, k: K, v: nat)
    ensures Sum(m[k := v]) + At(m, k) == Sum(m) + v
  {
    SumRemove(m[k := v], k);
    assert m[k := v] - {k} == m - {k};
    if k in m {
      SumRemove(m, k);
    } else {
      assert m - {k} == m;
    }
  }

  lemma AtMost<K>(m: map<K, nat>, k: K)
    ensures At(m, k) <= Sum(m)
  {
    if k in m {
      SumRemove(m, k);
    }
  }

  /** One listing of a map's keys. */
  ghost function Listing<K, V>(m: map<K, V>): (r: seq<K>)
    ensures |r| == |m|
    ensures (forall i :: 0 <= i < |r| ==> r[i] in m) && (forall k <- m :: k in r)
    ensures forall i, j :: 0 <= i < j < |r| ==> r[i] != r[j]
    decreases |m|
  {
    if m == map[] then []
    else
      var k :| k in m;
      var rest := m - {k};
      assert m.Keys == rest.Keys + {k};
      Listing(rest) + [k]
  }
}
