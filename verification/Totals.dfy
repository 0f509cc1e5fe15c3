/** The sum of the values of a finite map. */
module Totals {

  ghost function Total<K>(w: map<K, nat>): nat {
    if w == map[] then 0 else var k :| k in w; w[k] + Total(w - {k})
  }

  lemma {:induction false} TotalRemove<K>(w: map<K, nat>, k: K)
    requires k in w
    ensures Total(w) == w[k] + Total(w - {k})
    decreases |w|
  {
    var j :| j in w && Total(w) == w[j] + Total(w - {j});
    if j != k {
      TotalRemove(w - {j}, k);
      TotalRemove(w - {k}, j);
      assert w - {j} - {k} == w - {k} - {j};
    }
  }

  lemma TotalUpdate<K>(w: map<K, nat>, k: K, v: nat)
    ensures Total(w[k := v]) == v + Total(w - {k})
  {
    TotalRemove(w[k := v], k);
    assert w[k := v] - {k} == w - {k};
  }

  /** Every positive value is matched by one at least as large under the same key. */
  lemma {:induction false} TotalMonotone<K>(v: map<K, nat>, w: map<K, nat>)
    requires forall k :: k in v && v[k] > 0 ==> k in w && v[k] <= w[k]
    ensures Total(v) <= Total(w)
    decreases |v|
  {
    if v != map[] {
      var k :| k in v;
      TotalRemove(v, k);
      if k in w {
        TotalRemove(w, k);
      } else {
        assert w - {k} == w;
      }
      TotalMonotone(v - {k}, w - {k});
    }
  }
}
