/** Facts about maps: sizes after an update, and sums of values, which no order of summing changes. */
module Maps {

  lemma PutKeys<S, V>(m: map<S, V>, t: S, v: V)
    ensures m[t := v].Keys == m.Keys + {t}
    ensures |m[t := v]| == |m| + if t in m then 0 else 1
  {
    var r := m[t := v];
    assert r.Keys == m.Keys + {t} && |r| == |r.Keys| && |m| == |m.Keys|;
    if t in m {
      assert r.Keys == m.Keys;
    }
  }

  /** The sum of a map's values. */
  ghost function SumValues<T>(m: map<T, nat>): (r: nat)
    decreases |m|
  {
    if m == map[] then 0
    else
      var k := AnyKey(m);
      RemoveKey(m, k);
      m[k] + SumValues(m - {k})
  }

  ghost function AnyKey<T>(m: map<T, nat>): (r: T)
    requires m != map[]
    ensures r in m
  {
    assert m.Keys != {};
    var k :| k in m.Keys;
    k
  }

  lemma RemoveKey<T>(m: map<T, nat>, k: T)
    requires k in m
    ensures |m - {k}| < |m|
  {
    assert (m - {k}).Keys == m.Keys - {k};
    assert |m - {k}| == |(m - {k}).Keys| && |m| == |m.Keys|;
  }

  /** The sum may be taken in any order. */
  lemma {:induction false} SumAnyOrder<T>(m: map<T, nat>, k: T)
    requires k in m
    ensures SumValues(m) == m[k] + SumValues(m - {k})
    decreases |m|
  {
    var j := AnyKey(m);
    RemoveKey(m, j);
    RemoveKey(m, k);
    if j != k {
      SumAnyOrder(m - {j}, k);
      SumAnyOrder(m - {k}, j);
      assert m - {j} - {k} == m - {k} - {j};
    }
  }

  lemma SumPut<T>(m: map<T, nat>, k: T, v: nat)
    ensures SumValues(m[k := v]) == SumValues(m) - (if k in m then m[k] else 0) + v
  {
    SumAnyOrder(m[k := v], k);
    assert m[k := v] - {k} == m - {k};
    if k in m {
      SumAnyOrder(m, k);
    } else {
      assert m - {k} == m;
    }
  }
}
