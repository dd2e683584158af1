/** The sum over a map's entries, taken in any order. */
module MapSums {

  ghost function Total<K, V>(m: map<K, V>, f: V -> real): real
    decreases |m|
  {
    if m == map[] then 0.0
    else
      var k :| k in m;
      f(m[k]) + Total(m - {k}, f)
  }

  lemma {:induction false} TotalRemove<K, V>(m: map<K, V>, f: V -> real, k: K)
    requires k in m
    ensures Total(m, f) == f(m[k]) + Total(m - {k}, f)
    decreases |m|
  {
    var j :| j in m && Total(m, f) == f(m[j]) + Total(m - {j}, f);
    if j != k {
      TotalRemove(m - {j}, f, k);
      TotalRemove(m - {k}, f, j);
      assert m - {j} - {k} == m - {k} - {j};
    }
  }

  function Itself(x: real): real {
    x
  }

  function Count(n: nat): real {
    n as real
  }
}
