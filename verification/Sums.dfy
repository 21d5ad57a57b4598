/** Adding up the values of a map, in whatever order, and counting. */
module Sums {

  ghost function Sum<K>(m: map<K, nat>): nat
    decreases |m|
  {
    if m == map[] then 0
    else
      var k :| k in m;
      m[k] + Sum(m - {k})
  }

  /** The sum does not depend on the order of adding. */
  lemma {:induction false} SumWithout<K>(m: map<K, nat>, k: K)
    requires k in m
    ensures Sum(m) == m[k] + Sum(m - {k})
    decreases |m|
  {
    var first :| first in m && Sum(m) == m[first] + Sum(m - {first});
    if first != k {
      SumWithout(m - {first}, k);
      SumWithout(m - {k}, first);
      assert m - {first} - {k} == m - {k} - {first};
    }
  }

  lemma SumReplaced<K>(m: map<K, nat>, k: K, value: nat)
    requires k in m
    ensures Sum(m[k := value]) == Sum(m) - m[k] + value
  {
    SumWithout(m, k);
    SumWithout(m[k := value], k);
    assert m[k := value] - {k} == m - {k};
  }

  lemma OneFewer<K, V>(m: map<K, V>, k: K)
    requires k in m
    ensures |m - {k}| == |m| - 1
  {
    assert |m.Keys| == |m| && |(m - {k}).Keys| == |m - {k}|;
    assert m.Keys == (m - {k}).Keys + {k};
  }

  lemma {:induction false} Indices(n: nat) returns (all: set<nat>)
    ensures |all| == n && forall i: nat :: i in all <==> i < n
  {
    all := {};
    if n > 0 {
      var fewer := Indices(n - 1);
      all := fewer + {n - 1};
    }
  }
}
