/** Sums over finite maps. */
module Sums {

  ghost function Sum<T(!new)>(m: map<T, nat>): (s: nat)
    decreases |m|
  {
    if m == map[] then 0
    else
      var k :| k in m;
      SmallerMap(m, k);
      m[k] + Sum(m - {k})
  }

  lemma SmallerMap<T>(m: map<T, nat>, k: T)
    requires k in m
    ensures |m - {k}| < |m|
  {
    assert (m - {k}).Keys == m.Keys - {k};
    assert |m - {k}| == |(m - {k}).Keys|;
  }

  /** A sum does not depend on the order in which it is taken. */
  lemma {:induction false} SumWithout<T(!new)>(m: map<T, nat>, k: T)
    requires k in m
    ensures Sum(m) == m[k] + Sum(m - {k})
    decreases |m|
  {
    var j :| j in m && Sum(m) == m[j] + Sum(m - {j});
    if j != k {
      SmallerMap(m, j);
      SmallerMap(m, k);
      SumWithout(m - {j}, k);
      SumWithout(m - {k}, j);
      assert m - {j} - {k} == m - {k} - {j};
    }
  }

  lemma SumWith<T(!new)>(m: map<T, nat>, k: T, n: nat)
    ensures Sum(m[k := n]) == n + Sum(m - {k})
    ensures k !in m ==> Sum(m[k := n]) == n + Sum(m)
  {
    SumWithout(m[k := n], k);
    assert m[k := n] - {k} == m - {k};
    if k !in m {
      assert m - {k} == m;
    }
  }

  lemma {:induction false} SumMonotone<T(!new)>(a: map<T, nat>, b: map<T, nat>)
    requires a.Keys == b.Keys && forall p :: p in a ==> a[p] <= b[p]
    ensures Sum(a) <= Sum(b)
    decreases |a|
  {
    if a != map[] {
      var p :| p in a;
      SumWithout(a, p);
      SumWithout(b, p);
      SmallerMap(a, p);
      SumMonotone(a - {p}, b - {p});
    } else {
      assert b == map[];
    }
  }

  lemma {:induction false} SumBounded<T(!new)>(a: map<T, nat>, k: nat)
    requires forall p :: p in a ==> a[p] <= k
    ensures Sum(a) <= k * |a|
    decreases |a|
  {
    if a != map[] {
      var p :| p in a;
      SumWithout(a, p);
      SmallerMap(a, p);
      assert |a - {p}| == |a| - 1 by {
        assert (a - {p}).Keys == a.Keys - {p} && |a - {p}| == |(a - {p}).Keys|;
      }
      SumBounded(a - {p}, k);
      OneMore(k, |a|);
    }
  }

  lemma OneMore(k: nat, n: nat)
    requires n > 0
    ensures k * (n - 1) + k == k * n
  {
  }
}
