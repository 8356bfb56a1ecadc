/** Sums over the values of a map. */
module MapSums {
  ghost function Sum(m: map<nat, nat>): nat {
    if m == map[] then 0 else
      var k :| k in m;
      m[k] + Sum(m - {k})
  }

  lemma {:induction false} SumSplit(m: map<nat, nat>, k: nat)
    requires k in m
    ensures Sum(m) == m[k] + Sum(m - {k})
  {
    var j :| j in m && Sum(m) == m[j] + Sum(m - {j});
    if j == k {
    } else {
      SumSplit(m - {j}, k);
      SumSplit(m - {k}, j);
      assert m - {j} - {k} == m - {k} - {j};
    }
  }

  lemma SumUpdate(m: map<nat, nat>, k: nat, c: nat)
    ensures Sum(m[k := c]) == Sum(m) - (if k in m then m[k] else 0) + c
  {
    SumSplit(m[k := c], k);
    if k in m {
      SumSplit(m, k);
      assert m[k := c] - {k} == m - {k};
    } else {
      assert m[k := c] - {k} == m;
    }
  }

  lemma SingleSum(m: map<nat, nat>, k: nat)
    requires k in m && |m| == 1
    ensures Sum(m) == m[k]
  {
    SumSplit(m, k);
    assert |m.Keys - {k}| == 0;
    assert m - {k} == map[];
  }

  /** The running total grows by the value under p. */
  ghost predicate Grows(m: map<nat, nat>, total: nat -> nat, p: nat) {
    p in m && total(p + 1) == total(p) + m[p]
  }

  /** Values under 0..n-1 that are the steps of a running total add up to it. */
  lemma {:induction false} SumBelow(m: map<nat, nat>, total: nat -> nat, n: nat)
    requires total(0) == 0 && forall p :: p in m ==> p < n
    requires forall p: nat :: p < n ==> Grows(m, total, p)
    ensures Sum(m) == total(n)
  {
    if n == 0 {
      assert m == map[];
    } else {
      var rest := m - {n - 1};
      assert Grows(m, total, n - 1);
      SumSplit(m, n - 1);
      forall p: nat | p < n - 1
        ensures Grows(rest, total, p)
      {
        assert Grows(m, total, p);
      }
      SumBelow(rest, total, n - 1);
    }
  }
}
