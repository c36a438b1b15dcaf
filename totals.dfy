/**
  Sums over the values of a report's account-to-balance map, the
  `sum(d.itervalues())` of the report properties. A map has no order,
  so the sum picks its keys in an unspecified order; TotalRemove shows
  the choice does not matter.
 */
module Totals {
  import opened Books

  ghost function Total(m: map<Account, int>): int
    decreases |m|
  {
    if m == map[] then 0
    else
      var a :| a in m;
      m[a] + Total(m - {a})
  }

  /** Any key can be taken out first. */
  lemma {:induction false} TotalRemove(m: map<Account, int>, a: Account)
    requires a in m
    ensures Total(m) == m[a] + Total(m - {a})
    decreases |m|
  {
    var b :| b in m && Total(m) == m[b] + Total(m - {b});
    if b != a {
      var rest := m - {a} - {b};
      TotalRemove(m - {b}, a);
      TotalRemove(m - {a}, b);
      assert m - {b} - {a} == rest;
    }
  }

  /** A map whose every value is zero totals zero. */
  lemma {:induction false} TotalZero(m: map<Account, int>)
    requires forall a :: a in m ==> m[a] == 0
    ensures Total(m) == 0
    decreases |m|
  {
    if m != map[] {
      var a :| a in m;
      TotalRemove(m, a);
      TotalZero(m - {a});
    }
  }

  /** The total of two maps with disjoint keys is the sum of their totals. */
  lemma {:induction false} TotalUnion(m1: map<Account, int>, m2: map<Account, int>)
    requires m1.Keys !! m2.Keys
    ensures Total(m1 + m2) == Total(m1) + Total(m2)
    decreases |m1|
  {
    if m1 == map[] {
      UnionEmpty(m1, m2);
    } else {
      var a :| a in m1;
      var both := m1 + m2;
      var rest := m1 - {a};
      TotalRemove(both, a);
      TotalRemove(m1, a);
      UnionMinus(m1, m2, a);
      TotalUnion(rest, m2);
    }
  }

  lemma UnionEmpty(m1: map<Account, int>, m2: map<Account, int>)
    requires m1 == map[]
    ensures m1 + m2 == m2
  {
  }

  lemma UnionMinus(m1: map<Account, int>, m2: map<Account, int>, a: Account)
    requires a in m1 && a !in m2
    ensures (m1 + m2) - {a} == (m1 - {a}) + m2
  {
    assert ((m1 + m2) - {a}).Keys == ((m1 - {a}) + m2).Keys;
  }

  /** Totals of maps over the same keys add pointwise. */
  lemma {:induction false} TotalPointwise(m1: map<Account, int>, m2: map<Account, int>, sum: map<Account, int>)
    requires m1.Keys == sum.Keys && m2.Keys == sum.Keys
    requires forall a :: a in sum ==> sum[a] == m1[a] + m2[a]
    ensures Total(sum) == Total(m1) + Total(m2)
    decreases |sum|
  {
    if sum != map[] {
      var a :| a in sum;
      TotalRemove(sum, a);
      TotalRemove(m1, a);
      TotalRemove(m2, a);
      TotalPointwise(m1 - {a}, m2 - {a}, sum - {a});
    }
  }
}
