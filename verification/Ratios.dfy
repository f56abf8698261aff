/** Counts as exact fractions. */
module Ratios {

  function Ratio(n: nat, total: nat): real
    requires total > 0
  {
    n as real / total as real
  }

  function Abs(x: real): real {
    if x < 0.0 then -x else x
  }

  lemma RatioTimes(n: nat, total: nat)
    requires total > 0
    ensures Ratio(n, total) * total as real == n as real
  {
  }

  lemma WholeOverWhole(n: nat)
    requires n > 0
    ensures n as real / n as real == 1.0
  {
  }

  /** Times the count, the quotient gives the whole. */
  predicate IsQuotient(x: real, y: real, n: nat) {
    x * n as real == y
  }

  lemma QuotientExactly(x: real, y: real, n: nat)
    requires n > 0
    ensures IsQuotient(x, y, n) <==> x == y / n as real
  {
  }
}
