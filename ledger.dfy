/**
 * Summing payment amounts the way `reduce((acc, p) => acc + p.amount, 0)`
 * does: a left fold that starts at 0.
 */
module Ledger {
  import opened FundTypes

  function SumAmounts(ps: seq<Payment>): int
  {
    if ps == [] then 0 else SumAmounts(ps[..|ps| - 1]) + ps[|ps| - 1].amount
  }

  /** The fold splits over concatenation, so the order of accumulation does not matter. */
  lemma {:induction false} SumAmountsAppend(a: seq<Payment>, b: seq<Payment>)
    decreases |b|
    ensures SumAmounts(a + b) == SumAmounts(a) + SumAmounts(b)
  {
    if b == [] {
      assert a + b == a;
    } else {
      var n := |b| - 1;
      assert (a + b)[..|a + b| - 1] == a + b[..n];
      SumAmountsAppend(a, b[..n]);
    }
  }

  /** A single payment sums to its own amount. */
  lemma SumAmountsSingle(p: Payment)
    ensures SumAmounts([p]) == p.amount
  {
    assert [p][..0] == [];
  }
}
