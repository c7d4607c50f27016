/** Integer facts about Python's `//` and `%` with a positive divisor,
    where they agree with Dafny's. */
module Arith {

  /** Quotient and remainder are determined by `n == q * d + r`,
      `0 <= r < d`. */
  lemma DivModUnique(n: nat, d: nat, q: int, r: int)
    requires d > 0 && n == q * d + r && 0 <= r < d
    ensures n / d == q && n % d == r
  {
    var q', r' := n / d, n % d;
    assert n == q' * d + r' && 0 <= r' < d;
    assert (q - q') * d == r' - r;
    if q > q' {
      MulAtLeast(q - q', d);
    } else if q < q' {
      MulAtLeast(q' - q, d);
    }
  }

  lemma {:induction false} MulAtLeast(e: int, d: nat)
    requires e >= 1
    ensures e * d >= d
    decreases e
  {
    if e > 1 {
      MulAtLeast(e - 1, d);
      assert e * d == (e - 1) * d + d;
    }
  }
}
