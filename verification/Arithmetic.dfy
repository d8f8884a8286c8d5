/** The few facts about products and quotients that the proofs use. */
module Arithmetic {

  lemma MulMonotone(b: nat, x: int, y: int)
    requires x <= y
    ensures b * x <= b * y
  {
  }

  lemma MulCancels(b: int, x: int, y: int)
    requires b > 0 && b * x <= b * y
    ensures x <= y
  {
    if x > y {
      MulMonotone(b, y + 1, x);
    }
  }

  /** The quotient of a natural number does not exceed it. */
  lemma QuotientFits(a: nat, b: int)
    requires b > 0
    ensures 0 <= a / b <= a
  {
    QuotientBounds(a, b, a / b, a % b);
  }

  lemma QuotientBounds(a: nat, b: int, q: int, r: int)
    requires a == b * q + r && 0 <= r < b
    ensures 0 <= q <= a
  {
    if q < 0 {
      MulMonotone(b, q, -1);
    } else {
      MulMonotone(q, 1, b);
    }
  }
}
