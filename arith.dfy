/** Integer division facts the grid and chunk arithmetic rely on. Dafny's
    `/` and `%` agree with Go's here because every operand is non-negative. */
module Arith {

  lemma {:induction false} MulAtLeast(a: nat, d: nat)
    requires a >= 1
    ensures a * d >= d
  {
    if a > 1 {
      MulAtLeast(a - 1, d);
      assert a * d == (a - 1) * d + d;
    }
  }

  lemma MulMonotone(a: int, b: int, d: nat)
    requires a <= b
    ensures a * d <= b * d
  {
    if a < b {
      MulAtLeast(b - a, d);
      assert b * d == (b - a) * d + a * d;
    }
  }

  /** A quotient and remainder in range are the quotient and remainder. */
  lemma DivModUnique(x: int, d: int, q: int, r: int)
    requires d > 0 && x == q * d + r && 0 <= r < d
    ensures x / d == q && x % d == r
  {
    var q', r' := x / d, x % d;
    assert (q - q') * d == r' - r by {
      assert (q - q') * d == q * d - q' * d;
    }
    if q - q' >= 1 {
      MulAtLeast(q - q', d);
    } else if q' - q >= 1 {
      MulAtLeast(q' - q, d);
    }
  }

  lemma DivStep(x: nat, d: nat)
    requires d > 0
    ensures (x + d) / d == x / d + 1
  {
    DivModUnique(x + d, d, x / d + 1, x % d);
  }
}
