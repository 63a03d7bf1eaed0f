/** Powers of two, the arithmetic right shift and the remainder facts the pipeline models share. */
module Arithmetic {

  function Pow2(n: nat): (p: nat)
    ensures p >= 1
  {
    if n == 0 then 1 else 2 * Pow2(n - 1)
  }

  /** Python's `v >> n`: division by a power of two, rounding towards minus infinity. */
  function Shr(v: int, n: nat): int {
    v / Pow2(n)
  }

  lemma {:induction false} Pow2Sum(a: nat, b: nat)
    ensures Pow2(a + b) == Pow2(a) * Pow2(b)
  {
    if a != 0 {
      Pow2Sum(a - 1, b);
      assert 2 * (Pow2(a - 1) * Pow2(b)) == (2 * Pow2(a - 1)) * Pow2(b);
      assert a - 1 + b == a + b - 1;
    }
  }

  lemma {:induction false} Pow2Monotone(a: nat, b: nat)
    requires a <= b
    ensures Pow2(a) <= Pow2(b)
  {
    if a < b {
      Pow2Monotone(a, b - 1);
    }
  }

  lemma MulMonotone(a: int, b: int, k: int)
    requires a <= b && 0 <= k
    ensures a * k <= b * k
    ensures k * a <= k * b
  {
  }

  lemma QuotientIsNat(x: nat, m: int)
    requires m > 0
    ensures 0 <= x / m <= x
  {
    assert x == x / m * m + x % m;
    if x / m < 0 {
      MulMonotone(x / m, -1, m);
    } else if x / m > x {
      MulMonotone(1, m, x / m);
    }
  }

  /** A quotient is pinned by any multiple of the divisor within reach. */
  lemma QuotientIs(x: int, q: int, m: int)
    requires m > 0 && q * m <= x < q * m + m
    ensures x / m == q
  {
    if x / m < q {
      MulMonotone(x / m + 1, q, m);
    } else if x / m > q {
      MulMonotone(q + 1, x / m, m);
    }
  }

  lemma QuotientBetween(x: int, lo: int, hi: int, m: int)
    requires m > 0 && lo * m <= x < hi * m + m
    ensures lo <= x / m <= hi
  {
    if x / m < lo {
      MulMonotone(x / m + 1, lo, m);
    } else if x / m > hi {
      MulMonotone(hi + 1, x / m, m);
    }
  }

  lemma RemainderIs(x: int, q: int, r: int, m: int)
    requires m > 0 && x == q * m + r && 0 <= r < m
    ensures x % m == r && x / m == q
  {
    QuotientIs(x, q, m);
  }

  lemma RemainderShift(x: int, q: int, m: int)
    requires m > 0
    ensures (x + q * m) % m == x % m
  {
    RemainderIs(x + q * m, x / m + q, x % m, m);
  }

  lemma EightBits()
    ensures Pow2(8) == 256
  {
    assert Pow2(4) == 16;
    Pow2Sum(4, 4);
  }
}
