/** Hermite's identity with saturation: m biases 0..m-1 spread a value over the codes around v / m. */
module Hermite {
  import opened Arithmetic
  import opened Sums

  function Min(a: int, b: int): int { if a <= b then a else b }

  /** The code under bias b. */
  function RunCode(v: int, m: int, top: int): int -> int
    requires m > 0
  {
    b => Min(top, (v + b) / m)
  }

  lemma BiasedCode(v: int, a: int, r: int, m: int, top: int, b: int)
    requires 0 <= r < m && 0 <= a < top && 0 <= b < m && v == a * m + r
    ensures RunCode(v, m, top)(b) == if r + b < m then a else a + 1
  {
    assert (a + 1) * m == a * m + m;
    if r + b < m {
      QuotientIs(v + b, a, m);
      assert (v + b) / m == a;
    } else {
      QuotientIs(v + b, a + 1, m);
      assert (v + b) / m == a + 1;
    }
    assert RunCode(v, m, top)(b) == Min(top, (v + b) / m);
  }

  /** Hermite's identity for one run of biases 0..n-1, n <= m. */
  lemma {:induction false} RunOfBiases(v: int, a: int, r: int, m: int, top: int, n: nat)
    requires 0 <= r < m && n <= m && 0 <= a < top && v == a * m + r
    ensures Sum(RunCode(v, m, top), n) == n * a + if n <= m - r then 0 else n - (m - r)
  {
    hide RunCode;
    if n > 0 {
      RunOfBiases(v, a, r, m, top, n - 1);
      BiasedCode(v, a, r, m, top, n - 1);
      assert n * a == (n - 1) * a + a;
    }
  }

  /** At the top code every bias saturates. */
  lemma TopRun(v: int, m: int, top: int)
    requires m > 0 && top * m <= v
    ensures Sum(RunCode(v, m, top), m) == m * top
  {
    var run := RunCode(v, m, top);
    forall b: int | 0 <= b < m
      ensures run(b) == top
    {
      if (v + b) / m < top {
        QuotientBetween(v + b, top, (v + b) / m, m);
      }
    }
    SumConstant(run, m, top);
  }

  lemma RunOfCodes(v: int, m: int, top: int)
    requires m > 0 && 0 <= v < top * m + m && top >= 0
    ensures Sum(RunCode(v, m, top), m) == Min(v, top * m)
  {
    var a, r := v / m, v % m;
    assert v == a * m + r;
    QuotientBetween(v, 0, top, m);
    if a < top {
      RunOfBiases(v, a, r, m, top, m);
      MulMonotone(a + 1, top, m);
      assert (a + 1) * m == a * m + m;
    } else {
      TopRun(v, m, top);
    }
  }
}
