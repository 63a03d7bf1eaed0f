/** How far the two-pass separable 5x5 can drift from the general 5x5 of the outer-product kernel. */
module SeparableLaws {
  import opened Arithmetic
  import opened Pixels
  import opened Convolution
  import opened ConvolutionLaws
  import opened Separable

  /** The 25 row-major coefficients v[r] * h[c]. */
  function Outer(v: seq<int>, h: seq<int>): (k: seq<int>)
    requires |v| == 5 && |h| == 5
    ensures |k| == 25
  {
    Scaled(v[0], h) + Scaled(v[1], h) + Scaled(v[2], h) + Scaled(v[3], h) + Scaled(v[4], h)
  }

  lemma OuterRow(v: seq<int>, h: seq<int>, r: nat)
    requires |v| == 5 && |h| == 5 && r < 5
    ensures KernelRow(Outer(v, h), 5, r) == Scaled(v[r], h)
  {
    assert r == 0 || r == 1 || r == 2 || r == 3 || r == 4;
  }

  /** The unrounded horizontal sums of the five window rows. */
  function RowSums(s: seq<int>, width: int, h: seq<int>, sel: nat, k: int): (sums: seq<int>)
    requires |h| == 5
    ensures |sums| == 5
    ensures forall r :: 0 <= r < 5 ==> sums[r] == Dot(h, WindowRow(s, width, 5, sel, k, r))
  {
    seq(5, r requires 0 <= r < 5 => Dot(h, WindowRow(s, width, 5, sel, k, r)))
  }

  /** The general accumulator of an outer-product kernel weighs unrounded row sums. */
  lemma OuterSum(s: seq<int>, width: int, h: seq<int>, v: seq<int>, sel: nat, k: int)
    requires |h| == 5 && |v| == 5
    ensures WindowSum(s, width, 5, Outer(v, h), sel, k, 5) == Dot(v, RowSums(s, width, h, sel, k))
  {
    var sums := RowSums(s, width, h, sel, k);
    forall r: nat | r < 5
      ensures Dot(KernelRow(Outer(v, h), 5, r), WindowRow(s, width, 5, sel, k, r)) == v[r] * sums[r]
    {
      OuterRow(v, h, r);
      DotScaled(v[r], h, WindowRow(s, width, 5, sel, k, r));
    }
    WindowSumStep(s, width, 5, Outer(v, h), sel, k);
    Dot5(v, sums);
  }

  /** Quotients and remainders of a whole column at once. */
  function Quotients(x: seq<int>, m: int): (q: seq<int>)
    requires m > 0
    ensures |q| == |x| && forall i :: 0 <= i < |x| ==> q[i] == x[i] / m
  {
    seq(|x|, i requires 0 <= i < |x| => x[i] / m)
  }

  function Remainders(x: seq<int>, m: int): (q: seq<int>)
    requires m > 0
    ensures |q| == |x| && forall i :: 0 <= i < |x| ==> q[i] == x[i] % m
  {
    seq(|x|, i requires 0 <= i < |x| => x[i] % m)
  }

  lemma {:induction false} DotSplit(v: seq<int>, x: seq<int>, m: int)
    requires |v| == |x| && m > 0
    ensures Dot(v, x) == m * Dot(v, Quotients(x, m)) + Dot(v, Remainders(x, m))
  {
    if v != [] {
      var n := |v| - 1;
      DotSplit(v[..n], x[..n], m);
      assert Quotients(x, m)[..n] == Quotients(x[..n], m);
      assert Remainders(x, m)[..n] == Remainders(x[..n], m);
      assert x[n] == m * (x[n] / m) + x[n] % m;
      Distribute(v[n], m, x[n] / m, x[n] % m);
      Distribute(1, m, Dot(v[..n], Quotients(x[..n], m)), v[n] * (x[n] / m));
      assert m * (Dot(v[..n], Quotients(x[..n], m)) + v[n] * (x[n] / m)) ==
             m * Dot(v[..n], Quotients(x[..n], m)) + m * (v[n] * (x[n] / m));
    }
  }

  lemma Distribute(v: int, m: int, q: int, r: int)
    ensures v * (m * q + r) == m * (v * q) + v * r
  {
  }

  /** Rounding once or twice: with the row remainders e of a column weighed to E, the two-step
      quotient of A and the one-step quotient of P*A + E differ by at most the signed gains of v. */
  lemma TwoStepQuotient(a: int, p: int, w: int, e: int, m: nat, n: nat)
    requires p >= 1 && w >= 1
    requires -(n * w * (p - 1)) <= e <= m * w * (p - 1)
    ensures a / w - n <= (p * a + e) / (p * w) <= a / w + m
  {
    var q, b := a / w, a % w;
    var pw := p * w;
    assert pw >= 1 by { MulMonotone(1, p, w); }
    assert p * a == q * pw + p * b by {
      assert a == q * w + b;
      assert p * (q * w + b) == p * (q * w) + p * b;
      assert p * (q * w) == q * (p * w);
    }
    assert 0 <= p * b <= pw - p by {
      MulMonotone(b, w - 1, p); MulMonotone(0, b, p);
      assert p * (w - 1) == pw - p;
    }
    assert m * w * (p - 1) == m * pw - m * w by { Expand(m, w, p); }
    assert n * w * (p - 1) == n * pw - n * w by { Expand(n, w, p); }
    assert m * w >= 0 && n * w >= 0 by { MulMonotone(0, m, w); MulMonotone(0, n, w); }
    assert (q - n) * pw == q * pw - n * pw;
    assert (q + m) * pw == q * pw + m * pw;
    QuotientBetween(p * a + e, q - n, q + m, pw);
  }

  lemma Expand(m: int, w: int, p: int)
    ensures m * w * (p - 1) == m * (p * w) - m * w
  {
  }

  /** No horizontal result reaches the signed 12-bit rails, whatever the pixels are. */
  predicate FitsTwelveBits(h: seq<int>, hshift: nat) {
    && 255 * PosSum(h) < 2048 * Pow2(hshift)
    && 255 * NegSum(h) <= 2048 * Pow2(hshift)
  }

  /** 255 under the taps of one sign, 0 under the others. */
  function Under(h: seq<int>, positive: bool): (x: seq<int>)
    ensures |x| == |h|
  {
    seq(|h|, i requires 0 <= i < |h| => if (h[i] > 0) == positive then 255 else 0)
  }

  lemma {:induction false} UnderSums(h: seq<int>)
    ensures Dot(h, Under(h, true)) == 255 * PosSum(h) && Dot(h, Under(h, false)) == -255 * NegSum(h)
  {
    if h != [] {
      var n := |h| - 1;
      UnderSums(h[..n]);
      assert Under(h, true)[..n] == Under(h[..n], true) && Under(h, false)[..n] == Under(h[..n], false);
    }
  }

  lemma UnderTail(h: seq<int>, positive: bool)
    requires |h| == 5
    ensures Tail(Under(h, positive), 0, 5, 4) == Under(h, positive)
  {
    hide Ch;
    LanesOf(255);
    LanesOf(0);
  }

  /** Requantising to twelve bits leaves a shifted sum alone exactly within the rails; beyond them it is the rail. */
  lemma RailsIff(acc: int, shift: nat)
    ensures Clamp12(Shr(acc, shift)) == Shr(acc, shift) <==> -2048 * Pow2(shift) <= acc < 2048 * Pow2(shift)
    ensures acc < -2048 * Pow2(shift) ==> Clamp12(Shr(acc, shift)) == -2048
    ensures acc >= 2048 * Pow2(shift) ==> Clamp12(Shr(acc, shift)) == 2047
  {
    var p, q := Pow2(shift), Shr(acc, shift);
    assert acc == q * p + acc % p;
    if q > 2047 {
      MulMonotone(2048, q, p);
    } else if q < -2048 {
      MulMonotone(q, -2049, p);
    } else {
      MulMonotone(q, 2047, p);
      MulMonotone(-2048, q, p);
    }
  }

  /** The horizontal pass never saturates, on any stream, exactly if the taps fit: the premise of the
      comparison with the general 5x5. */
  lemma NoSaturationIff(h: seq<int>, hshift: nat)
    requires |h| == 5
    ensures FitsTwelveBits(h, hshift) <==>
            forall s, sel: nat, j :: HOut(s, h, hshift, sel, j) == Shr(Dot(h, Tail(s, sel, 5, j)), hshift)
  {
    hide PosSum, NegSum, Dot, Pow2, Shr, Tail;
    if FitsTwelveBits(h, hshift) {
      forall s, sel: nat, j
        ensures HOut(s, h, hshift, sel, j) == Shr(Dot(h, Tail(s, sel, 5, j)), hshift)
      {
        DotBounds(h, Tail(s, sel, 5, j), 255);
        RailsIff(Dot(h, Tail(s, sel, 5, j)), hshift);
      }
    } else {
      UnderSums(h);
      UnderTail(h, true);
      UnderTail(h, false);
      RailsIff(255 * PosSum(h), hshift);
      RailsIff(-255 * NegSum(h), hshift);
      assert HOut(Under(h, true), h, hshift, 0, 4) == Clamp12(Shr(255 * PosSum(h), hshift));
      assert HOut(Under(h, false), h, hshift, 0, 4) == Clamp12(Shr(-255 * NegSum(h), hshift));
    }
  }

  /** Without saturation the vertical pass weighs the plain floors of the row sums. */
  lemma HColumnIsQuotients(s: seq<int>, width: int, h: seq<int>, hshift: nat, sel: nat, k: int)
    requires |h| == 5 && FitsTwelveBits(h, hshift)
    ensures HColumn(s, width, h, hshift, sel, k) == Quotients(RowSums(s, width, h, sel, k), Pow2(hshift))
  {
    var sums := RowSums(s, width, h, sel, k);
    forall r | 0 <= r < 5
      ensures HColumn(s, width, h, hshift, sel, k)[r] == sums[r] / Pow2(hshift)
    {
      var row := WindowRow(s, width, 5, sel, k, r);
      DotBounds(h, row, 255);
      QuotientBetween(sums[r], -2048, 2047, Pow2(hshift));
    }
  }

  /** The separable output stays within [gen - m, gen + n] of the general 5x5, in every channel of
      every beat including borders, where m and n bound the positive and negative vertical gains. */
  lemma SepVersusGeneral(s: seq<int>, width: int, h: seq<int>, v: seq<int>, hshift: nat, vshift: nat,
                         sel: nat, k: int, m: nat, n: nat)
    requires |h| == 5 && |v| == 5 && FitsTwelveBits(h, hshift)
    requires PosSum(v) <= m * Pow2(vshift) && NegSum(v) <= n * Pow2(vshift)
    ensures var gen := ConvChannel(s, width, Outer(v, h), hshift + vshift, false, 5, sel, k);
      gen - m <= SepChannel(s, width, h, v, hshift, vshift, sel, k) <= gen + n
  {
    hide WindowSum, Dot, PosSum, NegSum, HColumn, Quotients, Remainders, RowSums, Pow2, Outer, FitsTwelveBits;
    var p, w := Pow2(hshift), Pow2(vshift);
    var sums := RowSums(s, width, h, sel, k);
    var e := Dot(v, Remainders(sums, p));
    OuterSum(s, width, h, v, sel, k);
    HColumnIsQuotients(s, width, h, hshift, sel, k);
    DotSplit(v, sums, p);
    DotBounds(v, Remainders(sums, p), p - 1);
    MulMonotone(PosSum(v), m * w, p - 1);
    MulMonotone(NegSum(v), n * w, p - 1);
    TwoStepQuotient(Dot(v, Quotients(sums, p)), p, w, e, m, n);
    Pow2Sum(hshift, vshift);
  }

  /** For nonnegative taps of at most unit gain per pass the separable output is the general one or
      exactly one below it. */
  lemma SepIsGeneralOrOneBelow(s: seq<int>, width: nat, h: seq<int>, v: seq<int>, hshift: nat, vshift: nat,
                               sel: nat, k: nat)
    requires |h| == 5 && |v| == 5 && sel < 3 && k < |s|
    requires NonNegative(h) && PosSum(h) <= Pow2(hshift)
    requires NonNegative(v) && PosSum(v) <= Pow2(vshift)
    ensures var gen := Ch(ConvStream(s, width, Outer(v, h), hshift + vshift, false, true, 5)[k], sel);
      var sep := Ch(SepStream(s, width, h, v, hshift, vshift)[k], sel);
      sep == gen || sep == gen - 1
  {
    hide ConvChannel, SepChannel, ConvPixel, SepPixel, Ch, PosSum, NegSum, Pow2;
    NonNegativeHasNoNegSum(h);
    NonNegativeHasNoNegSum(v);
    SepVersusGeneral(s, width, h, v, hshift, vshift, sel, k, 1, 0);
    ConvLanes(s, width, Outer(v, h), hshift + vshift, false, 5, k);
    SepLanes(s, width, h, v, hshift, vshift, k);
  }

  lemma ConvLanes(s: seq<int>, width: int, coeffs: seq<int>, shift: nat, absf: bool, taps: nat, k: int)
    requires taps * taps <= |coeffs|
    ensures forall sel: nat :: sel < 3 ==>
      Ch(ConvPixel(s, width, coeffs, shift, absf, true, taps, k), sel) ==
      ConvChannel(s, width, coeffs, shift, absf, taps, sel, k)
  {
    hide ConvChannel, Ch;
    RgbLanes(ConvChannel(s, width, coeffs, shift, absf, taps, 2, k),
             ConvChannel(s, width, coeffs, shift, absf, taps, 1, k),
             ConvChannel(s, width, coeffs, shift, absf, taps, 0, k));
  }

  lemma SepLanes(s: seq<int>, width: int, h: seq<int>, v: seq<int>, hshift: nat, vshift: nat, k: int)
    requires |h| == 5 && |v| == 5
    ensures forall sel: nat :: sel < 3 ==>
      Ch(SepPixel(s, width, h, v, hshift, vshift, k), sel) == SepChannel(s, width, h, v, hshift, vshift, sel, k)
  {
    hide SepChannel, Ch;
    RgbLanes(SepChannel(s, width, h, v, hshift, vshift, 2, k),
             SepChannel(s, width, h, v, hshift, vshift, 1, k),
             SepChannel(s, width, h, v, hshift, vshift, 0, k));
  }

  const G5: seq<int> := [1, 4, 6, 4, 1]
  const GEN25: seq<int> := [1, 4, 6, 4, 1, 4, 16, 24, 16, 4, 6, 24, 36, 24, 6, 4, 16, 24, 16, 4, 1, 4, 6, 4, 1]

  /** The shipped kernels are the binomial row of four and its square. */
  lemma GaussIsBinomial(r: nat, c: nat)
    requires r < 5 && c < 5
    ensures G5[0] == 1 && (r < 4 ==> (r + 1) * G5[r + 1] == (4 - r) * G5[r])
    ensures GEN25[5 * r + c] == G5[r] * G5[c]
  {
    assert (r == 0 || r == 1 || r == 2 || r == 3 || r == 4) && (c == 0 || c == 1 || c == 2 || c == 3 || c == 4);
  }

  lemma SumOfFive(a: seq<int>)
    requires |a| == 5 && NonNegative(a)
    ensures PosSum(a) == a[0] + a[1] + a[2] + a[3] + a[4]
  {
    assert a[..4][..3] == a[..3] && a[..3][..2] == a[..2] && a[..2][..1] == a[..1] && a[..1][..0] == [];
    assert PosSum(a[..1]) == a[0];
    assert PosSum(a[..2]) == a[0] + a[1];
    assert PosSum(a[..3]) == a[0] + a[1] + a[2];
  }

  /** The shipped Gaussian: the split 4+4 shift against the general kernel with shift 8. */
  lemma GaussianSplit(s: seq<int>, width: nat, sel: nat, k: nat)
    requires sel < 3 && k < |s|
    ensures var gen := Ch(ConvStream(s, width, GEN25, 8, false, true, 5)[k], sel);
      var sep := Ch(SepStream(s, width, G5, G5, 4, 4)[k], sel);
      sep == gen || sep == gen - 1
  {
    SumOfFive(G5);
    assert Pow2(4) == 16 by { assert Pow2(2) == 4; }
    assert Outer(G5, G5) == GEN25;
    SepIsGeneralOrOneBelow(s, width, G5, G5, 4, 4, sel, k);
  }

  /** One beat of value 2 at the newest corner, weighed 12/16 twice: general 1, separable 0. */
  lemma OneBelowHappens()
    ensures var h := [0, 0, 0, 0, 12];
      && ConvChannel([2], 1, Outer(h, h), 8, false, 5, 0, 0) == 1
      && SepChannel([2], 1, h, h, 4, 4, 0, 0) == 0
  {
    hide WindowSum, HColumn, Outer, Dot;
    var h := [0, 0, 0, 0, 12];
    CornerAccumulators([2], h, h, 4);
    Pow2Sum(4, 4);
    assert Pow2(4) == 16 by { assert Pow2(2) == 4; }
  }

  /** Beyond the 12-bit rail the two part: a corner tap of 9 or more on a white beat is cut to 2047 before
      the vertical shift, so the separable channel stops at 127 while the general one goes on to 255. */
  lemma SaturationParts(a: nat)
    requires a >= 9
    ensures var h, v := [0, 0, 0, 0, a], [0, 0, 0, 0, 1];
      && !FitsTwelveBits(h, 0)
      && ConvChannel([255], 1, Outer(v, h), 4, false, 5, 0, 0) == (if a >= 17 then 255 else 255 * a / 16)
      && SepChannel([255], 1, h, v, 0, 4, 0, 0) == 127
  {
    hide WindowSum, HColumn, Outer, Dot, PosSum, NegSum;
    var h, v := [0, 0, 0, 0, a], [0, 0, 0, 0, 1];
    SumOfFive(h);
    CornerAccumulators([255], h, v, 0);
    assert Pow2(4) == 16 by { assert Pow2(2) == 4; }
  }

  /** The accumulators of a one-beat stream whose kernels only weigh the newest corner. */
  lemma CornerAccumulators(s: seq<int>, h: seq<int>, v: seq<int>, hshift: nat)
    requires |s| == 1 && |h| == 5 && |v| == 5
    requires forall i :: 0 <= i < 4 ==> h[i] == 0 && v[i] == 0
    ensures WindowSum(s, 1, 5, Outer(v, h), 0, 0, 5) == v[4] * (h[4] * Ch(s[0], 0))
    ensures Dot(v, HColumn(s, 1, h, hshift, 0, 0)) == v[4] * Clamp12(Shr(h[4] * Ch(s[0], 0), hshift))
  {
    OuterSum(s, 1, h, v, 0, 0);
    hide Dot, Ch, Pow2, Shr, WindowSum;
    CornerDot(v, RowSums(s, 1, h, 0, 0));
    CornerDot(h, Tail(s, 0, 5, 0));
    CornerDot(v, HColumn(s, 1, h, hshift, 0, 0));
  }

  lemma CornerDot(a: seq<int>, x: seq<int>)
    requires |a| == |x| == 5 && forall i :: 0 <= i < 4 ==> a[i] == 0
    ensures Dot(a, x) == a[4] * x[4]
  {
    Dot5(a, x);
  }
}
