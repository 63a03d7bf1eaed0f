/** Chains of 5x5 stages: what a cascade can see, and the range it stays in. */
module Cascade {
  import opened Arithmetic
  import opened Pixels
  import opened Windows
  import opened Convolution
  import opened Separable
  import opened SeparableLaws
  import opened Dog

  /** One stage of the cascade: the general 5x5 or a separable one. */
  datatype Stage =
    | General(coeffs: seq<int>, shift: nat, absf: bool, en: bool)
    | TwoPass(h: seq<int>, v: seq<int>, hshift: nat, vshift: nat)

  predicate WellFormed(g: Stage) {
    match g
    case General(coeffs, _, _, en) => en ==> |coeffs| >= 25
    case TwoPass(h, v, _, _) => |h| == 5 && |v| == 5
  }

  predicate AllWellFormed(stages: seq<Stage>) {
    forall i :: 0 <= i < |stages| ==> WellFormed(stages[i])
  }

  function RunStage(g: Stage, s: seq<int>, width: int): (out: seq<int>)
    requires WellFormed(g)
    ensures |out| == |s|
  {
    match g
    case General(coeffs, shift, absf, en) => ConvStream(s, width, coeffs, shift, absf, en, 5)
    case TwoPass(h, v, hshift, vshift) => SepStream(s, width, h, v, hshift, vshift)
  }

  /** The output of a whole cascade, first stage first. */
  function RunAll(stages: seq<Stage>, s: seq<int>, width: int): (out: seq<int>)
    requires AllWellFormed(stages)
    ensures |out| == |s|
  {
    if stages == [] then s
    else RunStage(stages[|stages| - 1], RunAll(stages[..|stages| - 1], s, width), width)
  }

  lemma BackTwice(k: int, width: nat, a: nat, b: nat, c: nat, d: nat)
    ensures Back(Back(k, width, a, b), width, c, d) == Back(k, width, a + c, b + d)
    ensures Back(k, width, a, b) <= k
  {
    assert (a + c) * width == a * width + c * width;
    MulMonotone(0, a, width);
  }

  // ---- locality --------------------------------------------------------------

  /** Two streams show the same beats in the (reach+1)-square ending at beat k. */
  ghost predicate Agree(p: seq<int>, q: seq<int>, width: int, k: int, reach: int) {
    forall a: nat, b: nat :: a <= reach && b <= reach ==> At(p, Back(k, width, a, b)) == At(q, Back(k, width, a, b))
  }

  lemma AgreeInside(p: seq<int>, q: seq<int>, width: nat, k: int, reach: nat, extra: nat, a: nat, b: nat)
    requires Agree(p, q, width, k, reach + extra) && a <= reach && b <= reach
    ensures Agree(p, q, width, Back(k, width, a, b), extra)
  {
    forall c: nat, d: nat | c <= extra && d <= extra
      ensures At(p, Back(Back(k, width, a, b), width, c, d)) == At(q, Back(Back(k, width, a, b), width, c, d))
    {
      BackTwice(k, width, a, b, c, d);
    }
  }

  lemma AgreeingRows(p: seq<int>, q: seq<int>, width: int, taps: nat, sel: nat, k: int, r: nat)
    requires Agree(p, q, width, k, taps - 1) && r < taps
    ensures WindowRow(p, width, taps, sel, k, r) == WindowRow(q, width, taps, sel, k, r)
  {
    forall c | 0 <= c < taps
      ensures WindowRow(p, width, taps, sel, k, r)[c] == WindowRow(q, width, taps, sel, k, r)[c]
    {
      assert At(p, Back(k, width, taps - 1 - r, taps - 1 - c)) == At(q, Back(k, width, taps - 1 - r, taps - 1 - c));
    }
  }

  lemma {:induction false} AgreeingSums(p: seq<int>, q: seq<int>, width: int, taps: nat, coeffs: seq<int>,
                                        sel: nat, k: int, rows: nat)
    requires rows <= taps && Agree(p, q, width, k, taps - 1) && taps * taps <= |coeffs|
    ensures WindowSum(p, width, taps, coeffs, sel, k, rows) == WindowSum(q, width, taps, coeffs, sel, k, rows)
  {
    if rows > 0 {
      AgreeingSums(p, q, width, taps, coeffs, sel, k, rows - 1);
      AgreeingRows(p, q, width, taps, sel, k, rows - 1);
    }
  }

  lemma AgreeingColumns(p: seq<int>, q: seq<int>, width: int, h: seq<int>, hshift: nat, sel: nat, k: int)
    requires |h| == 5 && Agree(p, q, width, k, 4)
    ensures HColumn(p, width, h, hshift, sel, k) == HColumn(q, width, h, hshift, sel, k)
  {
    forall i | 0 <= i < 5
      ensures HColumn(p, width, h, hshift, sel, k)[i] == HColumn(q, width, h, hshift, sel, k)[i]
    {
      AgreeingRows(p, q, width, 5, sel, k, i);
    }
  }

  /** One stage at beat k sees nothing outside the 5x5 square ending at k. */
  lemma StageLocality(g: Stage, p: seq<int>, q: seq<int>, width: nat, k: int)
    requires WellFormed(g) && |p| == |q| && Agree(p, q, width, k, 4)
    ensures At(RunStage(g, p, width), k) == At(RunStage(g, q, width), k)
  {
    hide WindowSum, HColumn;
    match g
    case General(coeffs, shift, absf, en) =>
      if en {
        AgreeingSums(p, q, width, 5, coeffs, 2, k, 5);
        AgreeingSums(p, q, width, 5, coeffs, 1, k, 5);
        AgreeingSums(p, q, width, 5, coeffs, 0, k, 5);
      } else {
        assert At(p, Back(k, width, 2, 2)) == At(q, Back(k, width, 2, 2));
      }
    case TwoPass(h, v, hshift, vshift) =>
      AgreeingColumns(p, q, width, h, hshift, 2, k);
      AgreeingColumns(p, q, width, h, hshift, 1, k);
      AgreeingColumns(p, q, width, h, hshift, 0, k);
  }

  /** After n stages, with any kernels, beat k depends only on P(k - a*width - b), 0 <= a, b <= 4n. */
  lemma {:induction false} CascadeLocality(stages: seq<Stage>, p: seq<int>, q: seq<int>, width: nat, k: int)
    requires AllWellFormed(stages) && |p| == |q| && Agree(p, q, width, k, 4 * |stages|)
    ensures At(RunAll(stages, p, width), k) == At(RunAll(stages, q, width), k)
  {
    if stages == [] {
      assert At(p, Back(k, width, 0, 0)) == At(q, Back(k, width, 0, 0));
    } else {
      var n := |stages| - 1;
      var p', q' := RunAll(stages[..n], p, width), RunAll(stages[..n], q, width);
      forall a: nat, b: nat | a <= 4 && b <= 4
        ensures At(p', Back(k, width, a, b)) == At(q', Back(k, width, a, b))
      {
        AgreeInside(p, q, width, k, 4, 4 * n, a, b);
        CascadeLocality(stages[..n], p, q, width, Back(k, width, a, b));
      }
      StageLocality(stages[n], p', q', width, k);
    }
  }

  // ---- range -----------------------------------------------------------------

  /** Total weight of the first `rows` kernel rows. */
  function RowGain(coeffs: seq<int>, taps: nat, rows: nat): (g: nat)
    requires rows <= taps && taps * taps <= |coeffs|
  {
    if rows == 0 then 0 else RowGain(coeffs, taps, rows - 1) + PosSum(KernelRow(coeffs, taps, rows - 1))
  }

  /** Nonnegative taps whose total is exactly the divisor. */
  predicate UnityKernel(coeffs: seq<int>, taps: nat, shift: nat) {
    taps * taps <= |coeffs| && NonNegative(coeffs) && RowGain(coeffs, taps, taps) == Pow2(shift)
  }

  predicate UnityTaps(a: seq<int>, shift: nat) {
    NonNegative(a) && PosSum(a) == Pow2(shift)
  }

  predicate UnityGain(g: Stage) {
    match g
    case General(coeffs, shift, _, en) => en && UnityKernel(coeffs, 5, shift)
    case TwoPass(h, v, hshift, vshift) => |h| == 5 && |v| == 5 && UnityTaps(h, hshift) && UnityTaps(v, vshift)
  }

  /** Channel sel stays in [lo, hi] over the (reach+1)-square ending at beat k. */
  ghost predicate Within(s: seq<int>, width: int, k: int, reach: int, sel: nat, lo: int, hi: int) {
    forall a: nat, b: nat :: a <= reach && b <= reach ==> lo <= Ch(At(s, Back(k, width, a, b)), sel) <= hi
  }

  lemma WithinInside(s: seq<int>, width: nat, k: int, reach: nat, extra: nat, sel: nat, lo: int, hi: int, a: nat, b: nat)
    requires Within(s, width, k, reach + extra, sel, lo, hi) && a <= reach && b <= reach
    ensures Within(s, width, Back(k, width, a, b), extra, sel, lo, hi)
  {
    forall c: nat, d: nat | c <= extra && d <= extra
      ensures lo <= Ch(At(s, Back(Back(k, width, a, b), width, c, d)), sel) <= hi
    {
      BackTwice(k, width, a, b, c, d);
    }
  }

  lemma RowWithin(s: seq<int>, width: int, taps: nat, sel: nat, k: int, r: nat, lo: int, hi: int)
    requires Within(s, width, k, taps - 1, sel, lo, hi) && r < taps
    ensures forall c :: 0 <= c < taps ==> lo <= WindowRow(s, width, taps, sel, k, r)[c] <= hi
  {
    forall c | 0 <= c < taps
      ensures lo <= WindowRow(s, width, taps, sel, k, r)[c] <= hi
    {
      assert lo <= Ch(At(s, Back(k, width, taps - 1 - r, taps - 1 - c)), sel) <= hi;
    }
  }

  lemma {:induction false} SumWithin(s: seq<int>, width: int, taps: nat, coeffs: seq<int>, sel: nat, k: int,
                                     rows: nat, lo: int, hi: int)
    requires rows <= taps && taps * taps <= |coeffs| && NonNegative(coeffs)
    requires Within(s, width, k, taps - 1, sel, lo, hi)
    ensures RowGain(coeffs, taps, rows) * lo <= WindowSum(s, width, taps, coeffs, sel, k, rows)
    ensures WindowSum(s, width, taps, coeffs, sel, k, rows) <= RowGain(coeffs, taps, rows) * hi
  {
    hide WindowRow, KernelRow, Dot, PosSum, Within;
    if rows > 0 {
      SumWithin(s, width, taps, coeffs, sel, k, rows - 1, lo, hi);
      RowWithin(s, width, taps, sel, k, rows - 1, lo, hi);
      var row := KernelRow(coeffs, taps, rows - 1);
      DotRange(row, WindowRow(s, width, taps, sel, k, rows - 1), lo, hi);
      DistributeGain(RowGain(coeffs, taps, rows - 1), PosSum(row), lo);
      DistributeGain(RowGain(coeffs, taps, rows - 1), PosSum(row), hi);
    }
  }

  lemma DistributeGain(a: int, b: int, x: int)
    ensures (a + b) * x == a * x + b * x
  {
  }

  /** A sum of unit gain, shifted back, stays between the bounds of its inputs. */
  lemma UnityShift(acc: int, shift: nat, lo: int, hi: int)
    requires Pow2(shift) * lo <= acc <= Pow2(shift) * hi
    ensures lo <= Shr(acc, shift) <= hi
  {
    QuotientBetween(acc, lo, hi, Pow2(shift));
  }

  lemma ConvChannelRange(s: seq<int>, width: int, coeffs: seq<int>, shift: nat, absf: bool, taps: nat, sel: nat,
                         k: int, lo: int, hi: int)
    requires UnityKernel(coeffs, taps, shift) && 0 <= lo && hi <= 255
    requires Within(s, width, k, taps - 1, sel, lo, hi)
    ensures lo <= ConvChannel(s, width, coeffs, shift, absf, taps, sel, k) <= hi
  {
    SumWithin(s, width, taps, coeffs, sel, k, taps, lo, hi);
    UnityShift(WindowSum(s, width, taps, coeffs, sel, k, taps), shift, lo, hi);
  }

  lemma SepChannelRange(s: seq<int>, width: int, h: seq<int>, v: seq<int>, hshift: nat, vshift: nat, sel: nat,
                        k: int, lo: int, hi: int)
    requires |h| == 5 && |v| == 5 && UnityTaps(h, hshift) && UnityTaps(v, vshift) && 0 <= lo && hi <= 255
    requires Within(s, width, k, 4, sel, lo, hi)
    ensures lo <= SepChannel(s, width, h, v, hshift, vshift, sel, k) <= hi
  {
    hide Within;
    var column := HColumn(s, width, h, hshift, sel, k);
    forall i | 0 <= i < 5
      ensures lo <= column[i] <= hi
    {
      var row := WindowRow(s, width, 5, sel, k, i);
      RowWithin(s, width, 5, sel, k, i, lo, hi);
      DotRange(h, row, lo, hi);
      UnityShift(Dot(h, row), hshift, lo, hi);
    }
    DotRange(v, column, lo, hi);
    UnityShift(Dot(v, column), vshift, lo, hi);
  }

  lemma StageRange(g: Stage, s: seq<int>, width: nat, k: int, sel: nat, lo: int, hi: int)
    requires WellFormed(g) && UnityGain(g) && sel < 3 && 0 <= lo && hi <= 255
    requires Within(s, width, k, 4, sel, lo, hi)
    ensures lo <= Ch(At(RunStage(g, s, width), k), sel) <= hi
  {
    if 0 <= k < |s| {
      match g
      case General(coeffs, shift, absf, _) =>
        ConvChannelRange(s, width, coeffs, shift, absf, 5, sel, k, lo, hi);
        ConvLanes(s, width, coeffs, shift, absf, 5, k);
      case TwoPass(h, v, hshift, vshift) =>
        SepChannelRange(s, width, h, v, hshift, vshift, sel, k, lo, hi);
        SepLanes(s, width, h, v, hshift, vshift, k);
    } else {
      BackTwice(k, width, 0, 0, 0, 0);
      assert lo <= Ch(At(s, Back(k, width, 0, 0)), sel) <= hi;
    }
  }

  /** A cascade of unity-gain stages never leaves the range of the inputs it can see. */
  lemma {:induction false} CascadeRange(stages: seq<Stage>, s: seq<int>, width: nat, k: int, sel: nat, lo: int, hi: int)
    requires AllWellFormed(stages) && sel < 3 && 0 <= lo && hi <= 255
    requires forall i :: 0 <= i < |stages| ==> UnityGain(stages[i])
    requires Within(s, width, k, 4 * |stages|, sel, lo, hi)
    ensures lo <= Ch(At(RunAll(stages, s, width), k), sel) <= hi
  {
    if stages == [] {
      assert lo <= Ch(At(s, Back(k, width, 0, 0)), sel) <= hi;
    } else {
      var n := |stages| - 1;
      var s' := RunAll(stages[..n], s, width);
      forall a: nat, b: nat | a <= 4 && b <= 4
        ensures lo <= Ch(At(s', Back(k, width, a, b)), sel) <= hi
      {
        WithinInside(s, width, k, 4, 4 * n, sel, lo, hi, a, b);
        CascadeRange(stages[..n], s, width, Back(k, width, a, b), sel, lo, hi);
      }
      StageRange(stages[n], s', width, k, sel, lo, hi);
    }
  }

  // ---- the shipped three-stage cascade ------------------------------------------

  const SHIPPED: seq<Stage> := [General(GEN25, 8, false, true), TwoPass(G5, G5, 4, 4), TwoPass(G5, G5, 4, 4)]

  method CascadeGolden(stream: seq<int>, width: int)
    returns (t1: seq<int>, t2: seq<int>, t3: seq<int>, dg: seq<int>)
    requires width >= 1
    ensures t1 == RunAll(SHIPPED[..1], stream, width)
    ensures t2 == RunAll(SHIPPED[..2], stream, width)
    ensures t3 == RunAll(SHIPPED, stream, width)
    ensures dg == DogStream(t1, t3, 2, 1, 1, 0, 128)
  {
    t1 := ConvGolden(stream, width, GEN25, 8, false, true, 5);
    t2 := Conv5x5SepGolden(t1, width, G5, G5, 4, 4);
    t3 := Conv5x5SepGolden(t2, width, G5, G5, 4, 4);
    dg := DogCombineGolden(t1, t3, 2, 1, 1, 0, 128);
    ShippedPrefixes(stream, width);
  }

  lemma ShippedPrefixes(stream: seq<int>, width: int)
    ensures AllWellFormed(SHIPPED)
    ensures RunAll(SHIPPED[..1], stream, width) == RunStage(SHIPPED[0], stream, width)
    ensures RunAll(SHIPPED[..2], stream, width) == RunStage(SHIPPED[1], RunAll(SHIPPED[..1], stream, width), width)
    ensures RunAll(SHIPPED, stream, width) == RunStage(SHIPPED[2], RunAll(SHIPPED[..2], stream, width), width)
  {
    hide RunStage;
    assert SHIPPED[..1][..0] == [] && SHIPPED[..2][..1] == SHIPPED[..1];
  }

  lemma GaussianRows(r: nat)
    requires r < 5
    ensures PosSum(KernelRow(GEN25, 5, r)) == 16 * G5[r]
  {
    hide PosSum;
    var row := KernelRow(GEN25, 5, r);
    assert row == Scaled(G5[r], G5) by {
      assert r == 0 || r == 1 || r == 2 || r == 3 || r == 4;
    }
    SumOfFive(row);
  }

  lemma ShippedIsUnity()
    ensures forall i :: 0 <= i < |SHIPPED| ==> UnityGain(SHIPPED[i])
  {
    hide PosSum, RowGain, KernelRow;
    SumOfFive(G5);
    assert Pow2(4) == 16 by { assert Pow2(2) == 4; }
    Pow2Sum(4, 4);
    GaussianRows(0); GaussianRows(1); GaussianRows(2); GaussianRows(3); GaussianRows(4);
    GainStep(GEN25, 5);
  }

  lemma GainStep(coeffs: seq<int>, taps: nat)
    requires taps * taps <= |coeffs|
    ensures RowGain(coeffs, taps, 0) == 0
    ensures forall r: nat :: r < taps ==>
      RowGain(coeffs, taps, r + 1) == RowGain(coeffs, taps, r) + PosSum(KernelRow(coeffs, taps, r))
  {
  }

  /** The 13x13 result: tap t3 at beat k stays between the extremes of the 13x13 square ending at k. */
  lemma ThirteenByThirteen(s: seq<int>, width: nat, k: nat, sel: nat, lo: int, hi: int)
    requires k < |s| && sel < 3 && 0 <= lo && hi <= 255 && Within(s, width, k, 12, sel, lo, hi)
    ensures AllWellFormed(SHIPPED) && lo <= Ch(RunAll(SHIPPED, s, width)[k], sel) <= hi
  {
    ShippedIsUnity();
    CascadeRange(SHIPPED, s, width, k, sel, lo, hi);
  }

  /** Where the 5x5 neighbourhood of a beat is flat, two unity-gain branches cancel up to their weights:
      with alpha == beta the difference reads `offset`, whatever the kernels and the value are. */
  lemma FlatDog(s: seq<int>, width: nat, ka: seq<int>, sa: nat, kb: seq<int>, sb: nat, alpha: int, beta: int,
                shift: nat, offset: int, k: nat, sel: nat, v: int)
    requires UnityKernel(ka, 3, sa) && UnityKernel(kb, 5, sb) && |ka| >= 9 && |kb| >= 25
    requires k < |s| && sel < 3 && Within(s, width, k, 4, sel, v, v)
    ensures var o := Ch(DogChain(s, width, ka, sa, kb, sb, 2, alpha, beta, shift, offset)[k], sel);
      && o == Clamp8(Shr((alpha - beta) * v, shift) + offset)
      && (alpha == beta && IsByte(offset) ==> o == offset)
  {
    hide ConvPixel, Ch, Shr, Pow2, UnityKernel, Within;
    FlatConv(s, width, ka, sa, 3, k, sel, v);
    FlatConv(s, width, kb, sb, 5, k, sel, v);
    var a, b := ConvPixel(s, width, ka, sa, false, true, 3, k), ConvPixel(s, width, kb, sb, false, true, 5, k);
    DogLanes(a, b, 2, alpha, beta, shift, offset);
    DistributeGain(alpha, -beta, v);
    if alpha == beta { ZeroShift(shift); }
  }

  lemma ZeroShift(shift: nat)
    ensures Shr(0, shift) == 0
  {
    UnityShift(0, shift, 0, 0);
  }

  /** A unity-gain kernel reproduces a flat neighbourhood. */
  lemma FlatConv(s: seq<int>, width: nat, coeffs: seq<int>, shift: nat, taps: nat, k: nat, sel: nat, v: int)
    requires UnityKernel(coeffs, taps, shift) && 1 <= taps <= 5
    requires k < |s| && sel < 3 && Within(s, width, k, 4, sel, v, v)
    ensures Ch(ConvPixel(s, width, coeffs, shift, false, true, taps, k), sel) == v
  {
    hide Ch, ConvChannel, ConvPixel, Pow2;
    assert v == Ch(At(s, Back(k, width, 0, 0)), sel);
    ConvChannelRange(s, width, coeffs, shift, false, taps, sel, k, v, v);
    ConvLanes(s, width, coeffs, shift, false, taps, k);
  }
}
