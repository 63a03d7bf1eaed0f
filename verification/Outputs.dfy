/** What the output bytes of the pipeline stages are worth: the exact sum divided by a power of two, rounded
    down or, when rectified, up in magnitude, and held at the rails. Stated by inequalities on the sums alone. */
module Outputs {
  import opened Arithmetic
  import opened Pixels
  import opened Windows
  import opened Convolution
  import opened ConvolutionLaws
  import opened Separable
  import opened SeparableLaws
  import opened Dog
  import opened Prefilter

  /** o is t / p rounded down, held between lo and hi. */
  predicate Rounds(o: int, t: int, p: int, lo: int, hi: int) {
    && lo <= o <= hi
    && (o > lo ==> o * p <= t)
    && (o < hi ==> t < (o + 1) * p)
  }

  /** o is t / p rounded up, held between 0 and hi. */
  predicate RoundsUp(o: int, t: int, p: int, hi: int) {
    && 0 <= o <= hi
    && (o > 0 ==> (o - 1) * p < t)
    && (o < hi ==> t <= o * p)
  }

  /** o is the magnitude of t / p: rounded down when t is not negative, up when it is, held at 255. */
  predicate Rectified(o: int, t: int, p: int) {
    if t < 0 then RoundsUp(o, -t, p, 255) else Rounds(o, t, p, 0, 255)
  }

  /** The inequalities leave exactly one value. */
  lemma RoundsOnce(a: int, b: int, t: int, p: int, lo: int, hi: int)
    requires p > 0 && Rounds(a, t, p, lo, hi) && Rounds(b, t, p, lo, hi)
    ensures a == b
  {
    if a < b {
      MulMonotone(a + 1, b, p);
    } else if b < a {
      MulMonotone(b + 1, a, p);
    }
  }

  lemma RoundsUpOnce(a: int, b: int, t: int, p: int, hi: int)
    requires p > 0 && RoundsUp(a, t, p, hi) && RoundsUp(b, t, p, hi)
    ensures a == b
  {
    if a < b {
      MulMonotone(a, b - 1, p);
    } else if b < a {
      MulMonotone(b, a - 1, p);
    }
  }

  lemma QuotientSplits(t: int, p: int)
    requires p > 0
    ensures t / p * p <= t < (t / p + 1) * p
  {
    assert t == t / p * p + t % p;
  }

  lemma HeldRounds(q: int, t: int, p: int, lo: int, hi: int)
    requires p > 0 && lo <= hi && q * p <= t < (q + 1) * p
    ensures Rounds(if q < lo then lo else if q > hi then hi else q, t, p, lo, hi)
  {
    if q < lo {
      MulMonotone(q + 1, lo + 1, p);
    } else if q > hi {
      MulMonotone(hi, q, p);
    }
  }

  lemma Clamp8Rounds(t: int, shift: nat)
    ensures Rounds(Clamp8(Shr(t, shift)), t, Pow2(shift), 0, 255)
  {
    hide Rounds, Pow2;
    QuotientSplits(t, Pow2(shift));
    HeldRounds(Shr(t, shift), t, Pow2(shift), 0, 255);
  }

  lemma Clamp12Rounds(t: int, shift: nat)
    ensures Rounds(Clamp12(Shr(t, shift)), t, Pow2(shift), -2048, 2047)
  {
    hide Rounds, Pow2;
    QuotientSplits(t, Pow2(shift));
    HeldRounds(Shr(t, shift), t, Pow2(shift), -2048, 2047);
  }

  /** Negating a floor rounds up. */
  lemma RectifiedRounds(t: int, shift: nat)
    requires t < 0
    ensures Shr(t, shift) < 0 && RoundsUp(Clamp8(-Shr(t, shift)), -t, Pow2(shift), 255)
  {
    hide Pow2;
    var q, p := Shr(t, shift), Pow2(shift);
    QuotientSplits(t, p);
    if q >= 0 {
      MulMonotone(0, q, p);
    }
    assert -q * p == -(q * p) && (-q - 1) * p == -((q + 1) * p);
    if -q > 255 {
      MulMonotone(254, -q - 1, p);
    }
  }

  // ---- general convolution -----------------------------------------------------------------------

  lemma ConvLane(s: seq<int>, width: int, c: seq<int>, shift: nat, absf: bool, taps: nat, sel: nat, k: nat)
    requires taps * taps <= |c| && k < |s| && sel < 3
    ensures Ch(ConvStream(s, width, c, shift, absf, true, taps)[k], sel) == ConvChannel(s, width, c, shift, absf, taps, sel, k)
  {
    hide ConvChannel, Ch;
    RgbLanes(ConvChannel(s, width, c, shift, absf, taps, 2, k), ConvChannel(s, width, c, shift, absf, taps, 1, k),
             ConvChannel(s, width, c, shift, absf, taps, 0, k));
  }

  /** Every lane of every convolved beat: the accumulator divided by the shift's power of two, rounded down;
      a rectified negative one by its magnitude, rounded up. */
  lemma ConvOutput(s: seq<int>, width: int, c: seq<int>, shift: nat, absf: bool, taps: nat, sel: nat, k: nat)
    requires taps * taps <= |c| && k < |s| && sel < 3
    ensures var o, t := Ch(ConvStream(s, width, c, shift, absf, true, taps)[k], sel), WindowSum(s, width, taps, c, sel, k, taps);
      if absf then Rectified(o, t, Pow2(shift)) else Rounds(o, t, Pow2(shift), 0, 255)
  {
    hide Ch, Pow2, Rounds, RoundsUp, WindowSum, ConvStream, Clamp8;
    var t := WindowSum(s, width, taps, c, sel, k, taps);
    ConvLane(s, width, c, shift, absf, taps, sel, k);
    Clamp8Rounds(t, shift);
    if t < 0 {
      RectifiedRounds(t, shift);
    } else {
      QuotientBetween(t, 0, t, Pow2(shift)) by { MulMonotone(1, Pow2(shift), t); }
    }
  }

  lemma {:induction false} NegatedSum(s: seq<int>, width: int, taps: nat, c: seq<int>, sel: nat, k: int, rows: nat)
    requires rows <= taps && taps * taps <= |c|
    ensures WindowSum(s, width, taps, Scaled(-1, c), sel, k, rows) == -WindowSum(s, width, taps, c, sel, k, rows)
  {
    hide WindowRow, Dot;
    if rows > 0 {
      NegatedSum(s, width, taps, c, sel, k, rows - 1);
      DotScaled(-1, KernelRow(c, taps, rows - 1), WindowRow(s, width, taps, sel, k, rows - 1));
      assert KernelRow(Scaled(-1, c), taps, rows - 1) == Scaled(-1, KernelRow(c, taps, rows - 1));
    }
  }

  /** Without a shift, rectifying shows the larger of what the kernel and its negation show. */
  lemma RectifiedIsLarger(s: seq<int>, width: int, c: seq<int>, taps: nat, sel: nat, k: nat)
    requires taps * taps <= |c| && k < |s| && sel < 3
    ensures var plus := Ch(ConvStream(s, width, c, 0, false, true, taps)[k], sel);
      var minus := Ch(ConvStream(s, width, Scaled(-1, c), 0, false, true, taps)[k], sel);
      Ch(ConvStream(s, width, c, 0, true, true, taps)[k], sel) == if plus > minus then plus else minus
  {
    hide Ch, WindowSum, ConvStream;
    NegatedSum(s, width, taps, c, sel, k, taps);
    ConvOutput(s, width, c, 0, true, taps, sel, k);
    ConvOutput(s, width, c, 0, false, taps, sel, k);
    ConvOutput(s, width, Scaled(-1, c), 0, false, taps, sel, k);
    assert Pow2(0) == 1;
  }

  // ---- the other stages --------------------------------------------------------------------------------

  /** Every lane of the separable stage: row sums requantised to twelve signed bits, then weighed vertically. */
  lemma SepOutput(s: seq<int>, width: int, h: seq<int>, v: seq<int>, hshift: nat, vshift: nat, sel: nat, k: nat)
    requires |h| == 5 && |v| == 5 && k < |s| && sel < 3
    ensures var col := HColumn(s, width, h, hshift, sel, k);
      && (forall i :: 0 <= i < 5 ==>
            Rounds(col[i], Dot(h, Tail(s, sel, 5, k - (4 - i) * width)), Pow2(hshift), -2048, 2047))
      && Rounds(Ch(SepStream(s, width, h, v, hshift, vshift)[k], sel), Dot(v, col), Pow2(vshift), 0, 255)
  {
    hide Ch, Pow2, Rounds, Dot, Clamp8, Clamp12, SepChannel, HColumn, Tail;
    var col := HColumn(s, width, h, hshift, sel, k);
    forall i | 0 <= i < 5
      ensures Rounds(col[i], Dot(h, Tail(s, sel, 5, k - (4 - i) * width)), Pow2(hshift), -2048, 2047)
    {
      Clamp12Rounds(Dot(h, Tail(s, sel, 5, k - (4 - i) * width)), hshift);
    }
    SepLanes(s, width, h, v, hshift, vshift, k);
    SepChannelRounds(s, width, h, v, hshift, vshift, sel, k);
  }

  lemma SepChannelRounds(s: seq<int>, width: int, h: seq<int>, v: seq<int>, hshift: nat, vshift: nat, sel: nat, k: int)
    requires |h| == 5 && |v| == 5
    ensures Rounds(SepChannel(s, width, h, v, hshift, vshift, sel, k), Dot(v, HColumn(s, width, h, hshift, sel, k)),
                   Pow2(vshift), 0, 255)
  {
    hide Rounds, Pow2, Dot, HColumn;
    Clamp8Rounds(Dot(v, HColumn(s, width, h, hshift, sel, k)), vshift);
  }

  /** Every lane of the combiner, for any two streams: one branch in modes 0 and 1; the weighted sum in mode 3,
      the weighted difference in every other mode, divided, rounded down and offset. */
  lemma DogOutput(a: seq<int>, b: seq<int>, mode: int, alpha: int, beta: int, shift: nat, offset: int, sel: nat, k: nat)
    requires k < |a| && k < |b| && sel < 3
    ensures var o := Ch(DogStream(a, b, mode, alpha, beta, shift, offset)[k], sel);
      var x, y := Ch(a[k], sel), Ch(b[k], sel);
      && (mode == 0 ==> o == x) && (mode == 1 ==> o == y)
      && (mode == 3 ==> Rounds(o - offset, alpha * x + beta * y, Pow2(shift), -offset, 255 - offset))
      && (mode != 0 && mode != 1 && mode != 3 ==>
            Rounds(o - offset, alpha * x - beta * y, Pow2(shift), -offset, 255 - offset))
  {
    hide Ch, Pow2, Rounds, DogChannel;
    DogLanes(a[k], b[k], mode, alpha, beta, shift, offset);
    DogChannelRounds(Ch(a[k], sel), Ch(b[k], sel), mode, alpha, beta, shift, offset);
  }

  lemma DogChannelRounds(x: int, y: int, mode: int, alpha: int, beta: int, shift: nat, offset: int)
    ensures var o := DogChannel(x, y, mode, alpha, beta, shift, offset);
      && (mode == 0 ==> o == x) && (mode == 1 ==> o == y)
      && (mode == 3 ==> Rounds(o - offset, alpha * x + beta * y, Pow2(shift), -offset, 255 - offset))
      && (mode != 0 && mode != 1 && mode != 3 ==>
            Rounds(o - offset, alpha * x - beta * y, Pow2(shift), -offset, 255 - offset))
  {
    hide Pow2, Rounds, Shr;
    var t := if mode == 3 then alpha * x + beta * y else alpha * x - beta * y;
    OffsetRounds(t, shift, offset);
  }

  lemma OffsetRounds(t: int, shift: nat, offset: int)
    ensures Rounds(Clamp8(Shr(t, shift) + offset) - offset, t, Pow2(shift), -offset, 255 - offset)
  {
    hide Pow2, Rounds;
    QuotientSplits(t, Pow2(shift));
    HeldRounds(Shr(t, shift), t, Pow2(shift), -offset, 255 - offset);
  }

  /** Every lane of pre-filter op 8: the nine taps weighed 1-2-1 both ways, divided by sixteen, rounded down. */
  lemma GaussianOutput(s: seq<int>, width: int, thresh: int, sel: nat, k: nat)
    requires k < |s| && sel < 3
    ensures var v := NineTaps(s, width, sel, k);
      Rounds(Ch(PrefilterStream(s, width, 8, thresh)[k], sel),
             v[0] + 2 * v[1] + v[2] + 2 * v[3] + 4 * v[4] + 2 * v[5] + v[6] + 2 * v[7] + v[8], 16, 0, 255)
  {
    hide Ch, Rounds, ConvStream, NineTaps, PrefilterStream;
    assert Pow2(4) == 16 by { assert Pow2(2) == 4; }
    GaussianAgreesWithConv(s, width, thresh, false);
    ConvOutput(s, width, GAUSS3, 4, false, 3, sel, k);
    GaussianSum(s, width, sel, k);
  }

  lemma GaussianSum(s: seq<int>, width: int, sel: nat, k: int)
    ensures var v := NineTaps(s, width, sel, k);
      WindowSum(s, width, 3, GAUSS3, sel, k, 3) ==
      v[0] + 2 * v[1] + v[2] + 2 * v[3] + 4 * v[4] + 2 * v[5] + v[6] + 2 * v[7] + v[8]
  {
    hide Dot, WindowRow;
    NineWeighed(s, width, GAUSS3, sel, k);
  }

  /** A 3x3 accumulator as nine products. */
  lemma NineWeighed(s: seq<int>, width: int, c: seq<int>, sel: nat, k: int)
    requires |c| == 9
    ensures var v := NineTaps(s, width, sel, k);
      WindowSum(s, width, 3, c, sel, k, 3) ==
      c[0] * v[0] + c[1] * v[1] + c[2] * v[2] + c[3] * v[3] + c[4] * v[4] + c[5] * v[5] + c[6] * v[6] + c[7] * v[7]
      + c[8] * v[8]
  {
    hide Dot, WindowRow;
    WindowSumStep(s, width, 3, c, sel, k);
    Dot3(KernelRow(c, 3, 0), WindowRow(s, width, 3, sel, k, 0));
    Dot3(KernelRow(c, 3, 1), WindowRow(s, width, 3, sel, k, 1));
    Dot3(KernelRow(c, 3, 2), WindowRow(s, width, 3, sel, k, 2));
  }

  // ---- the Sobel sums ------------------------------------------------------------------------------------

  /** The channel value of beat j, zero before the first. */
  function Lane(s: seq<int>, sel: nat, j: int): int { Ch(At(s, j), sel) }

  /** The newest column of three rows less the one two columns back, the middle row twice. */
  function Across(s: seq<int>, width: int, sel: nat, k: int): int {
    var top, mid := k - 2 * width, k - width;
    Lane(s, sel, top) - Lane(s, sel, top - 2) + 2 * (Lane(s, sel, mid) - Lane(s, sel, mid - 2))
    + Lane(s, sel, k) - Lane(s, sel, k - 2)
  }

  /** The newest row of three columns less the one two rows up, the middle column twice. */
  function Down(s: seq<int>, width: int, sel: nat, k: int): int {
    var top := k - 2 * width;
    Lane(s, sel, k) + 2 * Lane(s, sel, k - 1) + Lane(s, sel, k - 2)
    - (Lane(s, sel, top) + 2 * Lane(s, sel, top - 1) + Lane(s, sel, top - 2))
  }

  lemma SobelSums(s: seq<int>, width: int, sel: nat, k: int)
    ensures WindowSum(s, width, 3, [-1, 0, 1, -2, 0, 2, -1, 0, 1], sel, k, 3) == Across(s, width, sel, k)
    ensures WindowSum(s, width, 3, [-1, -2, -1, 0, 0, 0, 1, 2, 1], sel, k, 3) == Down(s, width, sel, k)
  {
    hide WindowSum, NineTaps;
    NineWeighed(s, width, [-1, 0, 1, -2, 0, 2, -1, 0, 1], sel, k);
    NineWeighed(s, width, [-1, -2, -1, 0, 0, 0, 1, 2, 1], sel, k);
    NineLanes(s, width, sel, k);
  }

  lemma NineLanes(s: seq<int>, width: int, sel: nat, k: int)
    ensures var v := NineTaps(s, width, sel, k);
      && v[0] == Lane(s, sel, k - 2 * width - 2) && v[1] == Lane(s, sel, k - 2 * width - 1) && v[2] == Lane(s, sel, k - 2 * width)
      && v[3] == Lane(s, sel, k - width - 2) && v[4] == Lane(s, sel, k - width - 1) && v[5] == Lane(s, sel, k - width)
      && v[6] == Lane(s, sel, k - 2) && v[7] == Lane(s, sel, k - 1) && v[8] == Lane(s, sel, k)
  {
    hide Ch;
  }

  lemma NothingBefore(s: seq<int>, width: nat, sel: nat, k: int)
    requires k < 0
    ensures Down(s, width, sel, k) == 0
  {
    hide Ch;
    ZeroLanes(sel);
  }
}
