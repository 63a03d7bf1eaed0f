/** Point operations and the 3x3 pre-filter stage. */
module Prefilter {
  import opened Arithmetic
  import opened Pixels
  import opened Windows
  import opened Convolution
  import opened ConvolutionLaws
  import opened Median

  /** The shared point operation; grey and threshold key on green, unknown codes pass through. */
  function PointOp(p: int, op: int, thresh: int): int {
    var r, g, b := Ch(p, 2), Ch(p, 1), Ch(p, 0);
    if op == 1 then Rgb(255 - r, 255 - g, 255 - b)
    else if op == 2 then Rgb(g, g, g)
    else if op == 3 then Rgb(b, g, r)
    else if op == 4 then if g > thresh then 0xFF_FFFF else 0
    else if op == 5 then Rgb(r, 0, 0)
    else if op == 6 then Rgb(0, g, 0)
    else if op == 7 then b
    else p
  }

  lemma PlainLanes(sel: nat)
    requires sel < 3
    ensures Ch(0xFF_FFFF, sel) == 255 && Ch(0, sel) == 0
  {
    LanesOf(0xFF_FFFF);
    LanesOf(0);
  }

  /** Every point operation lane by lane. */
  lemma PointOpLanes(p: int, op: int, thresh: int, sel: nat)
    requires sel < 3
    ensures Ch(PointOp(p, op, thresh), sel) ==
      if op == 1 then 255 - Ch(p, sel)
      else if op == 2 then Ch(p, 1)
      else if op == 3 then Ch(p, 2 - sel)
      else if op == 4 then (if Ch(p, 1) > thresh then 255 else 0)
      else if op == 5 || op == 6 || op == 7 then (if sel == 7 - op then Ch(p, sel) else 0)
      else Ch(p, sel)
  {
    hide Ch;
    var r, g, b := Ch(p, 2), Ch(p, 1), Ch(p, 0);
    PlainLanes(sel);
    RgbLanes(255 - r, 255 - g, 255 - b);
    RgbLanes(g, g, g);
    RgbLanes(b, g, r);
    RgbLanes(r, 0, 0);
    RgbLanes(0, g, 0);
    RgbLanes(0, 0, b);
  }

  lemma SameLanes(p: int, q: int)
    requires Ch(p, 2) == Ch(q, 2) && Ch(p, 1) == Ch(q, 1) && Ch(p, 0) == Ch(q, 0) && IsPixel(p) && IsPixel(q)
    ensures p == q
  {
    hide Ch;
    LanesRebuild(p);
    LanesRebuild(q);
  }

  lemma PointOpIsPixel(p: int, op: int, thresh: int)
    requires IsPixel(p)
    ensures IsPixel(PointOp(p, op, thresh))
  {
    hide Ch;
  }

  /** Inverting and swapping red with blue undo themselves; grey and the single channels are done once. */
  lemma PointOpTwice(p: int, op: int, thresh: int)
    requires IsPixel(p) && op != 4
    ensures PointOp(PointOp(p, op, thresh), op, thresh) == if op == 1 || op == 3 then p else PointOp(p, op, thresh)
  {
    hide PointOp, Ch;
    var q := PointOp(p, op, thresh);
    var t := PointOp(q, op, thresh);
    PointOpIsPixel(p, op, thresh);
    PointOpIsPixel(q, op, thresh);
    PointOpLanes(p, op, thresh, 0); PointOpLanes(p, op, thresh, 1); PointOpLanes(p, op, thresh, 2);
    PointOpLanes(q, op, thresh, 0); PointOpLanes(q, op, thresh, 1); PointOpLanes(q, op, thresh, 2);
    SameLanes(t, if op == 1 || op == 3 then p else q);
  }

  function ProcSlot(s: seq<int>, op: int, thresh: int): (out: seq<int>)
    ensures |out| == |s| && forall k :: 0 <= k < |s| ==> out[k] == PointOp(s[k], op, thresh)
  {
    seq(|s|, k requires 0 <= k < |s| => PointOp(s[k], op, thresh))
  }

  /** The nine channel values of the window at beat k, row by row. */
  function NineTaps(s: seq<int>, width: int, sel: nat, k: int): (vals: seq<int>)
    ensures |vals| == 9
  {
    WindowRow(s, width, 3, sel, k, 0) + WindowRow(s, width, 3, sel, k, 1) + WindowRow(s, width, 3, sel, k, 2)
  }

  /** (corners + 2*edges + 4*centre) >> 4 */
  function Smooth(v: seq<int>): int
    requires |v| == 9
  {
    Shr(v[0] + v[2] + v[6] + v[8] + 2 * (v[1] + v[3] + v[5] + v[7]) + 4 * v[4], 4)
  }

  function PrefilterPixel(s: seq<int>, width: int, op: int, thresh: int, k: int): int {
    if op == 8 then
      Rgb(Smooth(NineTaps(s, width, 2, k)), Smooth(NineTaps(s, width, 1, k)), Smooth(NineTaps(s, width, 0, k)))
    else if op == 9 then
      Rgb(Median9(NineTaps(s, width, 2, k)), Median9(NineTaps(s, width, 1, k)), Median9(NineTaps(s, width, 0, k)))
    else PointOp(At(s, TapBeat(width, 3, k, 1, 1)), op, thresh)
  }

  function PrefilterStream(s: seq<int>, width: int, op: int, thresh: int): (out: seq<int>)
    ensures |out| == |s|
    ensures forall k :: 0 <= k < |s| ==> out[k] == PrefilterPixel(s, width, op, thresh, k)
  {
    seq(|s|, k requires 0 <= k < |s| => PrefilterPixel(s, width, op, thresh, k))
  }

  lemma NineTapsAt(s: seq<int>, width: int, sel: nat, r: nat, c: nat)
    requires r < 3 && c < 3
    ensures NineTaps(s, width, sel, |s| - 1)[3 * r + c] == Ch(WindowTap(s, width, 3, r, c), sel)
  {
    hide Ch;
    assert NineTaps(s, width, sel, |s| - 1)[3 * r + c] == WindowRow(s, width, 3, sel, |s| - 1, r)[c];
  }

  /** Reading the live window lane by lane. */
  method ReadNine(g: WindowGenerator, sel: nat) returns (vals: seq<int>)
    requires g.Valid() && g.taps == 3
    ensures vals == NineTaps(g.seen, g.width, sel, |g.seen| - 1)
  {
    hide Ch, NineTaps, WindowTap;
    vals := [];
    ghost var all := NineTaps(g.seen, g.width, sel, |g.seen| - 1);
    for r := 0 to 3
      invariant vals == all[..3 * r]
    {
      for c := 0 to 3
        invariant vals == all[..3 * r + c]
      {
        assert g.win[r, c] == WindowTap(g.seen, g.width, 3, r, c);
        NineTapsAt(g.seen, g.width, sel, r, c);
        vals := vals + [Ch(g.win[r, c], sel)];
      }
    }
  }

  function FilterLane(op: int, v: seq<int>): int
    requires |v| == 9
  {
    if op == 8 then Smooth(v) else Median9(v)
  }

  method PrefilterBeat(g: WindowGenerator, op: int, thresh: int) returns (px: int)
    requires g.Valid() && g.taps == 3
    ensures px == PrefilterPixel(g.seen, g.width, op, thresh, |g.seen| - 1)
  {
    hide NineTaps, FilterLane, PointOp;
    if op != 8 && op != 9 {
      return PointOp(g.win[1, 1], op, thresh);
    }
    px := 0;
    ghost var k := |g.seen| - 1;
    for i := 0 to 3
      invariant px == Lanes(i, FilterLane(op, NineTaps(g.seen, g.width, 2, k)),
                            FilterLane(op, NineTaps(g.seen, g.width, 1, k)),
                            FilterLane(op, NineTaps(g.seen, g.width, 0, k)))
    {
      var v := ReadNine(g, 2 - i);
      var value := FilterOf(op, v);
      px := px * 256 + value;
    }
    FilterPixel(g.seen, g.width, op, thresh, k);
  }

  lemma FilterPixel(s: seq<int>, width: int, op: int, thresh: int, k: int)
    requires op == 8 || op == 9
    ensures PrefilterPixel(s, width, op, thresh, k) ==
            Rgb(FilterLane(op, NineTaps(s, width, 2, k)), FilterLane(op, NineTaps(s, width, 1, k)),
                FilterLane(op, NineTaps(s, width, 0, k)))
  {
    hide Smooth, NineTaps, Median9;
  }

  method FilterOf(op: int, v: seq<int>) returns (value: int)
    requires |v| == 9
    ensures value == FilterLane(op, v)
  {
    if op == 8 {
      var corner := v[0] + v[2] + v[6] + v[8];
      var edge := v[1] + v[3] + v[5] + v[7];
      value := Shr(corner + 2 * edge + 4 * v[4], 4);
    } else {
      value := Sorted(v)[4];
    }
  }

  method PrefilterGolden(pixels: seq<int>, width: int, op: int, thresh: int) returns (out: seq<int>)
    requires width >= 1
    ensures out == PrefilterStream(pixels, width, op, thresh)
  {
    hide PrefilterPixel;
    out := [];
    var g := new WindowGenerator(width, 3);
    for n := 0 to |pixels|
      invariant g.Valid() && g.width == width && g.taps == 3 && g.seen == pixels[..n]
      invariant fresh(g) && fresh(g.lb) && fresh(g.win)
      invariant |out| == n
      invariant forall k :: 0 <= k < n ==> out[k] == PrefilterPixel(pixels, width, op, thresh, k)
    {
      g.Step(pixels[n]);
      assert g.seen == pixels[..n + 1];
      var px := PrefilterBeat(g, op, thresh);
      CausalPrefilter(pixels, n, width, op, thresh);
      out := out + [px];
    }
  }

  lemma CausalPrefilter(s: seq<int>, n: nat, width: int, op: int, thresh: int)
    requires n < |s| && width >= 1
    ensures PrefilterPixel(s[..n + 1], width, op, thresh, n) == PrefilterPixel(s, width, op, thresh, n)
  {
    hide WindowRow, Median9, Smooth;
    forall sel: nat
      ensures NineTaps(s[..n + 1], width, sel, n) == NineTaps(s, width, sel, n)
    {
      CausalRow(s, n, width, 3, sel, 0); CausalRow(s, n, width, 3, sel, 1); CausalRow(s, n, width, 3, sel, 2);
    }
    TapsReachBack(width, 3, n, 1, 1);
  }

  // ---- the models agree with each other -------------------------------------------

  const GAUSS3: seq<int> := [1, 2, 1, 2, 4, 2, 1, 2, 1]

  /** The weighted window of three rows, for any rows. */
  lemma GaussianRows(a: seq<int>, b: seq<int>, c: seq<int>)
    requires |a| == |b| == |c| == 3
    requires forall i :: 0 <= i < 3 ==> IsByte(a[i]) && IsByte(b[i]) && IsByte(c[i])
    ensures Smooth(a + b + c) == Shr(Dot([1, 2, 1], a) + Dot([2, 4, 2], b) + Dot([1, 2, 1], c), 4)
    ensures IsByte(Smooth(a + b + c))
  {
    Dot3([1, 2, 1], a);
    Dot3([2, 4, 2], b);
    Dot3([1, 2, 1], c);
    assert Pow2(4) == 16 by { assert Pow2(2) == 4; }
  }

  lemma GaussianLane(s: seq<int>, width: int, absf: bool, sel: nat, k: int)
    ensures ConvChannel(s, width, GAUSS3, 4, absf, 3, sel, k) == Smooth(NineTaps(s, width, sel, k))
    ensures IsByte(Smooth(NineTaps(s, width, sel, k)))
  {
    hide Dot, Smooth;
    WindowSumStep(s, width, 3, GAUSS3, sel, k);
    assert KernelRow(GAUSS3, 3, 0) == [1, 2, 1] && KernelRow(GAUSS3, 3, 1) == [2, 4, 2];
    assert KernelRow(GAUSS3, 3, 2) == [1, 2, 1];
    GaussianRows(WindowRow(s, width, 3, sel, k, 0), WindowRow(s, width, 3, sel, k, 1), WindowRow(s, width, 3, sel, k, 2));
  }

  /** Pre-filter op 8 is the 3x3 convolution with the Gaussian kernel and shift 4, on every beat. */
  lemma GaussianAgreesWithConv(s: seq<int>, width: int, thresh: int, absf: bool)
    ensures PrefilterStream(s, width, 8, thresh) == ConvStream(s, width, GAUSS3, 4, absf, true, 3)
  {
    hide Smooth, ConvChannel;
    forall k: nat | k < |s|
      ensures PrefilterPixel(s, width, 8, thresh, k) == ConvPixel(s, width, GAUSS3, 4, absf, true, 3, k)
    {
      GaussianLane(s, width, absf, 2, k); GaussianLane(s, width, absf, 1, k); GaussianLane(s, width, absf, 0, k);
    }
  }

  /** A pre-filter point op is the point slot's op on the beat one row and one column earlier; before
      that beat exists it sees the zero pixel. */
  lemma PointOpsAgreeWithSlot(s: seq<int>, width: nat, op: int, thresh: int, k: nat)
    requires op != 8 && op != 9 && k < |s|
    ensures PrefilterStream(s, width, op, thresh)[k] ==
            if k < width + 1 then PointOp(0, op, thresh) else ProcSlot(s, op, thresh)[k - (width + 1)]
  {
  }

  // ---- the median stage over streams ------------------------------------------------

  lemma InvertedTap(s: seq<int>, width: nat, thresh: int, sel: nat, k: nat, r: int, c: int)
    requires 2 * width + 2 <= k < |s| && sel < 3 && 0 <= r < 3 && 0 <= c < 3
    ensures WindowRow(ProcSlot(s, 1, thresh), width, 3, sel, k, r)[c] == 255 - WindowRow(s, width, 3, sel, k, r)[c]
  {
    var j := k - (2 - r) * width - (2 - c);
    assert 0 <= j < |s|;
    RgbLanes(255 - Ch(s[j], 2), 255 - Ch(s[j], 1), 255 - Ch(s[j], 0));
  }

  /** Once all nine taps are real beats, inverting the stream inverts their values. */
  lemma InvertedTaps(s: seq<int>, width: nat, thresh: int, sel: nat, k: nat)
    requires 2 * width + 2 <= k < |s| && sel < 3
    ensures NineTaps(ProcSlot(s, 1, thresh), width, sel, k) == Inverted(NineTaps(s, width, sel, k))
  {
    hide ProcSlot, WindowRow;
    forall r | 0 <= r < 3
      ensures WindowRow(ProcSlot(s, 1, thresh), width, 3, sel, k, r) == Inverted(WindowRow(s, width, 3, sel, k, r))
    {
      InvertedTap(s, width, thresh, sel, k, r, 0);
      InvertedTap(s, width, thresh, sel, k, r, 1);
      InvertedTap(s, width, thresh, sel, k, r, 2);
    }
  }

  lemma MedianLane(s: seq<int>, width: int, sel: nat, k: int)
    ensures IsByte(Median9(NineTaps(s, width, sel, k)))
  {
    var v := NineTaps(s, width, sel, k);
    MedianIsAMember(v);
    assert forall i :: 0 <= i < 9 ==> IsByte(v[i]);
  }

  /** Op 9 commutes with inverting the whole stream on every beat whose window is all real beats. */
  lemma MedianCommutesWithInversion(s: seq<int>, width: nat, thresh: int, k: nat)
    requires 2 * width + 2 <= k < |s|
    ensures PrefilterStream(ProcSlot(s, 1, thresh), width, 9, thresh)[k] ==
            PointOp(PrefilterStream(s, width, 9, thresh)[k], 1, thresh)
  {
    hide NineTaps, Median9, Ch;
    forall sel: nat | sel < 3
      ensures Median9(NineTaps(ProcSlot(s, 1, thresh), width, sel, k)) == 255 - Median9(NineTaps(s, width, sel, k))
    {
      InvertedTaps(s, width, thresh, sel, k);
      MedianInverts(NineTaps(s, width, sel, k));
    }
    MedianLane(s, width, 2, k); MedianLane(s, width, 1, k); MedianLane(s, width, 0, k);
    RgbLanes(Median9(NineTaps(s, width, 2, k)), Median9(NineTaps(s, width, 1, k)), Median9(NineTaps(s, width, 0, k)));
  }

  /** Four zeros beside the first among nine bytes. */
  predicate FourZeros(vals: seq<int>)
    requires |vals| == 9
  {
    || (vals[1] == vals[2] == vals[3] == vals[4] == 0)
    || (vals[5] == vals[6] == vals[7] == vals[8] == 0)
    || (vals[1] == vals[3] == vals[5] == vals[7] == 0)
    || (vals[2] == vals[4] == vals[6] == vals[8] == 0)
  }

  /** Five zeros among nine bytes make the median zero. */
  lemma ZeroMedian(vals: seq<int>)
    requires |vals| == 9 && forall i :: 0 <= i < 9 ==> IsByte(vals[i])
    requires vals[0] == 0 && FourZeros(vals)
    ensures Median9(vals) == 0
  {
    hide Below, Sorted, Median9;
    BelowOfNine(vals, 0);
    BelowOfNine(vals, 1);
    MedianIsMiddleRank(vals, 0);
  }

  /** A stream of k + 1 beats that is white on the newest row and column, black before; on rows of one column
      it alternates, white last. */
  function Checkered(width: nat, k: nat): (s: seq<int>)
    ensures |s| == k + 1
  {
    seq(k + 1, t requires 0 <= t < k + 1 => if White(width, k - t) then 0xFF_FFFF else 0)
  }

  predicate White(width: nat, back: int) { if width == 1 then back % 2 == 0 else back <= width }

  /** A tap of the checkered stream and of its inversion: black and white exchanged, padding black in both. */
  lemma CheckeredTap(width: nat, k: nat, thresh: int, sel: nat, r: nat, c: nat)
    requires sel < 3 && r < 3 && c < 3
    ensures var back := (2 - r) * width + (2 - c);
      var s := Checkered(width, k);
      && NineTaps(s, width, sel, k)[3 * r + c] == (if back <= k && White(width, back) then 255 else 0)
      && NineTaps(ProcSlot(s, 1, thresh), width, sel, k)[3 * r + c] == (if back <= k && !White(width, back) then 255 else 0)
  {
    hide Ch, NineTaps, PointOp, White;
    var s := Checkered(width, k);
    NineTapsAt(s, width, sel, r, c);
    NineTapsAt(ProcSlot(s, 1, thresh), width, sel, r, c);
    MulMonotone(0, 2 - r, width);
    PlainLanes(sel);
    PointOpLanes(0, 1, thresh, sel);
    PointOpLanes(0xFF_FFFF, 1, thresh, sel);
  }

  lemma CheckeredTaps(width: nat, k: nat, thresh: int, sel: nat)
    requires width >= 1 && k < 2 * width + 2 && sel < 3
    ensures var s := Checkered(width, k);
      Median9(NineTaps(s, width, sel, k)) == 0 && Median9(NineTaps(ProcSlot(s, 1, thresh), width, sel, k)) == 0
  {
    hide NineTaps, Checkered, ProcSlot, Median9;
    var s := Checkered(width, k);
    CheckeredTap(width, k, thresh, sel, 0, 0);
    CheckeredTap(width, k, thresh, sel, 0, 1);
    CheckeredTap(width, k, thresh, sel, 0, 2);
    CheckeredTap(width, k, thresh, sel, 1, 0);
    CheckeredTap(width, k, thresh, sel, 1, 1);
    CheckeredTap(width, k, thresh, sel, 1, 2);
    CheckeredTap(width, k, thresh, sel, 2, 0);
    CheckeredTap(width, k, thresh, sel, 2, 1);
    CheckeredTap(width, k, thresh, sel, 2, 2);
    NineBytes(s, width, sel, k);
    NineBytes(ProcSlot(s, 1, thresh), width, sel, k);
    ZeroMedian(NineTaps(s, width, sel, k));
    ZeroMedian(NineTaps(ProcSlot(s, 1, thresh), width, sel, k));
  }

  lemma NineBytes(s: seq<int>, width: int, sel: nat, k: int)
    ensures forall i :: 0 <= i < 9 ==> IsByte(NineTaps(s, width, sel, k)[i])
  {
    hide Ch;
  }

  lemma BlackPixelInverts(thresh: int)
    ensures PointOp(0, 1, thresh) == 0xFF_FFFF
  {
    LanesOf(0);
  }

  /** Before that beat the checkered stream tells the two apart, for every row width. */
  lemma BorderBreaksInversion(width: nat, thresh: int, k: nat)
    requires width >= 1 && k < 2 * width + 2
    ensures var s := Checkered(width, k);
      PrefilterStream(ProcSlot(s, 1, thresh), width, 9, thresh)[k] != PointOp(PrefilterStream(s, width, 9, thresh)[k], 1, thresh)
  {
    hide NineTaps, Median9, ProcSlot, PointOp, Checkered;
    CheckeredTaps(width, k, thresh, 2);
    CheckeredTaps(width, k, thresh, 1);
    CheckeredTaps(width, k, thresh, 0);
    BlackPixelInverts(thresh);
  }

  /** Op 9 commutes with inversion at a beat, for every stream, exactly when the window there is all real
      beats: the padding on the border stays black when the stream is inverted. */
  lemma InversionIff(width: nat, thresh: int, k: nat)
    requires width >= 1
    ensures (forall s: seq<int> :: |s| > k ==>
               PrefilterStream(ProcSlot(s, 1, thresh), width, 9, thresh)[k] ==
               PointOp(PrefilterStream(s, width, 9, thresh)[k], 1, thresh))
            <==> k >= 2 * width + 2
  {
    hide PrefilterStream, ProcSlot, PointOp, Checkered;
    if k >= 2 * width + 2 {
      forall s: seq<int> | |s| > k
        ensures PrefilterStream(ProcSlot(s, 1, thresh), width, 9, thresh)[k] ==
                PointOp(PrefilterStream(s, width, 9, thresh)[k], 1, thresh)
      {
        MedianCommutesWithInversion(s, width, thresh, k);
      }
    } else {
      BorderBreaksInversion(width, thresh, k);
    }
  }

  /** Op 9 in channel terms: a value held by five of the nine taps is the output. */
  lemma MajorityOverStreams(s: seq<int>, width: nat, thresh: int, k: nat, sel: nat, v: int)
    requires k < |s| && sel < 3 && multiset(NineTaps(s, width, sel, k))[v] >= 5
    ensures Ch(PrefilterStream(s, width, 9, thresh)[k], sel) == v
  {
    hide NineTaps, Ch;
    MedianLane(s, width, 2, k); MedianLane(s, width, 1, k); MedianLane(s, width, 0, k);
    RgbLanes(Median9(NineTaps(s, width, 2, k)), Median9(NineTaps(s, width, 1, k)), Median9(NineTaps(s, width, 0, k)));
    MajorityWins(NineTaps(s, width, sel, k), v);
  }
}
