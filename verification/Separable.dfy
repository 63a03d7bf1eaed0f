/** The two-pass separable 5x5: streaming method, closed form, and its distance from the general 5x5. */
module Separable {
  import opened Arithmetic
  import opened Pixels
  import opened Windows
  import opened Convolution
  import opened ConvolutionLaws

  /** Horizontal pass at beat j: requantised to signed 12 bits; zero before the first beat. */
  function HOut(s: seq<int>, h: seq<int>, hshift: nat, sel: nat, j: int): (v: int)
    requires |h| == 5
    ensures -2048 <= v <= 2047
  {
    Clamp12(Shr(Dot(h, Tail(s, sel, 5, j)), hshift))
  }

  /** The five horizontal results above each other that the vertical pass weighs, oldest first. */
  function HColumn(s: seq<int>, width: int, h: seq<int>, hshift: nat, sel: nat, k: int): (col: seq<int>)
    requires |h| == 5
    ensures |col| == 5
    ensures forall i :: 0 <= i < 5 ==> col[i] == HOut(s, h, hshift, sel, k - (4 - i) * width)
  {
    seq(5, i requires 0 <= i < 5 => HOut(s, h, hshift, sel, k - (4 - i) * width))
  }

  function SepChannel(s: seq<int>, width: int, h: seq<int>, v: seq<int>, hshift: nat, vshift: nat, sel: nat, k: int)
    : (b: int)
    requires |h| == 5 && |v| == 5
    ensures IsByte(b)
  {
    Clamp8(Shr(Dot(v, HColumn(s, width, h, hshift, sel, k)), vshift))
  }

  function SepPixel(s: seq<int>, width: int, h: seq<int>, v: seq<int>, hshift: nat, vshift: nat, k: int): int
    requires |h| == 5 && |v| == 5
  {
    Rgb(SepChannel(s, width, h, v, hshift, vshift, 2, k),
        SepChannel(s, width, h, v, hshift, vshift, 1, k),
        SepChannel(s, width, h, v, hshift, vshift, 0, k))
  }

  function SepStream(s: seq<int>, width: int, h: seq<int>, v: seq<int>, hshift: nat, vshift: nat): (out: seq<int>)
    requires |h| == 5 && |v| == 5
    ensures |out| == |s|
    ensures forall k :: 0 <= k < |s| ==> out[k] == SepPixel(s, width, h, v, hshift, vshift, k)
  {
    seq(|s|, k requires 0 <= k < |s| => SepPixel(s, width, h, v, hshift, vshift, k))
  }

  /** The horizontal lanes {B, G, R} of one beat, as stored in the line buffers. */
  function HLanes(s: seq<int>, h: seq<int>, hshift: nat, j: int): (lanes: seq<int>)
    requires |h| == 5
    ensures |lanes| == 3 && forall sel :: 0 <= sel < 3 ==> lanes[sel] == HOut(s, h, hshift, sel, j)
  {
    [HOut(s, h, hshift, 0, j), HOut(s, h, hshift, 1, j), HOut(s, h, hshift, 2, j)]
  }

  lemma LanesBeforeStart(s: seq<int>, h: seq<int>, hshift: nat, j: int)
    requires |h| == 5 && j < 0
    ensures HLanes(s, h, hshift, j) == [0, 0, 0]
  {
    forall sel: nat | sel < 3
      ensures HOut(s, h, hshift, sel, j) == 0
    {
      DotWithZeros(h, Tail(s, sel, 5, j));
    }
  }

  /** One weighted sum of five, as both passes form it. */
  method WeightedSum(a: seq<int>, x: seq<int>) returns (acc: int)
    requires |a| == |x| == 5
    ensures acc == Dot(a, x)
  {
    acc := 0;
    for i := 0 to 5
      invariant acc == Dot(a[..i], x[..i])
    {
      DotStep(a, x, i);
      acc := acc + a[i] * x[i];
    }
    assert a[..5] == a && x[..5] == x;
  }

  method HorizontalPass(pixels: seq<int>, h: seq<int>, hshift: nat) returns (hout: seq<seq<int>>)
    requires |h| == 5
    ensures |hout| == |pixels|
    ensures forall k :: 0 <= k < |hout| ==> hout[k] == HLanes(pixels, h, hshift, k)
  {
    var hwin := [0, 0, 0, 0, 0];
    hout := [];
    for n := 0 to |pixels|
      invariant |hwin| == 5 && |hout| == n
      invariant forall i :: 0 <= i < 5 ==> hwin[i] == At(pixels, n - 1 - (4 - i))
      invariant forall k :: 0 <= k < n ==> hout[k] == HLanes(pixels, h, hshift, k)
    {
      hwin := hwin[1..] + [pixels[n]];
      var chans := [0, 0, 0];
      for sel := 0 to 3
        invariant |chans| == 3
        invariant forall i :: 0 <= i < 3 ==> chans[i] == if i < sel then HOut(pixels, h, hshift, i, n) else 0
      {
        var row := seq(5, i requires 0 <= i < 5 && |hwin| == 5 => Ch(hwin[i], sel));
        assert row == Tail(pixels, sel, 5, n);
        var acc := WeightedSum(h, row);
        chans := chans[sel := Clamp12(Shr(acc, hshift))];
      }
      hout := hout + [chans];
    }
  }

  /** One output lane from the five lane triples of a column, oldest first. */
  function VLane(v: seq<int>, vshift: nat, column: seq<seq<int>>, sel: nat): (b: int)
    requires |v| == |column| == 5 && sel < 3 && forall i :: 0 <= i < 5 ==> |column[i]| == 3
    ensures IsByte(b)
  {
    Clamp8(Shr(Dot(v, [column[0][sel], column[1][sel], column[2][sel], column[3][sel], column[4][sel]]), vshift))
  }

  /** One column of the vertical pass: read before write, cascade, weigh. */
  method VerticalBeat(lb: array2<seq<int>>, c: nat, cur: seq<int>, v: seq<int>, vshift: nat) returns (px: int)
    requires lb.Length0 == 4 && c < lb.Length1 && |v| == 5 && |cur| == 3
    requires forall i :: 0 <= i < 4 ==> |lb[i, c]| == 3
    modifies lb
    ensures forall i, d :: 0 <= i < 4 && 0 <= d < lb.Length1 ==>
      lb[i, d] == if d != c then old(lb[i, d]) else if i == 0 then cur else old(lb[i - 1, d])
    ensures var column := [old(lb[3, c]), old(lb[2, c]), old(lb[1, c]), old(lb[0, c]), cur];
      px == Rgb(VLane(v, vshift, column, 2), VLane(v, vshift, column, 1), VLane(v, vshift, column, 0))
  {
    var r1, r2, r3, r4 := lb[0, c], lb[1, c], lb[2, c], lb[3, c];
    lb[3, c] := lb[2, c];
    lb[2, c] := lb[1, c];
    lb[1, c] := lb[0, c];
    lb[0, c] := cur;
    px := 0;
    ghost var column := [r4, r3, r2, r1, cur];
    for i := 0 to 3
      modifies {}
      invariant px == Lanes(i, VLane(v, vshift, column, 2), VLane(v, vshift, column, 1), VLane(v, vshift, column, 0))
    {
      var sel := 2 - i;
      var vsum := WeightedSum(v, [r4[sel], r3[sel], r2[sel], r1[sel], cur[sel]]);
      px := px * 256 + Clamp8(Shr(vsum, vshift));
    }
  }

  /** The horizontal lanes above beat k, oldest first. */
  function LaneColumn(s: seq<int>, width: int, h: seq<int>, hshift: nat, k: int): (column: seq<seq<int>>)
    requires |h| == 5
    ensures |column| == 5 && forall i :: 0 <= i < 5 ==> |column[i]| == 3
  {
    [HLanes(s, h, hshift, k - 4 * width), HLanes(s, h, hshift, k - 3 * width), HLanes(s, h, hshift, k - 2 * width),
     HLanes(s, h, hshift, k - width), HLanes(s, h, hshift, k)]
  }

  lemma LaneColumnPixel(s: seq<int>, width: int, h: seq<int>, v: seq<int>, hshift: nat, vshift: nat, k: int)
    requires |h| == 5 && |v| == 5
    ensures var column := LaneColumn(s, width, h, hshift, k);
      SepPixel(s, width, h, v, hshift, vshift, k) ==
      Rgb(VLane(v, vshift, column, 2), VLane(v, vshift, column, 1), VLane(v, vshift, column, 0))
  {
    hide HOut, Dot, Shr;
    var column := LaneColumn(s, width, h, hshift, k);
    forall sel: nat | sel < 3
      ensures SepChannel(s, width, h, v, hshift, vshift, sel, k) == VLane(v, vshift, column, sel)
    {
      assert HColumn(s, width, h, hshift, sel, k) ==
             [column[0][sel], column[1][sel], column[2][sel], column[3][sel], column[4][sel]];
    }
  }

  method Conv5x5SepGolden(pixels: seq<int>, width: int, h: seq<int>, v: seq<int>, hshift: nat, vshift: nat)
    returns (out: seq<int>)
    requires width >= 1 && |h| == 5 && |v| == 5
    ensures out == SepStream(pixels, width, h, v, hshift, vshift)
  {
    hide HLanes, SepPixel, VLane, BufferedBeat;
    var hout := HorizontalPass(pixels, h, hshift);
    var lb := new seq<int>[4, width]((i, c) => [0, 0, 0]);
    forall i, c | 0 <= i < 4 && 0 <= c < width
      ensures lb[i, c] == HLanes(pixels, h, hshift, BufferedBeat(0, width, i, c))
    {
      BufferStep(0, width, i, c);
      LanesBeforeStart(pixels, h, hshift, BufferedBeat(0, width, i, c));
    }
    out := [];
    for k := 0 to |pixels|
      invariant |out| == k && fresh(lb)
      invariant forall j :: 0 <= j < k ==> out[j] == SepPixel(pixels, width, h, v, hshift, vshift, j)
      invariant forall i, c :: 0 <= i < 4 && 0 <= c < width ==>
        lb[i, c] == HLanes(pixels, h, hshift, BufferedBeat(k, width, i, c))
    {
      var c := k % width;
      ghost var column := [lb[3, c], lb[2, c], lb[1, c], lb[0, c], hout[k]];
      ColumnAbove(pixels, width, h, hshift, k);
      LaneColumnPixel(pixels, width, h, v, hshift, vshift, k);
      assert column == LaneColumn(pixels, width, h, hshift, k);
      var px := VerticalBeat(lb, c, hout[k], v, vshift);
      out := out + [px];
      forall i, d | 0 <= i < 4 && 0 <= d < width
        ensures lb[i, d] == HLanes(pixels, h, hshift, BufferedBeat(k + 1, width, i, d))
      {
        BufferStep(k, width, i, d);
      }
    }
  }

  /** What the line buffers of the current column hold, with the current beat, is the column above it. */
  lemma ColumnAbove(s: seq<int>, width: int, h: seq<int>, hshift: nat, k: nat)
    requires |h| == 5 && width >= 1
    ensures var column := LaneColumn(s, width, h, hshift, k);
      && column[4] == HLanes(s, h, hshift, k)
      && forall i :: 0 <= i < 4 ==> column[3 - i] == HLanes(s, h, hshift, BufferedBeat(k, width, i, k % width))
  {
    hide HLanes, BufferedBeat;
    var column := LaneColumn(s, width, h, hshift, k);
    forall i | 0 <= i < 4
      ensures column[3 - i] == HLanes(s, h, hshift, BufferedBeat(k, width, i, k % width))
    {
      BufferStep(k, width, i, 0);
    }
  }
}
