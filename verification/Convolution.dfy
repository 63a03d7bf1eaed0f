/** The general taps x taps convolution: streaming method, closed form and what it promises. */
module Convolution {
  import opened Arithmetic
  import opened Pixels
  import opened Windows

  /** Row r of a row-major kernel. */
  function KernelRow(coeffs: seq<int>, taps: nat, r: nat): (row: seq<int>)
    requires r < taps && taps * taps <= |coeffs|
    ensures |row| == taps && r * taps + taps <= |coeffs|
    ensures forall c :: 0 <= c < taps ==> row[c] == coeffs[r * taps + c]
  {
    MulMonotone(r + 1, taps, taps);
    assert (r + 1) * taps == r * taps + taps;
    coeffs[r * taps..r * taps + taps]
  }

  /** The channel values under window row r at beat k. */
  function WindowRow(s: seq<int>, width: int, taps: nat, sel: nat, k: int, r: int): (row: seq<int>)
    ensures |row| == taps
  {
    Tail(s, sel, taps, k - (taps - 1 - r) * width)
  }

  /** Accumulator over the first `rows` window rows. */
  function WindowSum(s: seq<int>, width: int, taps: nat, coeffs: seq<int>, sel: nat, k: int, rows: nat): int
    requires rows <= taps && taps * taps <= |coeffs|
  {
    if rows == 0 then 0
    else WindowSum(s, width, taps, coeffs, sel, k, rows - 1)
         + Dot(KernelRow(coeffs, taps, rows - 1), WindowRow(s, width, taps, sel, k, rows - 1))
  }

  /** Normalise, rectify when asked, saturate. */
  function Normalise(acc: int, shift: nat, absf: bool): (b: int)
    ensures IsByte(b)
  {
    var v := Shr(acc, shift);
    Clamp8(if absf && v < 0 then -v else v)
  }

  function ConvChannel(s: seq<int>, width: int, coeffs: seq<int>, shift: nat, absf: bool, taps: nat,
                       sel: nat, k: int): (b: int)
    requires taps * taps <= |coeffs|
    ensures IsByte(b)
  {
    Normalise(WindowSum(s, width, taps, coeffs, sel, k, taps), shift, absf)
  }

  /** Output beat k: the window centre when disabled, otherwise the three filtered lanes. */
  function ConvPixel(s: seq<int>, width: int, coeffs: seq<int>, shift: nat, absf: bool, en: bool, taps: nat,
                     k: int): int
    requires en ==> taps * taps <= |coeffs|
  {
    if !en then At(s, TapBeat(width, taps, k, taps / 2, taps / 2))
    else Rgb(ConvChannel(s, width, coeffs, shift, absf, taps, 2, k),
             ConvChannel(s, width, coeffs, shift, absf, taps, 1, k),
             ConvChannel(s, width, coeffs, shift, absf, taps, 0, k))
  }

  function ConvStream(s: seq<int>, width: int, coeffs: seq<int>, shift: nat, absf: bool, en: bool, taps: nat)
    : (out: seq<int>)
    requires en ==> taps * taps <= |coeffs|
    ensures |out| == |s|
    ensures forall k :: 0 <= k < |s| ==> out[k] == ConvPixel(s, width, coeffs, shift, absf, en, taps, k)
  {
    seq(|s|, k requires 0 <= k < |s| => ConvPixel(s, width, coeffs, shift, absf, en, taps, k))
  }

  /** The inner loop: one window row, with the running tap index t. */
  method AccumulateRow(g: WindowGenerator, coeffs: seq<int>, sel: nat, r: nat, t0: nat, acc0: int)
    returns (acc: int, t: nat)
    requires g.Valid() && r < g.taps && g.taps * g.taps <= |coeffs|
    requires t0 == r * g.taps
    ensures t == t0 + g.taps
    ensures acc == acc0 + Dot(KernelRow(coeffs, g.taps, r), WindowRow(g.seen, g.width, g.taps, sel, |g.seen| - 1, r))
  {
    ghost var row := KernelRow(coeffs, g.taps, r);
    ghost var vals := WindowRow(g.seen, g.width, g.taps, sel, |g.seen| - 1, r);
    acc, t := acc0, t0;
    for c := 0 to g.taps
      invariant t == t0 + c
      invariant acc == acc0 + Dot(row[..c], vals[..c])
    {
      DotStep(row, vals, c);
      assert vals[c] == Ch(g.win[r, c], sel);
      acc := acc + coeffs[t] * Ch(g.win[r, c], sel);
      t := t + 1;
    }
    assert row[..g.taps] == row && vals[..g.taps] == vals;
  }

  method Accumulate(g: WindowGenerator, coeffs: seq<int>, sel: nat) returns (acc: int)
    requires g.Valid() && g.taps * g.taps <= |coeffs|
    ensures acc == WindowSum(g.seen, g.width, g.taps, coeffs, sel, |g.seen| - 1, g.taps)
  {
    acc := 0;
    var t := 0;
    for r := 0 to g.taps
      invariant t == r * g.taps
      invariant acc == WindowSum(g.seen, g.width, g.taps, coeffs, sel, |g.seen| - 1, r)
    {
      acc, t := AccumulateRow(g, coeffs, sel, r, t, acc);
      assert (r + 1) * g.taps == r * g.taps + g.taps;
    }
  }

  /** The body of the beat loop, after the window has moved. */
  method ConvBeat(g: WindowGenerator, coeffs: seq<int>, shift: nat, absf: bool, en: bool) returns (px: int)
    requires g.Valid() && (en ==> g.taps * g.taps <= |coeffs|)
    ensures px == ConvPixel(g.seen, g.width, coeffs, shift, absf, en, g.taps, |g.seen| - 1)
  {
    var centre := g.taps / 2;
    if !en {
      return g.win[centre, centre];
    }
    px := 0;
    ghost var lane := (sel: nat) requires g.taps * g.taps <= |coeffs| reads g =>
      ConvChannel(g.seen, g.width, coeffs, shift, absf, g.taps, sel, |g.seen| - 1);
    for i := 0 to 3
      invariant px == Lanes(i, lane(2), lane(1), lane(0))
    {
      var acc := Accumulate(g, coeffs, 2 - i);
      var v := Shr(acc, shift);
      if absf && v < 0 {
        v := -v;
      }
      px := px * 256 + Clamp8(v);
    }
  }

  method ConvGolden(pixels: seq<int>, width: int, coeffs: seq<int>, shift: nat, absf: bool, en: bool, taps: nat)
    returns (out: seq<int>)
    requires width >= 1 && taps >= 2
    requires en ==> taps * taps <= |coeffs|
    ensures out == ConvStream(pixels, width, coeffs, shift, absf, en, taps)
  {
    out := [];
    var g := new WindowGenerator(width, taps);
    for n := 0 to |pixels|
      invariant g.Valid() && g.width == width && g.taps == taps && g.seen == pixels[..n]
      invariant fresh(g) && fresh(g.lb) && fresh(g.win)
      invariant |out| == n
      invariant forall k :: 0 <= k < n ==> out[k] == ConvPixel(pixels, width, coeffs, shift, absf, en, taps, k)
    {
      g.Step(pixels[n]);
      assert g.seen == pixels[..n + 1];
      var px := ConvBeat(g, coeffs, shift, absf, en);
      CausalPixel(pixels, n, width, coeffs, shift, absf, en, taps);
      out := out + [px];
    }
  }

  /** The pixel word after the first i lanes (red first) have been shifted in. */
  function Lanes(i: int, r: int, g: int, b: int): int {
    if i <= 0 then 0 else if i == 1 then r else if i == 2 then r * 256 + g else Rgb(r, g, b)
  }

  lemma TapsReachBack(width: int, taps: nat, k: int, r: int, c: int)
    requires width >= 1 && 0 <= r < taps && 0 <= c < taps
    ensures TapBeat(width, taps, k, r, c) <= k
  {
    MulMonotone(0, taps - 1 - r, width);
  }

  /** Beat n's accumulator never looks past beat n. */
  lemma {:induction false} CausalSum(s: seq<int>, n: nat, width: int, taps: nat, coeffs: seq<int>, sel: nat, rows: nat)
    requires n < |s| && width >= 1 && rows <= taps && taps * taps <= |coeffs|
    ensures WindowSum(s[..n + 1], width, taps, coeffs, sel, n, rows) == WindowSum(s, width, taps, coeffs, sel, n, rows)
  {
    if rows > 0 {
      hide WindowRow, KernelRow, Dot;
      CausalSum(s, n, width, taps, coeffs, sel, rows - 1);
      CausalRow(s, n, width, taps, sel, rows - 1);
    }
  }

  lemma CausalRow(s: seq<int>, n: nat, width: int, taps: nat, sel: nat, r: nat)
    requires n < |s| && width >= 1 && r < taps
    ensures WindowRow(s[..n + 1], width, taps, sel, n, r) == WindowRow(s, width, taps, sel, n, r)
  {
    MulMonotone(0, taps - 1 - r, width);
    CausalTail(s, n, sel, taps, n - (taps - 1 - r) * width);
  }

  lemma CausalTail(s: seq<int>, n: nat, sel: nat, len: nat, end: int)
    requires n < |s| && end <= n
    ensures Tail(s[..n + 1], sel, len, end) == Tail(s, sel, len, end)
  {
    hide Ch;
  }

  lemma CausalPixel(s: seq<int>, n: nat, width: int, coeffs: seq<int>, shift: nat, absf: bool, en: bool, taps: nat)
    requires n < |s| && width >= 1 && taps >= 1
    requires en ==> taps * taps <= |coeffs|
    ensures ConvPixel(s[..n + 1], width, coeffs, shift, absf, en, taps, n) ==
            ConvPixel(s, width, coeffs, shift, absf, en, taps, n)
  {
    if en {
      CausalSum(s, n, width, taps, coeffs, 2, taps);
      CausalSum(s, n, width, taps, coeffs, 1, taps);
      CausalSum(s, n, width, taps, coeffs, 0, taps);
    } else {
      TapsReachBack(width, taps, n, taps / 2, taps / 2);
    }
  }
}
