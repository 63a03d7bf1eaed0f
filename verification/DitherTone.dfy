/** Dithering keeps the tone of a flat area: exactly over every 4x4 tile in ordered mode, and over
    every full register period in random mode. */
module DitherTone {
  import opened Arithmetic
  import opened Pixels
  import opened Sums
  import opened Dither
  import Lfsr
  import opened Hermite

  lemma NestedDivision(v: nat, cell: nat, z: nat)
    requires z > 0
    ensures (v + cell * z) / (16 * z) == (v / z + cell) / 16
  {
    var x := v / z + cell;
    var q := x / 16;
    assert v == v / z * z + v % z;
    assert x * z == v / z * z + cell * z;
    MulMonotone(16 * q, x, z);
    MulMonotone(x, 16 * q + 15, z);
    assert 16 * q * z == q * (16 * z) && (16 * q + 15) * z == q * (16 * z) + 15 * z;
    QuotientIs(v + cell * z, q, 16 * z);
  }

  lemma CappedDivision(y: int, m: int, top: int)
    requires m > 0 && y >= 0 && top * m <= 255 < top * m + m
    ensures Min(255, y) / m == Min(top, y / m)
  {
    QuotientIs(255, top, m);
    if y > 255 {
      QuotientBetween(y, top, y / m, m);
    } else {
      QuotientBetween(y, y / m, top, m);
    }
  }

  /** The bias unit 2^(4-n), and the powers that go with it. */
  lemma TonePowers(n: nat)
    requires 1 <= n <= 4
    ensures var z := Pow2(4 - n); z > 0 && Pow2(8 - n) == 16 * z && (Pow2(n) - 1) * (16 * z) == 256 - 16 * z
  {
    hide Pow2;
    SmallPowers();
    assert n == 1 || n == 2 || n == 3 || n == 4;
  }

  lemma OrderedCode(v: int, cell: nat, rnd: nat, n: nat)
    requires IsByte(v) && cell < 16 && 1 <= n <= 4
    ensures IntendedCode(v, cell, rnd, false, n) == RunCode(v / Pow2(4 - n), 16, Pow2(n) - 1)(cell)
  {
    hide Pow2;
    TonePowers(n);
    var z := Pow2(4 - n);
    MulMonotone(0, cell, z);
    assert Biased(v, cell, rnd, false, n) == Min(255, v + cell * z);
    NestedDivision(v, cell, z);
    CappedDivision(v + cell * z, 16 * z, Pow2(n) - 1);
  }

  /** The code shown by channel sel of output beat k. */
  function CodeBeat(s: seq<int>, width: nat, height: nat, ctrl: nat, sel: nat, k: int): int
    requires width >= 1 && height >= 1
  {
    if 0 <= k < |s| then Code(Ch(DitherStream(s, width, height, ctrl)[k], sel), Depth(ctrl)) else 0
  }

  predicate Ordered(ctrl: nat) { Enabled(ctrl) && !RandomMode(ctrl) && 1 <= Depth(ctrl) <= 4 }

  predicate Random(ctrl: nat) { Enabled(ctrl) && RandomMode(ctrl) && 1 <= Depth(ctrl) <= 4 }

  lemma LaneIsByte(s: seq<int>, width: nat, height: nat, ctrl: nat, sel: nat, k: nat)
    requires width >= 1 && height >= 1 && k < |s|
    ensures IsByte(DitherLane(s, width, height, ctrl, sel, k))
  {
    hide CellAt, Smear, Truncate, Biased;
  }

  lemma LaneOfPixel(s: seq<int>, width: nat, height: nat, ctrl: nat, sel: nat, k: nat)
    requires width >= 1 && height >= 1 && k < |s| && sel < 3 && Enabled(ctrl)
    ensures Ch(DitherStream(s, width, height, ctrl)[k], sel) == DitherLane(s, width, height, ctrl, sel, k)
  {
    hide DitherLane, Ch;
    LaneIsByte(s, width, height, ctrl, 2, k);
    LaneIsByte(s, width, height, ctrl, 1, k);
    LaneIsByte(s, width, height, ctrl, 0, k);
    RgbLanes(DitherLane(s, width, height, ctrl, 2, k), DitherLane(s, width, height, ctrl, 1, k),
             DitherLane(s, width, height, ctrl, 0, k));
  }

  lemma CodeOfLane(s: seq<int>, width: nat, height: nat, ctrl: nat, sel: nat, k: nat)
    requires width >= 1 && height >= 1 && k < |s| && sel < 3 && Enabled(ctrl) && 1 <= Depth(ctrl) <= 4
    ensures CodeBeat(s, width, height, ctrl, sel, k) ==
            IntendedCode(Ch(s[k], sel), CellAt(width, height, k), Lfsr.Value(k), RandomMode(ctrl), Depth(ctrl))
  {
    hide DitherChannel, CellAt, Ch, IntendedCode, DitherStream, Pow2;
    LaneOfPixel(s, width, height, ctrl, sel, k);
    CodeIsQuotient(Ch(s[k], sel), CellAt(width, height, k), Lfsr.Value(k), RandomMode(ctrl), Depth(ctrl));
  }

  /** The Bayer cell of row r, column c of any frame. */
  lemma CellOf(width: nat, height: nat, f: nat, r: nat, c: nat)
    requires c < width && r < height
    ensures 0 <= f * (width * height) + r * width + c
    ensures CellAt(width, height, f * (width * height) + r * width + c) == BAYER4[r % 4 * 4 + c % 4]
  {
    var size, j := width * height, r * width + c;
    MulMonotone(0, f, size);
    MulMonotone(0, r, width);
    MulMonotone(r + 1, height, width);
    assert (r + 1) * width == r * width + width;
    RemainderIs(f * size + j, f, j, size);
    RemainderIs(j, r, c, width);
  }

  /** The tone a tile of value v keeps. */
  function Tone(v: int, n: nat): int
    requires 1 <= n <= 4
  {
    Min(16 * (Pow2(n) - 1), v / Pow2(4 - n))
  }

  /** What an ordered beat of value v shows, by its place in the tile. */
  function TileCode(v: int, n: nat, dr: int, dc: int): int
    requires 1 <= n <= 4
  {
    RunCode(v / Pow2(4 - n), 16, Pow2(n) - 1)(BAYER4[dr % 4 * 4 + dc % 4])
  }

  lemma OrderedBeat(s: seq<int>, width: nat, height: nat, ctrl: nat, f: nat, r: nat, c: nat, sel: nat, v: int)
    requires c < width && r < height && sel < 3 && Ordered(ctrl)
    requires var k := f * (width * height) + r * width + c; 0 <= k < |s| && Ch(s[k], sel) == v
    ensures CodeBeat(s, width, height, ctrl, sel, f * (width * height) + r * width + c) == TileCode(v, Depth(ctrl), r, c)
  {
    hide CodeBeat, Ch, CellAt, IntendedCode, RunCode;
    CellOf(width, height, f, r, c);
    var k := f * (width * height) + r * width + c;
    CodeOfLane(s, width, height, ctrl, sel, k);
    OrderedCode(v, CellAt(width, height, k), Lfsr.Value(k), Depth(ctrl));
  }

  /** The four codes of one tile row, by its Bayer levels. */
  lemma TileRow(v: int, n: nat, r: nat, a: nat, b: nat, c: nat, d: nat)
    requires 1 <= n <= 4 && r < 4 && a == BAYER4[4 * r] && b == BAYER4[4 * r + 1]
    requires c == BAYER4[4 * r + 2] && d == BAYER4[4 * r + 3]
    ensures var g := RunCode(v / Pow2(4 - n), 16, Pow2(n) - 1);
      Sum(dc => TileCode(v, n, r, dc), 4) == g(a) + g(b) + g(c) + g(d)
  {
    hide RunCode, Pow2, Sum;
    SumFour(dc => TileCode(v, n, r, dc));
  }

  /** A tile holds every Bayer level once, so its sixteen codes add up to the tone. */
  lemma TileSum(v: int, n: nat)
    requires IsByte(v) && 1 <= n <= 4
    ensures Sum(dr => Sum(dc => TileCode(v, n, dr, dc), 4), 4) == Tone(v, n)
  {
    hide RunCode, Pow2, Sum, TileCode, Tone;
    SixteenLevels(v, n);
    SumFour(dr => Sum(dc => TileCode(v, n, dr, dc), 4));
    TileRow(v, n, 0, 0, 8, 2, 10);
    TileRow(v, n, 1, 12, 4, 14, 6);
    TileRow(v, n, 2, 3, 11, 1, 9);
    TileRow(v, n, 3, 15, 7, 13, 5);
  }

  /** Sixteen bias levels add up exactly, with saturation. */
  lemma SixteenLevels(v: int, n: nat)
    requires IsByte(v) && 1 <= n <= 4
    ensures var g := RunCode(v / Pow2(4 - n), 16, Pow2(n) - 1);
      g(0) + g(1) + g(2) + g(3) + g(4) + g(5) + g(6) + g(7)
      + g(8) + g(9) + g(10) + g(11) + g(12) + g(13) + g(14) + g(15) == Tone(v, n)
  {
    hide RunCode, Pow2, Sum;
    ToneFits(v, n);
    RunOfCodes(v / Pow2(4 - n), 16, Pow2(n) - 1);
    SumSixteen(RunCode(v / Pow2(4 - n), 16, Pow2(n) - 1));
  }

  lemma ToneFits(v: int, n: nat)
    requires IsByte(v) && 1 <= n <= 4
    ensures 0 <= v / Pow2(4 - n) < 16 * (Pow2(n) - 1) + 16
  {
    hide Pow2;
    TonePowers(n);
    var z, top := Pow2(4 - n), Pow2(n) - 1;
    assert top * (16 * z) == (16 * top) * z;
    QuotientBetween(v, 0, 16 * top + 15, z);
  }

  /** The beat at row dr, column dc of tile (tr, tc) of frame f. */
  function TileBeat(width: nat, height: nat, f: nat, tr: nat, tc: nat, dr: int, dc: int): int {
    f * (width * height) + (4 * tr + dr) * width + (4 * tc + dc)
  }

  /** Over every aligned 4x4 tile inside a frame of any size whose sixteen pixels share a channel value v, the
      n-bit codes add up to exactly min(16*(2^n - 1), v >> (4 - n)). */
  lemma TileTone(s: seq<int>, width: nat, height: nat, ctrl: nat, sel: nat, f: nat, tr: nat, tc: nat, v: int)
    requires 4 * tr + 3 < height && 4 * tc + 3 < width && sel < 3 && Ordered(ctrl)
    requires (f + 1) * (width * height) <= |s| && IsByte(v)
    requires forall dr: nat, dc: nat :: dr < 4 && dc < 4 ==>
      Ch(At(s, TileBeat(width, height, f, tr, tc, dr, dc)), sel) == v
    ensures Sum(dr => Sum(dc => CodeBeat(s, width, height, ctrl, sel, TileBeat(width, height, f, tr, tc, dr, dc)), 4), 4)
            == Tone(v, Depth(ctrl))
  {
    hide CodeBeat, TileCode, Ch, Tone;
    var n := Depth(ctrl);
    var row := dr => Sum(dc => CodeBeat(s, width, height, ctrl, sel, TileBeat(width, height, f, tr, tc, dr, dc)), 4);
    var want := dr => Sum(dc => TileCode(v, n, dr, dc), 4);
    forall dr: int | 0 <= dr < 4
      ensures row(dr) == want(dr)
    {
      forall dc: int | 0 <= dc < 4
        ensures CodeBeat(s, width, height, ctrl, sel, TileBeat(width, height, f, tr, tc, dr, dc)) == TileCode(v, n, dr, dc)
      {
        BeatInFrame(|s|, width, height, f, 4 * tr + dr, 4 * tc + dc);
        assert Ch(At(s, TileBeat(width, height, f, tr, tc, dr, dc)), sel) == v;
        OrderedBeat(s, width, height, ctrl, f, 4 * tr + dr, 4 * tc + dc, sel, v);
        TileCodeWraps(v, n, tr, tc, dr, dc);
      }
      SumCongruence(dc => CodeBeat(s, width, height, ctrl, sel, TileBeat(width, height, f, tr, tc, dr, dc)),
                    dc => TileCode(v, n, dr, dc), 4);
    }
    SumCongruence(row, want, 4);
    SumCongruence(row, dr => Sum(dc => CodeBeat(s, width, height, ctrl, sel, TileBeat(width, height, f, tr, tc, dr, dc)), 4), 4);
    TileSum(v, n);
    SumCongruence(want, dr => Sum(dc => TileCode(v, n, dr, dc), 4), 4);
  }

  lemma BeatInFrame(len: nat, width: nat, height: nat, f: nat, r: nat, c: nat)
    requires c < width && r < height && (f + 1) * (width * height) <= len
    ensures 0 <= f * (width * height) + r * width + c < len
  {
    MulMonotone(0, f, width * height);
    MulMonotone(0, r, width);
    MulMonotone(r + 1, height, width);
    assert (r + 1) * width == r * width + width;
    assert (f + 1) * (width * height) == f * (width * height) + width * height;
  }

  lemma TileCodeWraps(v: int, n: nat, tr: nat, tc: nat, dr: int, dc: int)
    requires 1 <= n <= 4
    ensures TileCode(v, n, 4 * tr + dr, 4 * tc + dc) == TileCode(v, n, dr, dc)
  {
    hide RunCode, Pow2;
    assert (4 * tr + dr) % 4 == dr % 4 && (4 * tc + dc) % 4 == dc % 4;
  }

  predicate Flat(s: seq<int>, sel: nat, v: int) {
    forall k :: 0 <= k < |s| ==> Ch(s[k], sel) == v
  }

  /** Row r of a flat frame: every group of four columns repeats the row's four codes. */
  lemma RowTone(s: seq<int>, width: nat, height: nat, ctrl: nat, sel: nat, f: nat, r: nat, v: int)
    requires width >= 1 && width % 4 == 0 && r < height && sel < 3 && Ordered(ctrl) && Flat(s, sel, v)
    requires (f + 1) * (width * height) <= |s| && IsByte(v)
    ensures Sum(i => CodeBeat(s, width, height, ctrl, sel, f * (width * height) + r * width + i), width) ==
            width / 4 * Sum(dc => TileCode(v, Depth(ctrl), r, dc), 4)
  {
    hide CodeBeat, TileCode, Ch;
    var base, n := f * (width * height) + r * width, Depth(ctrl);
    var row := i => CodeBeat(s, width, height, ctrl, sel, base + i);
    var c := Sum(dc => TileCode(v, n, r, dc), 4);
    forall g: int | 0 <= g < width / 4
      ensures Sum(i => row(g * 4 + i), 4) == c
    {
      forall i: int | 0 <= i < 4
        ensures row(g * 4 + i) == TileCode(v, n, r, i)
      {
        BeatInFrame(|s|, width, height, f, r, 4 * g + i);
        OrderedBeat(s, width, height, ctrl, f, r, 4 * g + i, sel, v);
        TileCodeWraps(v, n, 0, g, r, i);
      }
      SumCongruence(i => row(g * 4 + i), dc => TileCode(v, n, r, dc), 4);
    }
    SumOfEqualRows(row, 4, width / 4, c);
    SumCongruence(row, i => CodeBeat(s, width, height, ctrl, sel, f * (width * height) + r * width + i), width);
  }

  lemma BandOffset(band: nat, dr: nat, width: nat)
    ensures (4 * band + dr) * width == band * (4 * width) + dr * width
  {
  }

  /** Row dr of a band of four rows, addressed from the start of the band. */
  lemma BandRow(s: seq<int>, width: nat, height: nat, ctrl: nat, sel: nat, f: nat, band: nat, dr: nat, v: int)
    requires width >= 1 && width % 4 == 0 && 4 * band + 3 < height && sel < 3 && Ordered(ctrl) && Flat(s, sel, v)
    requires (f + 1) * (width * height) <= |s| && IsByte(v) && dr < 4
    ensures Sum(i => CodeBeat(s, width, height, ctrl, sel, f * (width * height) + (band * (4 * width) + (dr * width + i))), width)
            == width / 4 * Sum(dc => TileCode(v, Depth(ctrl), dr, dc), 4)
  {
    hide CodeBeat, TileCode, Ch, Sum, Depth, Flat;
    var base, n, r := f * (width * height), Depth(ctrl), 4 * band + dr;
    RowTone(s, width, height, ctrl, sel, f, r, v);
    forall dc: int | 0 <= dc < 4
      ensures TileCode(v, n, r, dc) == TileCode(v, n, dr, dc)
    {
      TileCodeWraps(v, n, band, 0, dr, dc);
    }
    SumCongruence(dc => TileCode(v, n, r, dc), dc => TileCode(v, n, dr, dc), 4);
    BandOffset(band, dr, width);
    SumCongruence(i => CodeBeat(s, width, height, ctrl, sel, base + r * width + i),
                  i => CodeBeat(s, width, height, ctrl, sel, base + (band * (4 * width) + (dr * width + i))), width);
  }

  /** Four consecutive rows of a flat frame: one tile per four columns. */
  lemma BandTone(s: seq<int>, width: nat, height: nat, ctrl: nat, sel: nat, f: nat, band: nat, v: int)
    requires width >= 1 && width % 4 == 0 && 4 * band + 3 < height && sel < 3 && Ordered(ctrl) && Flat(s, sel, v)
    requires (f + 1) * (width * height) <= |s| && IsByte(v)
    ensures Sum(i => CodeBeat(s, width, height, ctrl, sel, f * (width * height) + (band * (4 * width) + i)), 4 * width) ==
            width / 4 * Tone(v, Depth(ctrl))
  {
    hide CodeBeat, TileCode, Ch, Tone, Sum;
    var n := Depth(ctrl);
    var beat := i => CodeBeat(s, width, height, ctrl, sel, f * (width * height) + (band * (4 * width) + i));
    var tile := dr => Sum(dc => TileCode(v, n, dr, dc), 4);
    forall dr: int | 0 <= dr < 4
      ensures Sum(i => beat(dr * width + i), width) == width / 4 * tile(dr)
    {
      BandRow(s, width, height, ctrl, sel, f, band, dr, v);
      SumCongruence(
        i => beat(dr * width + i),
        i => CodeBeat(s, width, height, ctrl, sel, f * (width * height) + (band * (4 * width) + (dr * width + i))), width);
    }
    SumOfRows(beat, width, 4, dr => width / 4 * tile(dr));
    SumScaled(tile, 4, width / 4);
    TileSum(v, n);
    SumCongruence(tile, dr => Sum(dc => TileCode(v, n, dr, dc), 4), 4);
    SumCongruence(beat, i => CodeBeat(s, width, height, ctrl, sel, f * (width * height) + (band * (4 * width) + i)), 4 * width);
  }

  lemma FrameTone(s: seq<int>, width: nat, height: nat, ctrl: nat, sel: nat, f: nat, v: int)
    requires width >= 1 && height >= 1 && width % 4 == 0 && height % 4 == 0
    requires sel < 3 && Ordered(ctrl) && Flat(s, sel, v)
    requires (f + 1) * (width * height) <= |s| && IsByte(v)
    ensures Sum(j => CodeBeat(s, width, height, ctrl, sel, f * (width * height) + j), width * height) ==
            height / 4 * (width / 4 * Tone(v, Depth(ctrl)))
  {
    hide CodeBeat, Ch, Tone;
    var base := f * (width * height);
    var frame := j => CodeBeat(s, width, height, ctrl, sel, base + j);
    forall band: int | 0 <= band < height / 4
      ensures Sum(i => frame(band * (4 * width) + i), 4 * width) == width / 4 * Tone(v, Depth(ctrl))
    {
      BandTone(s, width, height, ctrl, sel, f, band, v);
      SumCongruence(i => frame(band * (4 * width) + i),
                    i => CodeBeat(s, width, height, ctrl, sel, base + (band * (4 * width) + i)), 4 * width);
    }
    SumOfEqualRows(frame, 4 * width, height / 4, width / 4 * Tone(v, Depth(ctrl)));
    assert height / 4 * (4 * width) == width * height;
  }

  /** A flat stream of any number of frames, any size in multiples of four: the total of all codes. */
  lemma StreamTone(s: seq<int>, width: nat, height: nat, ctrl: nat, sel: nat, frames: nat, v: int)
    requires width >= 1 && height >= 1 && width % 4 == 0 && height % 4 == 0
    requires sel < 3 && Ordered(ctrl) && Flat(s, sel, v) && IsByte(v)
    requires |s| == frames * (width * height)
    ensures Sum(k => CodeBeat(s, width, height, ctrl, sel, k), |s|) ==
            frames * (height / 4 * (width / 4 * Tone(v, Depth(ctrl))))
  {
    hide CodeBeat, Ch, Tone;
    var size := width * height;
    var all := k => CodeBeat(s, width, height, ctrl, sel, k);
    forall f: int | 0 <= f < frames
      ensures Sum(j => all(f * size + j), size) == height / 4 * (width / 4 * Tone(v, Depth(ctrl)))
    {
      MulMonotone(f + 1, frames, size);
      FrameTone(s, width, height, ctrl, sel, f, v);
      SumCongruence(j => all(f * size + j), j => CodeBeat(s, width, height, ctrl, sel, f * (width * height) + j), size);
    }
    SumOfEqualRows(all, size, frames, height / 4 * (width / 4 * Tone(v, Depth(ctrl))));
  }
}
