/** What the streaming convolution promises over whole streams. */
module ConvolutionLaws {
  import opened Arithmetic
  import opened Pixels
  import opened Windows
  import opened Convolution

  // ---- frame isolation -------------------------------------------------------

  /** The channel values under row r of a plain two-dimensional window ending at (row, col). */
  function PlaneRow(frame: seq<int>, width: nat, taps: nat, sel: nat, row: nat, col: nat, r: nat): (vals: seq<int>)
    requires taps - 1 <= row && taps - 1 <= col < width && r < taps
    requires (row + 1) * width <= |frame|
    ensures |vals| == taps
  {
    var top := row - (taps - 1) + r;
    MulMonotone(top, row, width);
    MulMonotone(0, top, width);
    assert (row + 1) * width == row * width + width;
    seq(taps, c requires 0 <= c < taps => Ch(frame[top * width + (col - (taps - 1) + c)], sel))
  }

  /** Plain two-dimensional convolution of one frame by direct indexing. */
  function PlaneSum(frame: seq<int>, width: nat, taps: nat, coeffs: seq<int>, sel: nat, row: nat, col: nat, rows: nat)
    : int
    requires taps - 1 <= row && taps - 1 <= col < width && rows <= taps
    requires (row + 1) * width <= |frame| && taps * taps <= |coeffs|
  {
    if rows == 0 then 0
    else PlaneSum(frame, width, taps, coeffs, sel, row, col, rows - 1)
         + Dot(KernelRow(coeffs, taps, rows - 1), PlaneRow(frame, width, taps, sel, row, col, rows - 1))
  }

  function PlanePixel(frame: seq<int>, width: nat, coeffs: seq<int>, shift: nat, absf: bool, taps: nat,
                      row: nat, col: nat): int
    requires taps - 1 <= row && taps - 1 <= col < width
    requires (row + 1) * width <= |frame| && taps * taps <= |coeffs|
  {
    Rgb(Normalise(PlaneSum(frame, width, taps, coeffs, 2, row, col, taps), shift, absf),
        Normalise(PlaneSum(frame, width, taps, coeffs, 1, row, col, taps), shift, absf),
        Normalise(PlaneSum(frame, width, taps, coeffs, 0, row, col, taps), shift, absf))
  }

  /** The pixels of frame f in a stream of width x height frames. */
  function FrameOf(s: seq<int>, width: nat, height: nat, f: nat): (frame: seq<int>)
    requires (f + 1) * (width * height) <= |s|
    ensures |frame| == width * height
  {
    var size := width * height;
    assert (f + 1) * size == f * size + size;
    s[f * size..f * size + size]
  }

  /** Where row r of the window sits inside the frame, and where that is in the stream. */
  lemma PlaneIndex(width: nat, height: nat, taps: nat, base: int, row: nat, col: nat, r: nat)
    requires taps - 1 <= row < height && taps - 1 <= col < width && r < taps
    ensures var top := row - (taps - 1) + r;
      && 0 <= top * width && top * width + width <= (row + 1) * width <= height * width
      && base + row * width + col - (taps - 1 - r) * width == base + top * width + col
  {
    var top, d := row - (taps - 1) + r, taps - 1 - r;
    MulMonotone(0, top, width);
    MulMonotone(top + 1, row + 1, width);
    MulMonotone(row + 1, height, width);
    assert top * width + d * width == row * width by { assert (top + d) * width == top * width + d * width; }
    assert (top + 1) * width == top * width + width;
  }

  lemma FrameBounds(size: nat, f: nat)
    ensures 0 <= f * size && (f + 1) * size == f * size + size
  {
    MulMonotone(0, f, size);
  }

  lemma PlaneRowIsWindowRow(s: seq<int>, width: nat, height: nat, f: nat, taps: nat, sel: nat,
                            row: nat, col: nat, r: nat)
    requires taps - 1 <= row < height && taps - 1 <= col < width && r < taps
    requires (f + 1) * (width * height) <= |s|
    ensures (row + 1) * width <= width * height
    ensures WindowRow(s, width, taps, sel, f * (width * height) + row * width + col, r) ==
            PlaneRow(FrameOf(s, width, height, f), width, taps, sel, row, col, r)
  {
    var base, top := f * (width * height), row - (taps - 1) + r;
    PlaneIndex(width, height, taps, base, row, col, r);
    FrameBounds(width * height, f);
    var window := WindowRow(s, width, taps, sel, base + row * width + col, r);
    var plane := PlaneRow(FrameOf(s, width, height, f), width, taps, sel, row, col, r);
    forall c | 0 <= c < taps
      ensures window[c] == plane[c]
    {
      var j := top * width + (col - (taps - 1) + c);
      assert window[c] == Ch(At(s, base + j), sel);
    }
  }

  lemma {:induction false} PlaneSumIsWindowSum(s: seq<int>, width: nat, height: nat, f: nat, taps: nat,
                                               coeffs: seq<int>, sel: nat, row: nat, col: nat, rows: nat)
    requires taps - 1 <= row < height && taps - 1 <= col < width && rows <= taps
    requires (f + 1) * (width * height) <= |s| && taps * taps <= |coeffs|
    ensures (row + 1) * width <= width * height
    ensures WindowSum(s, width, taps, coeffs, sel, f * (width * height) + row * width + col, rows) ==
            PlaneSum(FrameOf(s, width, height, f), width, taps, coeffs, sel, row, col, rows)
  {
    if rows > 0 {
      PlaneRowIsWindowRow(s, width, height, f, taps, sel, row, col, rows - 1);
      PlaneSumIsWindowSum(s, width, height, f, taps, coeffs, sel, row, col, rows - 1);
    } else {
      MulMonotone(row + 1, height, width);
    }
  }

  /** Although neither line buffers nor window are ever reset, every output of frame f at
      row >= taps-1 and col >= taps-1 is the plain convolution of frame f alone. */
  lemma FrameIsolation(s: seq<int>, width: nat, height: nat, f: nat, coeffs: seq<int>, shift: nat, absf: bool,
                       taps: nat, row: nat, col: nat)
    requires 1 <= taps && taps - 1 <= row < height && taps - 1 <= col < width
    requires (f + 1) * (width * height) <= |s| && taps * taps <= |coeffs|
    ensures (row + 1) * width <= width * height
    ensures var k := f * (width * height) + row * width + col;
      0 <= k < |s| &&
      ConvStream(s, width, coeffs, shift, absf, true, taps)[k] ==
      PlanePixel(FrameOf(s, width, height, f), width, coeffs, shift, absf, taps, row, col)
  {
    PlaneIndex(width, height, taps, f * (width * height), row, col, taps - 1);
    FrameBounds(width * height, f);
    PlaneSumIsWindowSum(s, width, height, f, taps, coeffs, 2, row, col, taps);
    PlaneSumIsWindowSum(s, width, height, f, taps, coeffs, 1, row, col, taps);
    PlaneSumIsWindowSum(s, width, height, f, taps, coeffs, 0, row, col, taps);
  }

  // ---- kernel embedding ------------------------------------------------------

  /** A 3x3 kernel in the centre of a 5x5 one. */
  function Embedded(k9: seq<int>): (k25: seq<int>)
    requires |k9| >= 9
    ensures |k25| == 25
  {
    [0, 0, 0, 0, 0,
     0, k9[0], k9[1], k9[2], 0,
     0, k9[3], k9[4], k9[5], 0,
     0, k9[6], k9[7], k9[8], 0,
     0, 0, 0, 0, 0]
  }

  method K3To5(k9: seq<int>) returns (out: seq<int>)
    requires |k9| >= 9
    ensures out == Embedded(k9)
  {
    out := seq(25, i => 0);
    for r := 0 to 3
      invariant |out| == 25
      invariant forall j :: 0 <= j < 25 ==> out[j] == if j < (r + 1) * 5 then Embedded(k9)[j] else 0
    {
      for c := 0 to 3
        invariant |out| == 25
        invariant forall j :: 0 <= j < 25 ==> out[j] == if j < (r + 1) * 5 + c + 1 then Embedded(k9)[j] else 0
      {
        out := out[(r + 1) * 5 + (c + 1) := k9[r * 3 + c]];
      }
    }
  }

  /** One embedded row: the outer two values of five never count. */
  lemma EmbeddedRow(a: seq<int>, x: seq<int>, b: seq<int>, y: seq<int>)
    requires |a| == |x| == 5 && |b| == |y| == 3
    requires a[0] == 0 && a[4] == 0
    requires forall i :: 0 <= i < 3 ==> b[i] == a[i + 1]
    requires forall i :: 0 <= i < 3 ==> y[i] == x[i + 1]
    ensures Dot(a, x) == Dot(b, y)
  {
    Dot5(a, x);
    Dot3(b, y);
  }

  lemma ZeroRow(a: seq<int>, x: seq<int>)
    requires |a| == |x| == 5 && forall i :: 0 <= i < 5 ==> a[i] == 0
    ensures Dot(a, x) == 0
  {
    Dot5(a, x);
  }

  lemma EmbeddedKernelRow(k9: seq<int>, r: nat)
    requires |k9| >= 9 && r < 3
    ensures var a, b := KernelRow(Embedded(k9), 5, r + 1), KernelRow(k9, 3, r);
      a[0] == 0 && a[4] == 0 && b[0] == a[1] && b[1] == a[2] && b[2] == a[3]
  {
    var e := Embedded(k9);
    assert r == 0 || r == 1 || r == 2;
    var a, b := KernelRow(e, 5, r + 1), KernelRow(k9, 3, r);
    assert a[0] == e[(r + 1) * 5 + 0] && a[1] == e[(r + 1) * 5 + 1] && a[2] == e[(r + 1) * 5 + 2];
    assert a[3] == e[(r + 1) * 5 + 3] && a[4] == e[(r + 1) * 5 + 4];
    assert b[0] == k9[r * 3 + 0] && b[1] == k9[r * 3 + 1] && b[2] == k9[r * 3 + 2];
  }

  lemma EmbeddedWindowRow(s: seq<int>, width: int, k9: seq<int>, sel: nat, k: int, r: nat)
    requires |k9| >= 9 && r < 3
    ensures Dot(KernelRow(Embedded(k9), 5, r + 1), WindowRow(s, width, 5, sel, k, r + 1)) ==
            Dot(KernelRow(k9, 3, r), WindowRow(s, width, 3, sel, k - width - 1, r))
  {
    hide Ch, Dot;
    var a, b := KernelRow(Embedded(k9), 5, r + 1), KernelRow(k9, 3, r);
    EmbeddedKernelRow(k9, r);
    EmbeddedRow(a, WindowRow(s, width, 5, sel, k, r + 1), b, WindowRow(s, width, 3, sel, k - width - 1, r));
  }

  lemma EmbeddedSum(s: seq<int>, width: int, k9: seq<int>, sel: nat, k: int)
    requires |k9| >= 9
    ensures WindowSum(s, width, 5, Embedded(k9), sel, k, 5) == WindowSum(s, width, 3, k9, sel, k - width - 1, 3)
  {
    hide WindowRow, Dot, WindowSum;
    var k25, j := Embedded(k9), k - width - 1;
    ZeroRow(KernelRow(k25, 5, 0), WindowRow(s, width, 5, sel, k, 0));
    ZeroRow(KernelRow(k25, 5, 4), WindowRow(s, width, 5, sel, k, 4));
    EmbeddedWindowRow(s, width, k9, sel, k, 0);
    EmbeddedWindowRow(s, width, k9, sel, k, 1);
    EmbeddedWindowRow(s, width, k9, sel, k, 2);
    WindowSumStep(s, width, 5, k25, sel, k);
    WindowSumStep(s, width, 3, k9, sel, j);
  }

  /** The row recurrence, spelled out for every row count at once. */
  lemma WindowSumStep(s: seq<int>, width: int, taps: nat, coeffs: seq<int>, sel: nat, k: int)
    requires taps * taps <= |coeffs|
    ensures WindowSum(s, width, taps, coeffs, sel, k, 0) == 0
    ensures forall r: nat :: r < taps ==>
      WindowSum(s, width, taps, coeffs, sel, k, r + 1) ==
      WindowSum(s, width, taps, coeffs, sel, k, r)
      + Dot(KernelRow(coeffs, taps, r), WindowRow(s, width, taps, sel, k, r))
  {
  }

  lemma RowBeforeStart(s: seq<int>, width: int, taps: nat, sel: nat, k: int, r: nat)
    requires k < 0 && width >= 0 && r < taps
    ensures forall i :: 0 <= i < taps ==> WindowRow(s, width, taps, sel, k, r)[i] == 0
  {
    MulMonotone(0, taps - 1 - r, width);
    TailBeforeStart(s, sel, taps, k - (taps - 1 - r) * width);
  }

  lemma TailBeforeStart(s: seq<int>, sel: nat, n: nat, end: int)
    requires end < 0
    ensures forall i :: 0 <= i < n ==> Tail(s, sel, n, end)[i] == 0
  {
    ZeroLanes(sel);
    hide Ch;
  }

  /** Windows that end before the first beat see only zeros. */
  lemma {:induction false} SumBeforeStart(s: seq<int>, width: int, taps: nat, coeffs: seq<int>, sel: nat, k: int, rows: nat)
    requires k < 0 && width >= 0 && rows <= taps && taps * taps <= |coeffs|
    ensures WindowSum(s, width, taps, coeffs, sel, k, rows) == 0
  {
    if rows > 0 {
      SumBeforeStart(s, width, taps, coeffs, sel, k, rows - 1);
      RowBeforeStart(s, width, taps, sel, k, rows - 1);
      DotWithZeros(KernelRow(coeffs, taps, rows - 1), WindowRow(s, width, taps, sel, k, rows - 1));
    }
  }

  lemma {:induction false} DotWithZeros(a: seq<int>, x: seq<int>)
    requires |a| == |x| && forall i :: 0 <= i < |x| ==> x[i] == 0
    ensures Dot(a, x) == 0
  {
    if a != [] {
      DotWithZeros(a[..|a| - 1], x[..|a| - 1]);
    }
  }

  /** Embedding a kernel only delays: beat k of the 5x5 stream is beat k-width-1 of the 3x3 one. */
  lemma EmbeddingIsPureDelay(s: seq<int>, width: nat, k9: seq<int>, shift: nat, absf: bool, k: nat)
    requires |k9| >= 9 && k < |s|
    ensures ConvStream(s, width, Embedded(k9), shift, absf, true, 5)[k] ==
            At(ConvStream(s, width, k9, shift, absf, true, 3), k - width - 1)
  {
    hide WindowSum, Embedded;
    forall sel: nat | sel < 3
      ensures ConvChannel(s, width, Embedded(k9), shift, absf, 5, sel, k) ==
              ConvChannel(s, width, k9, shift, absf, 3, sel, k - width - 1)
      ensures k < width + 1 ==> ConvChannel(s, width, k9, shift, absf, 3, sel, k - width - 1) == 0
    {
      EmbeddedSum(s, width, k9, sel, k);
      if k < width + 1 {
        SumBeforeStart(s, width, 3, k9, sel, k - width - 1, 3);
        QuotientIs(0, 0, Pow2(shift));
      }
    }
  }

  // ---- disabled and single-tap kernels -----------------------------------------

  /** With cfg_en = 0 an odd window is a delay of half a window: taps/2 rows and columns. */
  lemma DisabledIsDelay(s: seq<int>, width: nat, coeffs: seq<int>, shift: nat, absf: bool, taps: nat, k: nat)
    requires taps % 2 == 1 && k < |s|
    ensures ConvStream(s, width, coeffs, shift, absf, false, taps)[k] == At(s, k - taps / 2 * (width + 1))
  {
    var h := taps / 2;
    assert h * (width + 1) == h * width + h;
  }

  predicate UnitTap(coeffs: seq<int>, t: nat) {
    t < |coeffs| && forall i :: 0 <= i < |coeffs| ==> coeffs[i] == if i == t then 1 else 0
  }

  lemma {:induction false} DotUnit(a: seq<int>, x: seq<int>, c: nat)
    requires |a| == |x| && UnitTap(a, c)
    ensures Dot(a, x) == x[c]
  {
    var n := |a| - 1;
    if c == n {
      DotZeroTaps(a[..n], x[..n]);
    } else {
      DotUnit(a[..n], x[..n], c);
    }
  }

  lemma {:induction false} DotZeroTaps(a: seq<int>, x: seq<int>)
    requires |a| == |x| && forall i :: 0 <= i < |a| ==> a[i] == 0
    ensures Dot(a, x) == 0
  {
    if a != [] {
      DotZeroTaps(a[..|a| - 1], x[..|a| - 1]);
    }
  }

  lemma UnitKernelRow(coeffs: seq<int>, taps: nat, r0: nat, c0: nat, r: nat)
    requires r0 < taps && c0 < taps && r < taps && |coeffs| == taps * taps
    requires UnitTap(coeffs, r0 * taps + c0)
    ensures r == r0 ==> UnitTap(KernelRow(coeffs, taps, r), c0)
    ensures r != r0 ==> forall i :: 0 <= i < taps ==> KernelRow(coeffs, taps, r)[i] == 0
  {
    if r < r0 {
      MulMonotone(r + 1, r0, taps);
      assert (r + 1) * taps == r * taps + taps;
    } else if r > r0 {
      MulMonotone(r0 + 1, r, taps);
      assert (r0 + 1) * taps == r0 * taps + taps;
    }
  }

  lemma {:induction false} UnitSum(s: seq<int>, width: int, taps: nat, coeffs: seq<int>, sel: nat, k: int,
                                   r0: nat, c0: nat, rows: nat)
    requires r0 < taps && c0 < taps && rows <= taps && |coeffs| == taps * taps
    requires UnitTap(coeffs, r0 * taps + c0)
    ensures WindowSum(s, width, taps, coeffs, sel, k, rows) ==
            if rows <= r0 then 0 else Ch(At(s, TapBeat(width, taps, k, r0, c0)), sel)
  {
    if rows > 0 {
      UnitSum(s, width, taps, coeffs, sel, k, r0, c0, rows - 1);
      UnitKernelRow(coeffs, taps, r0, c0, rows - 1);
      var row, vals := KernelRow(coeffs, taps, rows - 1), WindowRow(s, width, taps, sel, k, rows - 1);
      if rows - 1 == r0 {
        DotUnit(row, vals, c0);
      } else {
        DotZeroTaps(row, vals);
      }
    }
  }

  /** A kernel whose only tap is 1 at (r0, c0) is the delay line's tap (r0, c0). */
  lemma UnitKernelIsDelay(s: seq<int>, width: nat, taps: nat, coeffs: seq<int>, absf: bool, r0: nat, c0: nat, k: nat)
    requires r0 < taps && c0 < taps && |coeffs| == taps * taps && UnitTap(coeffs, r0 * taps + c0)
    requires k < |s| && forall j :: 0 <= j < |s| ==> IsPixel(s[j])
    ensures ConvStream(s, width, coeffs, 0, absf, true, taps)[k] == At(s, TapBeat(width, taps, k, r0, c0))
  {
    UnitSum(s, width, taps, coeffs, 2, k, r0, c0, taps);
    UnitSum(s, width, taps, coeffs, 1, k, r0, c0, taps);
    UnitSum(s, width, taps, coeffs, 0, k, r0, c0, taps);
    LanesRebuild(At(s, TapBeat(width, taps, k, r0, c0)));
  }
}
