/** When the magnitude flag of a convolution matters: exactly for kernels that can make a sum negative. */
module Rectifier {
  import opened Arithmetic
  import opened Pixels
  import opened Windows
  import opened Convolution
  import opened ConvolutionLaws

  lemma RectifiedAlike(acc: int, shift: nat, absf: bool)
    requires acc >= 0
    ensures Normalise(acc, shift, absf) == Normalise(acc, shift, false)
  {
    if Shr(acc, shift) < 0 {
      QuotientBetween(acc, 0, acc, Pow2(shift)) by { MulMonotone(1, Pow2(shift), acc); }
    }
  }

  /** A negative sum is shown when rectified and cut to zero when not. */
  lemma RectifiedApart(acc: int, shift: nat)
    requires acc < 0
    ensures Normalise(acc, shift, true) > 0 && Normalise(acc, shift, false) == 0
  {
    assert Shr(acc, shift) < 0;
  }

  lemma RowNonNegative(s: seq<int>, width: int, taps: nat, coeffs: seq<int>, sel: nat, k: int, r: nat)
    requires r < taps && taps * taps <= |coeffs| && NonNegative(coeffs)
    ensures Dot(KernelRow(coeffs, taps, r), WindowRow(s, width, taps, sel, k, r)) >= 0
  {
    hide Ch, Dot, PosSum;
    DotRange(KernelRow(coeffs, taps, r), WindowRow(s, width, taps, sel, k, r), 0, 255);
  }

  lemma {:induction false} SumNonNegative(s: seq<int>, width: int, taps: nat, coeffs: seq<int>, sel: nat, k: int,
                                          rows: nat)
    requires rows <= taps && taps * taps <= |coeffs| && NonNegative(coeffs)
    ensures WindowSum(s, width, taps, coeffs, sel, k, rows) >= 0
  {
    hide Dot, KernelRow, WindowRow, NonNegative;
    if rows > 0 {
      SumNonNegative(s, width, taps, coeffs, sel, k, rows - 1);
      RowNonNegative(s, width, taps, coeffs, sel, k, rows - 1);
    }
  }

  /** Without a negative tap the flag does nothing, whatever the window size. */
  lemma RectifierIdle(s: seq<int>, width: int, coeffs: seq<int>, shift: nat, absf: bool, taps: nat)
    requires taps * taps <= |coeffs| && NonNegative(coeffs)
    ensures ConvStream(s, width, coeffs, shift, absf, true, taps) == ConvStream(s, width, coeffs, shift, false, true, taps)
  {
    hide WindowSum, Normalise, NonNegative;
    forall k, sel: nat | 0 <= k < |s|
      ensures ConvChannel(s, width, coeffs, shift, absf, taps, sel, k) ==
              ConvChannel(s, width, coeffs, shift, false, taps, sel, k)
    {
      SumNonNegative(s, width, taps, coeffs, sel, k, taps);
      RectifiedAlike(WindowSum(s, width, taps, coeffs, sel, k, taps), shift, absf);
    }
  }

  // ---- exactly ----------------------------------------------------------------------------------

  /** How many beats back the newest corner's opposite reaches. */
  function Reach(width: nat, taps: nat): nat
    requires taps >= 1
  {
    (taps - 1) * width + (taps - 1)
  }

  /** How many beats back the first tap of row r reaches; the tap j columns on is j beats nearer. */
  function RowReach(width: nat, taps: nat, r: nat): (d: nat)
    requires r < taps
    ensures taps - 1 <= d <= Reach(width, taps)
  {
    MulMonotone(0, taps - 1 - r, width);
    MulMonotone(taps - 1 - r, taps - 1, width);
    (taps - 1 - r) * width + (taps - 1)
  }

  /** Weights by distance, with a row of taps added from `first` beats back on. */
  function RowAdded(w: seq<int>, row: seq<int>, first: nat): (r: seq<int>)
    requires |row| <= first + 1 <= |w|
    ensures |r| == |w|
  {
    if row == [] then w
    else
      var n := |row| - 1;
      var p := RowAdded(w, row[..n], first);
      p[first - n := p[first - n] + row[n]]
  }

  /** The kernel along the stream: entry d is the total weight of the beat d beats back. On rows narrower than
      the window several taps meet in one beat. */
  function Footprint(c: seq<int>, width: nat, taps: nat, rows: nat): (w: seq<int>)
    requires 1 <= taps && rows <= taps && taps * taps <= |c|
    ensures |w| == Reach(width, taps) + 1
  {
    if rows == 0 then seq(Reach(width, taps) + 1, i => 0)
    else RowAdded(Footprint(c, width, taps, rows - 1), KernelRow(c, taps, rows - 1), RowReach(width, taps, rows - 1))
  }

  /** No beat weighs in negatively. */
  predicate NeverNegative(c: seq<int>, width: nat, taps: nat)
    requires 1 <= taps && taps * taps <= |c|
  {
    NonNegative(Footprint(c, width, taps, taps))
  }

  /** The channel values of the newest n beats up to beat k, newest first. */
  function Recent(s: seq<int>, sel: nat, k: int, n: nat): (x: seq<int>)
    ensures |x| == n && forall d :: 0 <= d < n ==> x[d] == Ch(At(s, k - d), sel)
  {
    seq(n, d requires 0 <= d < n => Ch(At(s, k - d), sel))
  }

  lemma {:induction false} DotUpdate(w: seq<int>, x: seq<int>, o: nat, v: int)
    requires o < |w| == |x|
    ensures Dot(w[o := w[o] + v], x) == Dot(w, x) + v * x[o]
  {
    var n := |w| - 1;
    if o < n {
      DotUpdate(w[..n], x[..n], o, v);
      assert w[o := w[o] + v][..n] == w[..n][o := w[..n][o] + v];
    } else {
      assert w[o := w[o] + v][..n] == w[..n];
      assert (w[n] + v) * x[n] == w[n] * x[n] + v * x[n];
    }
  }

  lemma {:induction false} RowAddedDot(w: seq<int>, row: seq<int>, first: nat, vals: seq<int>, x: seq<int>)
    requires |row| == |vals| <= first + 1 <= |w| == |x|
    requires forall j :: 0 <= j < |row| ==> vals[j] == x[first - j]
    ensures Dot(RowAdded(w, row, first), x) == Dot(w, x) + Dot(row, vals)
  {
    if row != [] {
      var n := |row| - 1;
      RowAddedDot(w, row[..n], first, vals[..n], x);
      DotUpdate(RowAdded(w, row[..n], first), x, first - n, row[n]);
    }
  }

  lemma RowInStream(s: seq<int>, width: nat, taps: nat, sel: nat, k: int, r: nat)
    requires r < taps
    ensures forall j :: 0 <= j < taps ==>
      WindowRow(s, width, taps, sel, k, r)[j] == Recent(s, sel, k, Reach(width, taps) + 1)[RowReach(width, taps, r) - j]
  {
    hide Ch, Reach;
  }

  /** The accumulator weighs the newest beats by the footprint. */
  lemma {:induction false} SumIsFootprint(s: seq<int>, width: nat, taps: nat, c: seq<int>, sel: nat, k: int, rows: nat)
    requires 1 <= taps && rows <= taps && taps * taps <= |c|
    ensures WindowSum(s, width, taps, c, sel, k, rows) ==
            Dot(Footprint(c, width, taps, rows), Recent(s, sel, k, Reach(width, taps) + 1))
  {
    hide Ch, Reach, RowAdded, RowReach, WindowRow, KernelRow, Recent;
    var x := Recent(s, sel, k, Reach(width, taps) + 1);
    if rows == 0 {
      ZeroDot(Footprint(c, width, taps, 0), x);
    } else {
      var r := rows - 1;
      SumIsFootprint(s, width, taps, c, sel, k, r);
      RowInStream(s, width, taps, sel, k, r);
      RowAddedDot(Footprint(c, width, taps, r), KernelRow(c, taps, r), RowReach(width, taps, r),
                  WindowRow(s, width, taps, sel, k, r), x);
    }
  }

  lemma ZeroDot(w: seq<int>, x: seq<int>)
    requires |w| == |x| && forall i :: 0 <= i < |w| ==> w[i] == 0
    ensures Dot(w, x) == 0
  {
    hide Dot;
    DotZeroTaps(w, x);
  }

  lemma NeverNegativeSum(s: seq<int>, width: nat, taps: nat, c: seq<int>, sel: nat, k: int)
    requires 1 <= taps && taps * taps <= |c| && NeverNegative(c, width, taps)
    ensures WindowSum(s, width, taps, c, sel, k, taps) >= 0
  {
    hide Ch, WindowSum, Footprint, Reach, Dot;
    SumIsFootprint(s, width, taps, c, sel, k, taps);
    DotRange(Footprint(c, width, taps, taps), Recent(s, sel, k, Reach(width, taps) + 1), 0, 255);
  }

  /** j empty beats, one beat of value 1 in the lowest lane, then nothing for d beats. */
  function Spot(j: nat, d: nat): (s: seq<int>)
    ensures |s| == j + d + 1 && forall i :: 0 <= i < |s| ==> s[i] == if i == j then 1 else 0
  {
    seq(j + d + 1, i => if i == j then 1 else 0)
  }

  lemma {:induction false} DotSpot(w: seq<int>, x: seq<int>, d: nat)
    requires |w| == |x| && forall i :: 0 <= i < |x| ==> x[i] == if i == d then 1 else 0
    ensures Dot(w, x) == if d < |w| then w[d] else 0
  {
    if w != [] {
      DotSpot(w[..|w| - 1], x[..|w| - 1], d);
    }
  }

  /** The sum a spot leaves d beats later is the weight d beats back. */
  lemma SpotSum(c: seq<int>, width: nat, taps: nat, j: nat, d: nat)
    requires 1 <= taps && taps * taps <= |c| && d <= Reach(width, taps)
    ensures WindowSum(Spot(j, d), width, taps, c, 0, j + d, taps) == Footprint(c, width, taps, taps)[d]
  {
    hide Ch, WindowSum, Footprint, Reach, Dot, Spot;
    var x := Recent(Spot(j, d), 0, j + d, Reach(width, taps) + 1);
    LanesOf(1);
    LanesOf(0);
    SumIsFootprint(Spot(j, d), width, taps, c, 0, j + d, taps);
    DotSpot(Footprint(c, width, taps, taps), x, d);
  }

  lemma SpotLane(c: seq<int>, width: int, taps: nat, shift: nat, s: seq<int>, k: int, absf: bool)
    requires taps * taps <= |c|
    ensures Ch(ConvPixel(s, width, c, shift, absf, true, taps, k), 0) == ConvChannel(s, width, c, shift, absf, taps, 0, k)
  {
    hide ConvChannel, Ch;
    RgbLanes(ConvChannel(s, width, c, shift, absf, taps, 2, k), ConvChannel(s, width, c, shift, absf, taps, 1, k),
             ConvChannel(s, width, c, shift, absf, taps, 0, k));
  }

  /** Where the weight is negative, the spot is shown with the flag and not without it. */
  lemma SpotShows(c: seq<int>, width: nat, taps: nat, shift: nat, j: nat, d: nat)
    requires 1 <= taps && taps * taps <= |c| && d <= Reach(width, taps) && Footprint(c, width, taps, taps)[d] < 0
    ensures ConvStream(Spot(j, d), width, c, shift, true, true, taps)[j + d] !=
            ConvStream(Spot(j, d), width, c, shift, false, true, taps)[j + d]
  {
    hide WindowSum, Normalise, ConvPixel, Ch, Spot, Footprint, Reach;
    SpotSum(c, width, taps, j, d);
    RectifiedApart(Footprint(c, width, taps, taps)[d], shift);
    SpotLane(c, width, taps, shift, Spot(j, d), j + d, true);
    SpotLane(c, width, taps, shift, Spot(j, d), j + d, false);
  }

  lemma NeverNegativeStream(s: seq<int>, width: nat, taps: nat, c: seq<int>, shift: nat, absf: bool)
    requires 1 <= taps && taps * taps <= |c| && NeverNegative(c, width, taps)
    ensures ConvStream(s, width, c, shift, absf, true, taps) == ConvStream(s, width, c, shift, false, true, taps)
  {
    hide WindowSum, Normalise, NeverNegative;
    forall k, sel: nat | 0 <= k < |s|
      ensures ConvChannel(s, width, c, shift, absf, taps, sel, k) == ConvChannel(s, width, c, shift, false, taps, sel, k)
    {
      NeverNegativeSum(s, width, taps, c, sel, k);
      RectifiedAlike(WindowSum(s, width, taps, c, sel, k, taps), shift, absf);
    }
  }

  /** The flag makes no difference to any stream exactly when no beat weighs in negatively: for every window
      size, row width, kernel and shift. */
  lemma MagnitudeMatters(c: seq<int>, width: nat, taps: nat, shift: nat)
    requires 1 <= taps && taps * taps <= |c|
    ensures (forall s :: ConvStream(s, width, c, shift, true, true, taps) == ConvStream(s, width, c, shift, false, true, taps))
            <==> NeverNegative(c, width, taps)
  {
    hide ConvStream, Footprint, ConvPixel, WindowSum, NeverNegative;
    if NeverNegative(c, width, taps) {
      forall s
        ensures ConvStream(s, width, c, shift, true, true, taps) == ConvStream(s, width, c, shift, false, true, taps)
      {
        NeverNegativeStream(s, width, taps, c, shift, true);
      }
    } else {
      var d := NegativeBeat(c, width, taps);
      SpotShows(c, width, taps, shift, 0, d);
    }
  }

  lemma NegativeBeat(c: seq<int>, width: nat, taps: nat) returns (d: nat)
    requires 1 <= taps && taps * taps <= |c| && !NeverNegative(c, width, taps)
    ensures d <= Reach(width, taps) && Footprint(c, width, taps, taps)[d] < 0
  {
    hide Footprint, Reach;
    d :| 0 <= d < Reach(width, taps) + 1 && Footprint(c, width, taps, taps)[d] < 0;
  }

  // ---- in terms of the taps ----------------------------------------------------------------------

  lemma {:induction false} RowAddedAt(w: seq<int>, row: seq<int>, first: nat, d: nat)
    requires |row| <= first + 1 <= |w| && d < |w|
    ensures RowAdded(w, row, first)[d] == w[d] + if first - |row| < d <= first then row[first - d] else 0
  {
    if row != [] {
      RowAddedAt(w, row[..|row| - 1], first, d);
    }
  }

  lemma {:induction false} NonNegativeFootprint(c: seq<int>, width: nat, taps: nat, rows: nat)
    requires 1 <= taps && rows <= taps && taps * taps <= |c| && NonNegative(c)
    ensures NonNegative(Footprint(c, width, taps, rows))
  {
    hide Reach, RowAdded, RowReach;
    if rows > 0 {
      var w, row := Footprint(c, width, taps, rows - 1), KernelRow(c, taps, rows - 1);
      var first := RowReach(width, taps, rows - 1);
      NonNegativeFootprint(c, width, taps, rows - 1);
      forall d | 0 <= d < |w|
        ensures RowAdded(w, row, first)[d] >= 0
      {
        RowAddedAt(w, row, first, d);
      }
    }
  }

  lemma NonNegativeNever(c: seq<int>, width: nat, taps: nat)
    requires 1 <= taps && taps * taps <= |c| && NonNegative(c)
    ensures NeverNegative(c, width, taps)
  {
    NonNegativeFootprint(c, width, taps, taps);
  }

  /** Rows still to come lie nearer than those added. */
  lemma {:induction false} NearerIsEmpty(c: seq<int>, width: nat, taps: nat, rows: nat, d: nat)
    requires 1 <= taps && rows <= taps && taps * taps <= |c| && d < (taps - rows) * width && d <= Reach(width, taps)
    ensures Footprint(c, width, taps, rows)[d] == 0
  {
    hide Reach, RowAdded;
    if rows > 0 {
      MulMonotone(taps - rows, taps - (rows - 1), width);
      NearerIsEmpty(c, width, taps, rows - 1, d);
      RowAddedAt(Footprint(c, width, taps, rows - 1), KernelRow(c, taps, rows - 1), RowReach(width, taps, rows - 1), d);
    }
  }

  lemma RowsApart(width: nat, taps: nat, r: nat, q: nat)
    requires r < q < taps <= width
    ensures RowReach(width, taps, q) < (taps - q) * width <= (taps - 1 - r) * width
  {
    MulMonotone(taps - q, taps - 1 - r, width);
    assert (taps - q) * width == (taps - 1 - q) * width + width;
  }

  /** On rows as wide as the window every tap has its own beat. */
  lemma {:induction false} OwnBeat(c: seq<int>, width: nat, taps: nat, rows: nat, r: nat, j: nat)
    requires 1 <= taps <= width && r < rows <= taps && j < taps && taps * taps <= |c|
    ensures Footprint(c, width, taps, rows)[RowReach(width, taps, r) - j] == KernelRow(c, taps, r)[j]
  {
    hide Reach, RowAdded, RowReach;
    var d, q := RowReach(width, taps, r) - j, rows - 1;
    RowAddedAt(Footprint(c, width, taps, q), KernelRow(c, taps, q), RowReach(width, taps, q), d);
    if r < q {
      OwnBeat(c, width, taps, q, r, j);
      RowsApart(width, taps, r, q);
      RowStart(width, taps, r);
    } else {
      RowStart(width, taps, r);
      NearerIsEmpty(c, width, taps, q, d);
    }
  }

  lemma RowStart(width: nat, taps: nat, r: nat)
    requires r < taps
    ensures RowReach(width, taps, r) == (taps - 1 - r) * width + (taps - 1)
    ensures taps <= width ==> RowReach(width, taps, r) < (taps - r) * width
  {
    assert (taps - r) * width == (taps - 1 - r) * width + width;
  }

  lemma OwnInReach(width: nat, taps: nat, r: nat, j: nat)
    requires r < taps && j < taps
    ensures 0 <= RowReach(width, taps, r) - j < Reach(width, taps) + 1
  {
    hide Reach;
  }

  lemma RowAndColumn(i: nat, taps: nat) returns (r: nat, j: nat)
    requires i < taps * taps
    ensures r < taps && j < taps && i == r * taps + j
  {
    r, j := i / taps, i % taps;
    QuotientBetween(i, 0, taps - 1, taps) by { assert (taps - 1) * taps + taps == taps * taps; }
  }

  /** So there no beat weighs in negatively exactly when no tap is negative. */
  lemma WideWeights(c: seq<int>, width: nat, taps: nat)
    requires 1 <= taps <= width && |c| == taps * taps
    ensures NeverNegative(c, width, taps) <==> NonNegative(c)
  {
    hide Footprint, Reach, RowReach;
    if NeverNegative(c, width, taps) {
      forall i | 0 <= i < |c|
        ensures c[i] >= 0
      {
        var r, j := RowAndColumn(i, taps);
        OwnBeat(c, width, taps, taps, r, j);
        OwnInReach(width, taps, r, j);
      }
    }
    if NonNegative(c) {
      NonNegativeNever(c, width, taps);
    }
  }
}
