/** The dither stage: ordered and random bias, quantisation with the 3-bit smear, and the stream model. */
module Dither {
  import opened Arithmetic
  import opened Bits
  import opened Pixels
  import Lfsr

  /** The bits of a from d upwards. */
  function High(a: nat, d: nat): nat {
    QuotientIsNat(a, Pow2(d));
    a / Pow2(d)
  }

  lemma HighStep(a: nat, d: nat)
    ensures High(a, 0) == a
    ensures d > 0 ==> High(a, d) == High(a / 2, d - 1)
  {
    if d > 0 {
      var p := Pow2(d - 1);
      var q := a / 2 / p;
      assert q * p <= a / 2 < q * p + p;
      assert q * (2 * p) == 2 * (q * p);
      QuotientIs(a, q, 2 * p);
    }
  }

  /** The bits from d upwards of an or are the or of those bits. */
  lemma {:induction false} OrHigh(a: nat, b: nat, d: nat)
    ensures High(Or(a, b), d) == Or(High(a, d), High(b, d))
    decreases d
  {
    hide Or, High;
    HighStep(a, d); HighStep(b, d); HighStep(Or(a, b), d);
    if d > 0 {
      OrHalves(a, b);
      OrHigh(a / 2, b / 2, d - 1);
    }
  }

  const BAYER4: seq<nat> := [0, 8, 2, 10, 12, 4, 14, 6, 3, 11, 1, 9, 15, 7, 13, 5]

  function Bias(cell: nat, rnd: nat, mode: bool, n: nat): nat
    requires 1 <= n <= 6
  {
    var drop := 8 - n;
    if mode then rnd % Pow2(drop)
    else if drop >= 4 then cell * Pow2(drop - 4)
    else cell / Pow2(4 - drop)
  }

  /** Biased, saturated value before the low bits go. */
  function Biased(v: int, cell: nat, rnd: nat, mode: bool, n: nat): (s: nat)
    requires 1 <= n <= 6 && IsByte(v)
    ensures v <= s <= 255
  {
    var s := v + Bias(cell, rnd, mode, n);
    if s > 255 then 255 else s
  }

  /** Clear the bits below m, a power of two: `s & ~(m - 1)`. */
  function Truncate(s: nat, m: nat): (q: nat)
    requires m > 0
    ensures q <= s && q / m == s / m && s - q < m && q % m == 0
  {
    assert s == s / m * m + s % m;
    MulMonotone(0, s / m, m);
    RemainderIs(s - s % m, s / m, 0, m);
    s - s % m
  }

  /** `o |= o >> shift` */
  function Smear(o: nat, shift: nat): nat {
    Or(o, High(o, shift))
  }

  /** One channel through the ditherer; the second and third smear amounts wrap modulo 8. */
  function DitherChannel(v: int, cell: nat, rnd: nat, mode: bool, n: nat): (o: int)
    requires IsByte(v) && n <= 7
  {
    if n == 0 || n >= 7 then v
    else
      var q := Truncate(Biased(v, cell, rnd, mode, n), Pow2(8 - n));
      Smear(Smear(Smear(q, n), 2 * n % 8), 4 * n % 8) % 256
  }

  /** The n-bit code an output byte shows: its top n bits. */
  function Code(o: int, n: nat): int
    requires n <= 8
  {
    o / Pow2(8 - n)
  }

  /** The quantised value the smear starts from, as an n-bit code. */
  function IntendedCode(v: int, cell: nat, rnd: nat, mode: bool, n: nat): int
    requires 1 <= n <= 6 && IsByte(v)
  {
    Biased(v, cell, rnd, mode, n) / Pow2(8 - n)
  }

  // ---- what the smear does to the code -----------------------------------------------

  /** A byte shifted by at least n bits has nothing left above bit 8-n. */
  lemma ShiftedOut(o: nat, n: nat, shift: nat)
    requires o < 256 && n <= 8 && n <= shift
    ensures o / Pow2(shift) < Pow2(8 - n)
  {
    EightBits();
    Pow2Sum(n, 8 - n);
    Pow2Monotone(n, shift);
    var q, p := o / Pow2(shift), Pow2(8 - n);
    if q >= p {
      MulMonotone(p, q, Pow2(shift));
      MulMonotone(Pow2(n), Pow2(shift), p);
    }
  }

  lemma SmallQuotient(x: nat, m: nat)
    requires x < m
    ensures x / m == 0
  {
    QuotientIs(x, 0, m);
  }

  /** Or-ing in a copy shifted by at least n bits leaves the top n bits of a byte alone. */
  lemma SmearBelow(o: nat, n: nat, shift: nat)
    requires o < 256 && n <= 8 && (shift >= n || shift == 0)
    ensures Smear(o, shift) / Pow2(8 - n) == o / Pow2(8 - n)
    ensures Smear(o, shift) < 256
  {
    hide Or;
    EightBits();
    OrHigh(o, High(o, shift), 8 - n);
    OrHigh(o, High(o, shift), 8);
    if shift == 0 {
      assert o / 1 == o;
      OrSelf(o);
    } else {
      ShiftedOut(o, n, shift);
      ShiftedOut(o, 0, shift);
      SmallQuotient(o / Pow2(shift), Pow2(8 - n));
      SmallQuotient(o, 256);
      SmallQuotient(o / Pow2(shift), 256);
      OrZero(o / Pow2(8 - n));
      OrZero(0);
    }
  }

  /** Up to four bits the output's code is the truncated biased value, in both modes. */
  lemma CodeIsQuotient(v: int, cell: nat, rnd: nat, mode: bool, n: nat)
    requires IsByte(v) && 1 <= n <= 4
    ensures Code(DitherChannel(v, cell, rnd, mode, n), n) == IntendedCode(v, cell, rnd, mode, n)
  {
    hide Smear, Biased, Pow2, Truncate;
    var q := Truncate(Biased(v, cell, rnd, mode, n), Pow2(8 - n));
    var o1 := Smear(q, n);
    var o2 := Smear(o1, 2 * n % 8);
    SmearBelow(q, n, n);
    assert (2 * n % 8 >= n || 2 * n % 8 == 0) && (4 * n % 8 >= n || 4 * n % 8 == 0) by {
      assert n == 1 || n == 2 || n == 3 || n == 4;
    }
    SmearBelow(o1, n, 2 * n % 8);
    SmearBelow(o2, n, 4 * n % 8);
  }

  lemma OrLiterals()
    ensures Or(128, 4) == 132 && Or(132, 33) == 165 && Or(165, 10) == 175
    ensures Or(128, 2) == 130 && Or(130, 8) == 138
  {
    hide Or;
    OrStep(128, 4); OrStep(64, 2); OrStep(32, 1); OrZero(16);
    OrStep(132, 33); OrStep(66, 16); OrStep(33, 8); OrStep(16, 4); OrStep(8, 2); OrStep(4, 1); OrZero(2);
    OrStep(165, 10); OrStep(82, 5); OrStep(41, 2); OrStep(20, 1); OrZero(10);
    OrStep(128, 2); OrStep(64, 1); OrZero(32);
    OrStep(130, 8); OrStep(65, 4); OrStep(32, 2); OrStep(16, 1); OrZero(8);
  }

  lemma SmallPowers()
    ensures Pow2(0) == 1 && Pow2(1) == 2 && Pow2(2) == 4 && Pow2(3) == 8
    ensures Pow2(4) == 16 && Pow2(5) == 32 && Pow2(6) == 64 && Pow2(7) == 128
  {
    assert Pow2(3) == 8 && Pow2(4) == 16;
    Pow2Sum(3, 2); Pow2Sum(3, 3); Pow2Sum(3, 4);
  }

  lemma SmearCorruptsFive()
    ensures Code(DitherChannel(128, 0, 0, false, 5), 5) == 21
    ensures IntendedCode(128, 0, 0, false, 5) == 16
  {
    hide Or, Truncate, Pow2;
    OrLiterals();
    SmallPowers();
    assert Biased(128, 0, 0, false, 5) == 128;
    assert Truncate(128, 8) == 128;
    assert Smear(128, 5) == 132 && Smear(132, 2) == 165 && Smear(165, 4) == 175;
  }

  lemma SmearCorruptsSix()
    ensures Code(DitherChannel(128, 0, 0, false, 6), 6) == 34
    ensures IntendedCode(128, 0, 0, false, 6) == 32
  {
    hide Or, Truncate, Pow2;
    OrLiterals();
    OrSelf(138);
    SmallPowers();
    assert Biased(128, 0, 0, false, 6) == 128;
    assert Truncate(128, 4) == 128;
    assert Smear(128, 6) == 130 && Smear(130, 4) == 138 && Smear(138, 0) == 138;
  }

  /** Among the active bit depths, the code survives the smear for every input exactly up to four bits. */
  lemma CodeSurvivesIff(n: nat)
    requires 1 <= n <= 6
    ensures (forall v, cell: nat, rnd: nat, mode :: IsByte(v) ==>
               Code(DitherChannel(v, cell, rnd, mode, n), n) == IntendedCode(v, cell, rnd, mode, n)) <==> n <= 4
  {
    hide DitherChannel, IntendedCode, Code;
    if n <= 4 {
      forall v, cell: nat, rnd: nat, mode | IsByte(v)
        ensures Code(DitherChannel(v, cell, rnd, mode, n), n) == IntendedCode(v, cell, rnd, mode, n)
      {
        CodeIsQuotient(v, cell, rnd, mode, n);
      }
    } else {
      SmearCorruptsFive();
      SmearCorruptsSix();
    }
  }

  // ---- what every depth keeps ----------------------------------------------------------------

  lemma BiasBelowStep(cell: nat, rnd: nat, mode: bool, n: nat)
    requires 1 <= n <= 6 && cell < 16
    ensures Bias(cell, rnd, mode, n) < Pow2(8 - n)
  {
    SmallPowers();
    var drop := 8 - n;
    if !mode {
      assert drop == 2 || drop == 3 || drop == 4 || drop == 5 || drop == 6 || drop == 7;
    }
  }

  /** Black stays black and depths 0 and 7 pass everything, whatever the bias. */
  lemma BlackStaysBlack(v: int, cell: nat, rnd: nat, mode: bool, n: nat)
    requires n <= 7 && cell < 16 && IsByte(v)
    ensures DitherChannel(0, cell, rnd, mode, n) == 0
    ensures n == 0 || n == 7 ==> DitherChannel(v, cell, rnd, mode, n) == v
  {
    if 1 <= n <= 6 {
      hide Smear, Bias, Pow2, Truncate;
      BiasBelowStep(cell, rnd, mode, n);
      StepFitsByte(n);
      TruncatedBlack(Biased(0, cell, rnd, mode, n), Pow2(8 - n));
      NothingToSmear(n);
      NothingToSmear(2 * n % 8);
      NothingToSmear(4 * n % 8);
    }
  }

  lemma StepFitsByte(n: nat)
    requires 1 <= n <= 6
    ensures Pow2(8 - n) <= 128
  {
    SmallPowers();
    Pow2Monotone(8 - n, 7);
  }

  lemma TruncatedBlack(b: nat, m: nat)
    requires b < m
    ensures Truncate(b, m) == 0
  {
    RemainderIs(b, 0, b, m);
  }

  lemma NothingToSmear(shift: nat)
    ensures Smear(0, shift) == 0
  {
    QuotientIs(0, 0, Pow2(shift));
  }

  lemma OrWhites()
    ensures Or(128, 64) == 192 && Or(192, 48) == 240 && Or(240, 15) == 255
    ensures Or(224, 28) == 252 && Or(252, 3) == 255 && Or(248, 7) == 255
    ensures Or(255, 15) == 255 && Or(255, 63) == 255 && Or(255, 255) == 255
  {
    hide Or, Pow2;
    SmallPowers();
    EightBits();
    OrHighLow(1, 64, 7); OrHighLow(3, 48, 6); OrHighLow(15, 15, 4);
    OrHighLow(7, 28, 5); OrHighLow(63, 3, 2); OrHighLow(31, 7, 3);
    OrOnes(8, 15); OrOnes(8, 63); OrOnes(8, 255);
  }

  lemma SmearIs(o: nat, shift: nat, q: nat)
    requires o / Pow2(shift) == q
    ensures Smear(o, shift) == Or(o, q)
  {
  }

  /** The three smears of the truncated white. */
  lemma WhiteSmears(n: nat, q: nat)
    requires 1 <= n <= 6 && q + Pow2(8 - n) == 256
    ensures Smear(Smear(Smear(q, n), 2 * n % 8), 4 * n % 8) == 255
  {
    hide Or, Pow2, Smear;
    OrWhites();
    SmallPowers();
    if n == 1 {
      SmearIs(128, 1, 64); SmearIs(192, 2, 48); SmearIs(240, 4, 15);
    } else if n == 2 {
      SmearIs(192, 2, 48); SmearIs(240, 4, 15); SmearIs(255, 0, 255);
    } else if n == 3 {
      SmearIs(224, 3, 28); SmearIs(252, 6, 3); SmearIs(255, 4, 15);
    } else if n == 4 {
      SmearIs(240, 4, 15); SmearIs(255, 0, 255);
    } else if n == 5 {
      SmearIs(248, 5, 7); SmearIs(255, 2, 63); SmearIs(255, 4, 15);
    } else {
      SmearIs(252, 6, 3); SmearIs(255, 4, 15); SmearIs(255, 0, 255);
    }
  }

  lemma TruncatedWhite(n: nat)
    requires 1 <= n <= 6
    ensures Truncate(255, Pow2(8 - n)) + Pow2(8 - n) == 256
  {
    hide Pow2;
    SmallPowers();
    assert n == 1 || n == 2 || n == 3 || n == 4 || n == 5 || n == 6;
  }

  /** White stays white at every depth: the smear fills all eight bits. */
  lemma WhiteStaysWhite(cell: nat, rnd: nat, mode: bool, n: nat)
    requires n <= 7
    ensures DitherChannel(255, cell, rnd, mode, n) == 255
  {
    if 1 <= n <= 6 {
      hide Smear, Pow2, Biased, Truncate;
      assert Biased(255, cell, rnd, mode, n) == 255;
      TruncatedWhite(n);
      WhiteSmears(n, Truncate(255, Pow2(8 - n)));
    }
  }

  // ---- the stream model ------------------------------------------------------------------

  /** Bayer cell of beat k: rows and columns count within the frame, modulo four. */
  function CellAt(width: nat, height: nat, k: nat): (cell: nat)
    requires width >= 1 && height >= 1
    ensures cell < 16
  {
    MulMonotone(1, height, width);
    var j := k % (width * height);
    BAYER4[j / width % 4 * 4 + j % width % 4]
  }

  /** The three fields of the control byte. */
  function Enabled(ctrl: nat): bool { ctrl % 2 == 1 }

  function RandomMode(ctrl: nat): bool { ctrl / 2 % 2 == 1 }

  function Depth(ctrl: nat): (n: nat)
    ensures n <= 7
  {
    ctrl / 4 % 8
  }

  function DitherLane(s: seq<int>, width: nat, height: nat, ctrl: nat, sel: nat, k: nat): int
    requires width >= 1 && height >= 1 && k < |s|
  {
    DitherChannel(Ch(s[k], sel), CellAt(width, height, k), Lfsr.Value(k), RandomMode(ctrl), Depth(ctrl))
  }

  function DitherPixel(s: seq<int>, width: nat, height: nat, ctrl: nat, k: nat): int
    requires width >= 1 && height >= 1 && k < |s|
  {
    if !Enabled(ctrl) then s[k]
    else Rgb(DitherLane(s, width, height, ctrl, 2, k), DitherLane(s, width, height, ctrl, 1, k),
             DitherLane(s, width, height, ctrl, 0, k))
  }

  function DitherStream(s: seq<int>, width: nat, height: nat, ctrl: nat): (out: seq<int>)
    requires width >= 1 && height >= 1
    ensures |out| == |s|
    ensures forall k :: 0 <= k < |s| ==> out[k] == DitherPixel(s, width, height, ctrl, k)
  {
    seq(|s|, k requires 0 <= k < |s| => DitherPixel(s, width, height, ctrl, k))
  }

  /** The beat loop: the register steps on every beat, enabled or not, and is never reseeded. */
  method DitherGolden(pixels: seq<int>, width: nat, height: nat, ctrl: nat) returns (out: seq<int>)
    requires width >= 1 && height >= 1
    ensures out == DitherStream(pixels, width, height, ctrl)
  {
    hide DitherChannel, CellAt, Ch;
    var en, mode, n := ctrl % 2, ctrl / 2 % 2, ctrl / 4 % 8;
    var lfsr: bv8 := 0xA5;
    out := [];
    for k := 0 to |pixels|
      invariant lfsr == Lfsr.State(k)
      invariant |out| == k
      invariant forall j :: 0 <= j < k ==> out[j] == DitherPixel(pixels, width, height, ctrl, j)
    {
      var p := pixels[k];
      if en == 0 {
        out := out + [p];
      } else {
        var cell := CellAt(width, height, k);
        out := out + [Rgb(DitherChannel(Ch(p, 2), cell, lfsr as nat, mode == 1, n),
                          DitherChannel(Ch(p, 1), cell, lfsr as nat, mode == 1, n),
                          DitherChannel(Ch(p, 0), cell, lfsr as nat, mode == 1, n))];
      }
      lfsr := (lfsr << 1) ^ (if lfsr & 0x80 != 0 then 0x1D else 0);
    }
  }
}
