/** The dithered byte bit by bit, at every active depth: the bias, the truncation and the three smears, whose
    second and third distances wrap modulo eight. */
module DitherBits {
  import opened Arithmetic
  import opened Bits
  import opened Pixels
  import opened Dither
  import opened DitherTone
  import Lfsr

  /** Bit i of a number. */
  predicate Bit(x: nat, i: nat) { x / Pow2(i) % 2 == 1 }

  lemma BitIsOdd(x: nat, i: nat)
    ensures Bit(x, i) <==> High(x, i) % 2 == 1
  {
  }

  lemma OrParity(a: nat, b: nat)
    ensures Or(a, b) % 2 == 1 <==> a % 2 == 1 || b % 2 == 1
  {
    hide Or;
    OrStep(a, b);
    TwiceAnd(Or(a / 2, b / 2), if a % 2 == 1 || b % 2 == 1 then 1 else 0);
  }

  lemma TwiceAnd(x: int, y: nat)
    requires y < 2
    ensures (2 * x + y) % 2 == y
  {
  }

  lemma OrBit(a: nat, b: nat, i: nat)
    ensures Bit(Or(a, b), i) <==> Bit(a, i) || Bit(b, i)
  {
    hide Or, High, Bit;
    OrHigh(a, b, i);
    OrParity(High(a, i), High(b, i));
    BitIsOdd(a, i); BitIsOdd(b, i); BitIsOdd(Or(a, b), i);
  }

  lemma {:induction false} HighHigh(a: nat, d: nat, i: nat)
    ensures High(High(a, d), i) == High(a, d + i)
    decreases d
  {
    hide High;
    HighStep(a, d);
    HighStep(a, d + i);
    if d > 0 {
      HighHigh(a / 2, d - 1, i);
    }
  }

  lemma SmearBit(o: nat, shift: nat, i: nat)
    ensures Bit(Smear(o, shift), i) <==> Bit(o, i) || Bit(o, i + shift)
  {
    hide Or, High, Bit;
    OrBit(o, High(o, shift), i);
    HighHigh(o, shift, i);
    BitIsOdd(High(o, shift), i);
    BitIsOdd(o, i + shift);
  }

  lemma SmearFits(o: nat, shift: nat)
    requires o < 256
    ensures Smear(o, shift) < 256
  {
    SmearBelow(o, 0, shift);
  }

  /** Truncation keeps the bits from d on and clears those below. */
  lemma TruncateBit(s: nat, d: nat, i: nat)
    ensures Bit(Truncate(s, Pow2(d)), i) <==> i >= d && Bit(s, i)
  {
    hide Pow2, Truncate;
    var q := Truncate(s, Pow2(d));
    if i >= d {
      HighHigh(q, d, i - d);
      HighHigh(s, d, i - d);
      assert High(q, d) == High(s, d);
      BitIsOdd(q, i); BitIsOdd(s, i);
    } else {
      LowBitClear(q, d, i);
    }
  }

  /** A multiple of 2^d has no bit below d. */
  lemma LowBitClear(q: nat, d: nat, i: nat)
    requires q % Pow2(d) == 0 && i < d
    ensures !Bit(q, i)
  {
    hide Pow2;
    var m, r := q / Pow2(d), Pow2(d - 1 - i);
    PowSplits(d, i);
    assert q == m * Pow2(d) + q % Pow2(d);
    assert m * (2 * (r * Pow2(i))) == 2 * (m * r) * Pow2(i);
    RemainderIs(q, 2 * (m * r), 0, Pow2(i));
    EvenIsEven(m * r);
  }

  lemma EvenIsEven(x: int)
    ensures 2 * x % 2 == 0
  {
  }

  lemma PowSplits(d: nat, i: nat)
    requires i < d
    ensures Pow2(d) == 2 * (Pow2(d - 1 - i) * Pow2(i))
  {
    Pow2Sum(d - 1 - i, i);
    assert d - 1 - i + i == d - 1;
  }

  /** Bit i of a number, or of one of its copies moved down by x, by y and by z, in every combination. */
  predicate AnyOfEight(s: nat, i: nat, x: nat, y: nat, z: nat) {
    || Bit(s, i) || Bit(s, i + x) || Bit(s, i + y) || Bit(s, i + z)
    || Bit(s, i + x + y) || Bit(s, i + x + z) || Bit(s, i + y + z) || Bit(s, i + x + y + z)
  }

  lemma ThreeSmears(q: nat, i: nat, x: nat, y: nat, z: nat)
    ensures Bit(Smear(Smear(Smear(q, x), y), z), i) <==> AnyOfEight(q, i, x, y, z)
  {
    hide Smear, Bit;
    var a, b := Smear(q, x), Smear(Smear(q, x), y);
    SmearBit(b, z, i);
    SmearBit(a, y, i); SmearBit(a, y, i + z);
    SmearBit(q, x, i); SmearBit(q, x, i + y); SmearBit(q, x, i + z); SmearBit(q, x, i + z + y);
    SumsAgree(i, x, y, z);
  }

  lemma SumsAgree(i: nat, x: nat, y: nat, z: nat)
    ensures i + y + x == i + x + y && i + z + x == i + x + z && i + z + y == i + y + z && i + z + y + x == i + x + y + z
  {
  }

  // ---- the bias ----------------------------------------------------------------------------------------

  /** The value the ditherer quantises: the lane plus its bias, held at 255. The random bias is the register
      modulo the step 2^(8-n); the ordered one is that fraction of the step which the cell is of sixteen,
      rounded down. */
  lemma BiasedIs(v: int, cell: nat, rnd: nat, mode: bool, n: nat) returns (bias: nat)
    requires 1 <= n <= 6 && IsByte(v) && cell < 16
    ensures mode ==> bias < Pow2(8 - n) && (rnd - bias) % Pow2(8 - n) == 0
    ensures !mode ==> 16 * bias <= cell * Pow2(8 - n) < 16 * (bias + 1)
    ensures Biased(v, cell, rnd, mode, n) == if v + bias <= 255 then v + bias else 255
  {
    bias := Bias(cell, rnd, mode, n);
    if mode {
      RandomBias(rnd, Pow2(8 - n));
    } else {
      SmallPowers();
      assert n == 1 || n == 2 || n == 3 || n == 4 || n == 5 || n == 6;
    }
  }

  lemma RandomBias(rnd: nat, p: nat)
    requires p > 0
    ensures rnd % p < p && (rnd - rnd % p) % p == 0
  {
    RemainderIs(rnd - rnd % p, rnd / p, 0, p) by { assert rnd == rnd / p * p + rnd % p; }
  }

  /** The matrix by its bits: which cell a position has is the two low bits of row and of their difference
      from the column, interleaved. */
  lemma BayerIsInterleaved(r: nat, c: nat)
    requires r < 4 && c < 4
    ensures BAYER4[r * 4 + c] ==
      8 * ((r + c) % 2) + 4 * (r % 2) + 2 * ((r / 2 + c / 2) % 2) + r / 2
  {
    assert (r == 0 || r == 1 || r == 2 || r == 3) && (c == 0 || c == 1 || c == 2 || c == 3);
  }

  // ---- the byte -----------------------------------------------------------------------------------------

  lemma DitheredFits(q: nat, n: nat)
    requires q < 256
    ensures Smear(Smear(Smear(q, n), 2 * n % 8), 4 * n % 8) < 256
  {
    hide Smear;
    SmearFits(q, n);
    SmearFits(Smear(q, n), 2 * n % 8);
    SmearFits(Smear(Smear(q, n), 2 * n % 8), 4 * n % 8);
  }

  /** The same of the bits from d on only. */
  predicate AnyKept(s: nat, d: nat, i: nat, x: nat, y: nat, z: nat) {
    || Kept(s, d, i) || Kept(s, d, i + x) || Kept(s, d, i + y) || Kept(s, d, i + z)
    || Kept(s, d, i + x + y) || Kept(s, d, i + x + z) || Kept(s, d, i + y + z) || Kept(s, d, i + x + y + z)
  }

  predicate Kept(s: nat, d: nat, i: nat) { i >= d && Bit(s, i) }

  lemma TruncatedAny(s: nat, d: nat, i: nat, x: nat, y: nat, z: nat)
    ensures AnyOfEight(Truncate(s, Pow2(d)), i, x, y, z) <==> AnyKept(s, d, i, x, y, z)
  {
    hide Bit, Pow2, Truncate;
    TruncateBit(s, d, i); TruncateBit(s, d, i + x); TruncateBit(s, d, i + y); TruncateBit(s, d, i + z);
    TruncateBit(s, d, i + x + y); TruncateBit(s, d, i + x + z); TruncateBit(s, d, i + y + z);
    TruncateBit(s, d, i + x + y + z);
  }

  /** A bit of the dithered byte is set exactly when a kept bit of the biased value is: the same bit, the one n,
      2n mod 8 or 4n mod 8 above it, or one a sum of these above it. At depth 3 the distances are 3, 6 and 4. */
  lemma ChannelBits(v: int, cell: nat, rnd: nat, mode: bool, n: nat, i: nat)
    requires 1 <= n <= 6 && IsByte(v) && i < 8
    ensures Bit(DitherChannel(v, cell, rnd, mode, n), i) <==>
            AnyKept(Biased(v, cell, rnd, mode, n), 8 - n, i, n, 2 * n % 8, 4 * n % 8)
  {
    hide Smear, Bit, Pow2, Biased, Truncate, AnyOfEight, AnyKept, DitherChannel;
    var b := Biased(v, cell, rnd, mode, n);
    var q := Truncate(b, Pow2(8 - n));
    DitheredFits(q, n);
    ChannelIs(v, cell, rnd, mode, n);
    ThreeSmears(q, i, n, 2 * n % 8, 4 * n % 8);
    TruncatedAny(b, 8 - n, i, n, 2 * n % 8, 4 * n % 8);
  }

  lemma ChannelIs(v: int, cell: nat, rnd: nat, mode: bool, n: nat)
    requires 1 <= n <= 6 && IsByte(v)
    ensures var q := Truncate(Biased(v, cell, rnd, mode, n), Pow2(8 - n));
      var o := Smear(Smear(Smear(q, n), 2 * n % 8), 4 * n % 8);
      o < 256 ==> DitherChannel(v, cell, rnd, mode, n) == o
  {
    hide Smear, Biased, Truncate, Pow2;
  }

  /** The same for every lane of every beat of the dithered stream. */
  lemma StreamBits(s: seq<int>, width: nat, height: nat, ctrl: nat, sel: nat, k: nat, i: nat)
    requires width >= 1 && height >= 1 && k < |s| && sel < 3 && i < 8 && Enabled(ctrl) && 1 <= Depth(ctrl) <= 6
    ensures var n := Depth(ctrl);
      var b := Biased(Ch(s[k], sel), CellAt(width, height, k), Lfsr.Value(k), RandomMode(ctrl), n);
      Bit(Ch(DitherStream(s, width, height, ctrl)[k], sel), i) <==> AnyKept(b, 8 - n, i, n, 2 * n % 8, 4 * n % 8)
  {
    hide Ch, DitherChannel, CellAt, Bit, AnyKept, Biased, Depth, RandomMode;
    LaneOfPixel(s, width, height, ctrl, sel, k);
    ChannelBits(Ch(s[k], sel), CellAt(width, height, k), Lfsr.Value(k), RandomMode(ctrl), Depth(ctrl), i);
  }

  /** Switched off, or at depth 0 or 7, a dithered lane is the lane. */
  lemma StreamPasses(s: seq<int>, width: nat, height: nat, ctrl: nat, sel: nat, k: nat)
    requires width >= 1 && height >= 1 && k < |s| && sel < 3 && (!Enabled(ctrl) || Depth(ctrl) == 0 || Depth(ctrl) == 7)
    ensures Ch(DitherStream(s, width, height, ctrl)[k], sel) == Ch(s[k], sel)
  {
    hide Ch, CellAt, Depth;
    if Enabled(ctrl) {
      LaneOfPixel(s, width, height, ctrl, sel, k);
    }
  }
}
