/** The CSI-2 packet header code: 24 data bits and six check bits (MIPI CSI-2 v1.1, section 9.5), the
    sender's check bits and the receiver's correction. */
module HeaderEcc {
  import opened Crc

  /** The six check bits. */
  datatype Check = Check(c0: bool, c1: bool, c2: bool, c3: bool, c4: bool, c5: bool)

  const NONE: Check := Check(false, false, false, false, false, false)

  function Join(a: Check, b: Check): Check {
    Check(a.c0 != b.c0, a.c1 != b.c1, a.c2 != b.c2, a.c3 != b.c3, a.c4 != b.c4, a.c5 != b.c5)
  }

  // The data bits each check bit adds up.
  const ROW0: seq<nat> := [0, 1, 2, 4, 5, 7, 10, 11, 13, 16, 20, 21, 22, 23]
  const ROW1: seq<nat> := [0, 1, 3, 4, 6, 8, 10, 12, 14, 17, 20, 21, 22, 23]
  const ROW2: seq<nat> := [0, 2, 3, 5, 6, 9, 11, 12, 15, 18, 20, 21, 22]
  const ROW3: seq<nat> := [1, 2, 3, 7, 8, 9, 13, 14, 15, 19, 20, 21, 23]
  const ROW4: seq<nat> := [4, 5, 6, 7, 8, 9, 16, 17, 18, 19, 20, 22, 23]
  const ROW5: seq<nat> := [10, 11, 12, 13, 14, 15, 16, 17, 18, 19, 21, 22, 23]

  predicate Picks(row: seq<nat>, n: nat) {
    && (forall i :: 0 <= i < |row| ==> row[i] < n)
    && forall i, j :: 0 <= i < j < |row| ==> row[i] < row[j]
  }

  /** The exclusive or of the picked bits, left to right. */
  function Xored(b: seq<bool>, row: seq<nat>): bool
    requires Picks(row, |b|)
  {
    if row == [] then false else Xored(b, row[..|row| - 1]) != b[row[|row| - 1]]
  }

  lemma RowsPick()
    ensures Picks(ROW0, 24) && Picks(ROW1, 24) && Picks(ROW2, 24) && Picks(ROW3, 24) && Picks(ROW4, 24) && Picks(ROW5, 24)
  {
    hide Picks;
    Rows01Pick();
    Rows23Pick();
    Rows45Pick();
  }

  lemma Rows01Pick()
    ensures Picks(ROW0, 24) && Picks(ROW1, 24)
  {
  }

  lemma Rows23Pick()
    ensures Picks(ROW2, 24) && Picks(ROW3, 24)
  {
  }

  lemma Rows45Pick()
    ensures Picks(ROW4, 24) && Picks(ROW5, 24)
  {
  }

  /** The check bits of 24 data bits: six parities. */
  function CalcEcc6(b: seq<bool>): Check
    requires |b| == 24
  {
    RowsPick();
    Check(Xored(b, ROW0), Xored(b, ROW1), Xored(b, ROW2), Xored(b, ROW3), Xored(b, ROW4), Xored(b, ROW5))
  }

  /** The header as sent: identifier, then the word count low byte first. */
  function HeaderBits(di: bv8, wcLow: bv8, wcHigh: bv8): (bits: seq<bool>)
    ensures |bits| == 24
  {
    BitsOf(di) + BitsOf(wcLow) + BitsOf(wcHigh)
  }

  /** The sender's 24-bit data word, and its bit i. */
  function DataWord(di: bv8, wc: bv16): bv24 { ((wc as bv24) << 8) | (di as bv24) }

  predicate DataBit(data: bv24, i: nat)
    requires i < 24
  {
    (data >> i) & 1 == 1
  }

  function LowByte(wc: bv16): bv8 { (wc & 0xFF) as bv8 }

  function HighByte(wc: bv16): bv8 { (wc >> 8) as bv8 }

  lemma IdentifierBits(di: bv8, wc: bv16, i: nat)
    requires i < 8
    ensures DataBit(DataWord(di, wc), i) == BitAt(di, i)
  {
    hide BitsOf;
    assert i == 0 || i == 1 || i == 2 || i == 3 || i == 4 || i == 5 || i == 6 || i == 7;
  }

  lemma LowCountBits(di: bv8, wc: bv16, i: nat)
    requires i < 8
    ensures DataBit(DataWord(di, wc), 8 + i) == BitAt(LowByte(wc), i)
  {
    hide BitsOf;
    assert i == 0 || i == 1 || i == 2 || i == 3 || i == 4 || i == 5 || i == 6 || i == 7;
  }

  lemma HighCountBits(di: bv8, wc: bv16, i: nat)
    requires i < 8
    ensures DataBit(DataWord(di, wc), 16 + i) == BitAt(HighByte(wc), i)
  {
    hide BitsOf;
    assert i == 0 || i == 1 || i == 2 || i == 3 || i == 4 || i == 5 || i == 6 || i == 7;
  }

  /** The bits the check code reads are the header's bytes in transmission order. */
  lemma DataBitsAsSent(di: bv8, wc: bv16, i: nat)
    requires i < 24
    ensures DataBit(DataWord(di, wc), i) == HeaderBits(di, LowByte(wc), HighByte(wc))[i]
  {
    hide DataBit, DataWord, BitsOf, BitAt, LowByte, HighByte;
    if i < 8 {
      BitAtIsBit(di, i);
      IdentifierBits(di, wc, i);
    } else if i < 16 {
      LowCountBits(di, wc, i - 8);
      BitAtIsBit(LowByte(wc), i - 8);
    } else {
      HighCountBits(di, wc, i - 16);
      BitAtIsBit(HighByte(wc), i - 16);
    }
  }

  function CheckBits(c: Check): (bits: seq<bool>)
    ensures |bits| == 6
  {
    [c.c0, c.c1, c.c2, c.c3, c.c4, c.c5]
  }

  /** The 30 meaningful bits of a header. */
  function Codeword(b: seq<bool>): (bits: seq<bool>)
    requires |b| == 24
    ensures |bits| == 30
  {
    b + CheckBits(CalcEcc6(b))
  }

  // ---- the code by columns --------------------------------------------------------------

  /** What data bit i contributes to the check bits. */
  function Column(i: nat): Check
    requires i < 24
  {
    if i == 0 then Check(true, true, true, false, false, false)
    else if i == 1 then Check(true, true, false, true, false, false)
    else if i == 2 then Check(true, false, true, true, false, false)
    else if i == 3 then Check(false, true, true, true, false, false)
    else if i == 4 then Check(true, true, false, false, true, false)
    else if i == 5 then Check(true, false, true, false, true, false)
    else if i == 6 then Check(false, true, true, false, true, false)
    else if i == 7 then Check(true, false, false, true, true, false)
    else if i == 8 then Check(false, true, false, true, true, false)
    else if i == 9 then Check(false, false, true, true, true, false)
    else if i == 10 then Check(true, true, false, false, false, true)
    else if i == 11 then Check(true, false, true, false, false, true)
    else if i == 12 then Check(false, true, true, false, false, true)
    else if i == 13 then Check(true, false, false, true, false, true)
    else if i == 14 then Check(false, true, false, true, false, true)
    else if i == 15 then Check(false, false, true, true, false, true)
    else if i == 16 then Check(true, false, false, false, true, true)
    else if i == 17 then Check(false, true, false, false, true, true)
    else if i == 18 then Check(false, false, true, false, true, true)
    else if i == 19 then Check(false, false, false, true, true, true)
    else if i == 20 then Check(true, true, true, true, true, false)
    else if i == 21 then Check(true, true, true, true, false, true)
    else if i == 22 then Check(true, true, true, false, true, true)
    else Check(true, true, false, true, true, true)
  }

  lemma TwentyFour(i: nat)
    requires i < 24
    ensures || i == 0 || i == 1 || i == 2 || i == 3 || i == 4 || i == 5 || i == 6 || i == 7 || i == 8 || i == 9 || i == 10 || i == 11
            || i == 12 || i == 13 || i == 14 || i == 15 || i == 16 || i == 17 || i == 18 || i == 19 || i == 20 || i == 21 || i == 22 || i == 23
  {
  }

  lemma Row0(i: nat)
    requires i < 24
    ensures Column(i).c0 <==> i in ROW0
  {
    hide Join;
    TwentyFour(i);
  }

  lemma Row1(i: nat)
    requires i < 24
    ensures Column(i).c1 <==> i in ROW1
  {
    hide Join;
    TwentyFour(i);
  }

  lemma Row2(i: nat)
    requires i < 24
    ensures Column(i).c2 <==> i in ROW2
  {
    hide Join;
    TwentyFour(i);
  }

  lemma Row3(i: nat)
    requires i < 24
    ensures Column(i).c3 <==> i in ROW3
  {
    hide Join;
    TwentyFour(i);
  }

  lemma Row4(i: nat)
    requires i < 24
    ensures Column(i).c4 <==> i in ROW4
  {
    hide Join;
    TwentyFour(i);
  }

  lemma Row5(i: nat)
    requires i < 24
    ensures Column(i).c5 <==> i in ROW5
  {
    hide Join;
    TwentyFour(i);
  }

  function Share(bit: bool, c: Check): Check { if bit then c else NONE }

  /** The sum of the columns of the set bits among the first n. */
  function Fold(b: seq<bool>, n: nat): Check
    requires n <= |b| && n <= 24
  {
    if n == 0 then NONE else Join(Fold(b, n - 1), Share(b[n - 1], Column(n - 1)))
  }

  function Gated(b: seq<bool>, row: seq<nat>, n: nat): bool
    requires n <= |b|
  {
    if n == 0 then false else Gated(b, row, n - 1) != (b[n - 1] && n - 1 in row)
  }

  lemma {:induction false} GatedAgrees(b: seq<bool>, row: seq<nat>, other: seq<nat>, n: nat)
    requires n <= |b| && forall i :: 0 <= i < n ==> (i in row <==> i in other)
    ensures Gated(b, row, n) == Gated(b, other, n)
  {
    if n > 0 {
      GatedAgrees(b, row, other, n - 1);
    }
  }

  /** Picking in ascending order is gating every bit. */
  lemma {:induction false} XoredIsGated(b: seq<bool>, row: seq<nat>, n: nat)
    requires n <= |b| && Picks(row, n)
    ensures Picks(row, |b|) && Xored(b, row) == Gated(b, row, n)
  {
    if row == [] {
      NothingGated(b, n);
    } else if row[|row| - 1] == n - 1 {
      var rest := row[..|row| - 1];
      XoredIsGated(b, rest, n - 1);
      GatedAgrees(b, row, rest, n - 1);
    } else {
      XoredIsGated(b, row, n - 1);
    }
  }

  lemma {:induction false} NothingGated(b: seq<bool>, n: nat)
    requires n <= |b|
    ensures !Gated(b, [], n)
  {
    if n > 0 {
      NothingGated(b, n - 1);
    }
  }

  lemma GatedStep(b: seq<bool>, row: seq<nat>, n: nat)
    requires 0 < n <= |b|
    ensures Gated(b, row, n) == (Gated(b, row, n - 1) != (b[n - 1] && n - 1 in row))
  {
  }

  lemma GatedStart(b: seq<bool>, row: seq<nat>)
    ensures !Gated(b, row, 0)
  {
  }

  function AllGated(b: seq<bool>, n: nat): Check
    requires n <= |b|
  {
    Check(Gated(b, ROW0, n), Gated(b, ROW1, n), Gated(b, ROW2, n), Gated(b, ROW3, n), Gated(b, ROW4, n), Gated(b, ROW5, n))
  }

  lemma AllGatedStep(b: seq<bool>, n: nat)
    requires 0 < n <= |b| && n <= 24
    ensures AllGated(b, n) == Join(AllGated(b, n - 1), Share(b[n - 1], Column(n - 1)))
  {
    hide Gated, Column, ROW0, ROW1, ROW2, ROW3, ROW4, ROW5;
    Row0(n - 1); Row1(n - 1); Row2(n - 1); Row3(n - 1); Row4(n - 1); Row5(n - 1);
    GatedStep(b, ROW0, n); GatedStep(b, ROW1, n); GatedStep(b, ROW2, n);
    GatedStep(b, ROW3, n); GatedStep(b, ROW4, n); GatedStep(b, ROW5, n);
  }

  lemma {:induction false} FoldIsGated(b: seq<bool>, n: nat)
    requires n <= |b| && n <= 24
    ensures Fold(b, n) == AllGated(b, n)
  {
    if n == 0 {
      hide Gated;
      GatedStart(b, ROW0); GatedStart(b, ROW1); GatedStart(b, ROW2);
      GatedStart(b, ROW3); GatedStart(b, ROW4); GatedStart(b, ROW5);
    } else {
      hide Column, Join, AllGated, Share;
      FoldIsGated(b, n - 1);
      AllGatedStep(b, n);
    }
  }

  /** The six parities are the sum of the columns of the set bits. */
  lemma EccIsFold(b: seq<bool>)
    requires |b| == 24
    ensures CalcEcc6(b) == Fold(b, 24)
  {
    hide Fold, Gated, Xored, Picks, ROW0, ROW1, ROW2, ROW3, ROW4, ROW5;
    RowsPick();
    FoldIsGated(b, 24);
    XoredIsGated(b, ROW0, 24); XoredIsGated(b, ROW1, 24); XoredIsGated(b, ROW2, 24);
    XoredIsGated(b, ROW3, 24); XoredIsGated(b, ROW4, 24); XoredIsGated(b, ROW5, 24);
  }
}
