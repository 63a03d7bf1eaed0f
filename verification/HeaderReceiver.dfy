/** The receiver's header correction: it decodes every word to the nearest header when that is at most one
    bit away, and reports everything else. */
module HeaderReceiver {
  import opened CrcDetection
  import opened HeaderEcc
  import opened HeaderDistance

  /** A received header: 24 data bits and six check bits. */
  function Word(data: seq<bool>, ecc: Check): (w: seq<bool>)
    requires |data| == 24
    ensures |w| == 30
  {
    data + CheckBits(ecc)
  }

  function Syndrome(data: seq<bool>, ecc: Check): Check
    requires |data| == 24
  {
    Join(ecc, CalcEcc6(data))
  }

  datatype Verdict = Verdict(data: seq<bool>, noError: bool, corrected: bool, uncorrectable: bool)

  function OneHot(i: nat): (b: seq<bool>)
    requires i < 24
    ensures |b| == 24
  {
    seq(24, k => k == i)
  }

  lemma {:induction false} FoldOneHot(i: nat, n: nat)
    requires i < 24 && n <= 24
    ensures Fold(OneHot(i), n) == if i < n then Column(i) else NONE
  {
    hide Column, Join;
    JoinIsNone(NONE, NONE);
    JoinIsNone(Column(i), NONE);
    JoinTwice(Column(i), NONE);
    if n > 0 {
      FoldOneHot(i, n - 1);
    }
  }

  /** The check bits of a single data bit are its column. */
  lemma OneHotIsColumn(i: nat)
    requires i < 24
    ensures CalcEcc6(OneHot(i)) == Column(i)
  {
    hide Fold, CalcEcc6, Column;
    EccIsFold(OneHot(i));
    FoldOneHot(i, 24);
  }

  /** The data bit a syndrome points at, or -1. */
  method DecodeDataBit(syndrome: Check) returns (bit: int)
    ensures -1 <= bit < 24
    ensures bit >= 0 ==> Column(bit) == syndrome
    ensures bit < 0 ==> forall i :: 0 <= i < 24 ==> Column(i) != syndrome
  {
    hide Column, CalcEcc6;
    bit := -1;
    for idx := 0 to 24
      invariant -1 <= bit < idx
      invariant bit >= 0 ==> Column(bit) == syndrome
      invariant bit < 0 ==> forall i :: 0 <= i < idx ==> Column(i) != syndrome
    {
      OneHotIsColumn(idx);
      if syndrome == CalcEcc6(OneHot(idx)) {
        bit := idx;
      }
    }
  }

  /** The six bits of a check word as a number. */
  function ViewCheck(v: bv6): Check {
    Check(v & 1 != 0, v & 2 != 0, v & 4 != 0, v & 8 != 0, v & 0x10 != 0, v & 0x20 != 0)
  }

  function Bit6(on: bool, v: bv6): bv6 { if on then v else 0 }

  /** The six check bits as a number. */
  function CheckNumber(c: Check): bv6 {
    Bit6(c.c0, 1) | Bit6(c.c1, 2) | Bit6(c.c2, 4) | Bit6(c.c3, 8) | Bit6(c.c4, 0x10) | Bit6(c.c5, 0x20)
  }

  lemma CheckNumberView(c: Check)
    ensures ViewCheck(CheckNumber(c)) == c
  {
  }

  /** Check bit i weighs 2^i in the header's fourth byte. */
  lemma CheckNumberIsValue(c: Check)
    ensures CheckNumber(c) as int == CheckValue(c)
  {
    CheckNumberView(c);
    SixBitValue(CheckNumber(c));
  }

  lemma SixBitValue(v: bv6)
    ensures v as int == CheckValue(ViewCheck(v))
  {
  }

  lemma XorView(a: bv6, b: bv6)
    ensures ViewCheck(a ^ b) == Join(ViewCheck(a), ViewCheck(b))
  {
  }

  predicate IsOneHot6(v: bv6) { v != 0 && v & (v - 1) == 0 }

  /** The bit trick of the receiver recognises exactly the words with one bit set. */
  lemma OneHotWeight(v: bv6)
    ensures IsOneHot6(v) <==> CheckWeight(ViewCheck(v)) == 1
  {
  }

  function Flip(b: seq<bool>, i: nat): (r: seq<bool>)
    requires i < |b|
    ensures |r| == |b|
  {
    b[i := !b[i]]
  }

  function DistanceTo(data: seq<bool>, ecc: Check, h: seq<bool>): nat
    requires |data| == 24 && |h| == 24
  {
    Distance(Word(data, ecc), Codeword(h))
  }

  lemma DistanceByParts(data: seq<bool>, ecc: Check, h: seq<bool>)
    requires |data| == 24 && |h| == 24
    ensures DistanceTo(data, ecc, h) == Weight(XorBits(data, h)) + CheckWeight(Join(ecc, CalcEcc6(h)))
  {
    hide Weight, CheckWeight, CalcEcc6, CheckBits, Join;
    var d, e := XorBits(data, h), Join(ecc, CalcEcc6(h));
    CheckBitsWeigh(e);
    WeightAppend(d, CheckBits(e));
    XorAppend(data, h, CheckBits(ecc), CheckBits(CalcEcc6(h)));
    XorCheckBits(ecc, CalcEcc6(h));
  }

  lemma {:induction false} SameWeighsNothing(b: seq<bool>)
    ensures Weight(XorBits(b, b)) == 0
  {
    if b != [] {
      var n := |b| - 1;
      SameWeighsNothing(b[..n]);
      assert XorBits(b, b)[..n] == XorBits(b[..n], b[..n]);
    }
  }

  /** Nothing wrong in the data: the distance is the weight of the syndrome. */
  lemma DistanceToOwn(data: seq<bool>, ecc: Check)
    requires |data| == 24
    ensures DistanceTo(data, ecc, data) == CheckWeight(Syndrome(data, ecc))
  {
    hide Weight, CheckWeight, CalcEcc6;
    DistanceByParts(data, ecc, data);
    SameWeighsNothing(data);
  }

  lemma FlippedEcc(data: seq<bool>, i: nat)
    requires |data| == 24 && i < 24
    ensures XorBits(data, Flip(data, i)) == OneHot(i)
    ensures Join(CalcEcc6(data), CalcEcc6(Flip(data, i))) == Column(i)
  {
    hide CalcEcc6, Join, Column;
    assert XorBits(data, Flip(data, i)) == OneHot(i);
    EccIsLinear(data, Flip(data, i));
    OneHotIsColumn(i);
  }

  lemma {:induction false} OneHotWeighsOne(i: nat, n: nat)
    requires i < 24 && n <= 24
    ensures Weight(OneHot(i)[..n]) == if i < n then 1 else 0
  {
    if n > 0 {
      OneHotWeighsOne(i, n - 1);
      assert OneHot(i)[..n][..n - 1] == OneHot(i)[..n - 1];
    }
  }

  lemma JoinRearranged(e: Check, a: Check, b: Check, c: Check)
    requires Join(a, b) == c
    ensures Join(e, b) == NONE <==> Join(e, a) == c
  {
  }

  /** A syndrome that is column i: the header with bit i flipped is one bit away. */
  lemma DistanceToFlipped(data: seq<bool>, ecc: Check, i: nat)
    requires |data| == 24 && i < 24 && Syndrome(data, ecc) == Column(i)
    ensures DistanceTo(data, ecc, Flip(data, i)) == 1
  {
    hide Weight, CheckWeight, CalcEcc6, Column, Join, OneHot, Flip;
    var h := Flip(data, i);
    DistanceByParts(data, ecc, h);
    FlippedEcc(data, i);
    OneHotWeighsOne(i, 24);
    assert OneHot(i)[..24] == OneHot(i);
    JoinRearranged(ecc, CalcEcc6(data), CalcEcc6(h), Column(i));
    WeightlessIsNone(Join(ecc, CalcEcc6(h)));
  }

  /** A header at most one bit away is the received data, or the data with the bit flipped whose column is
      the syndrome. */
  lemma NearHeaders(data: seq<bool>, ecc: Check, h: seq<bool>)
    requires |data| == 24 && |h| == 24 && DistanceTo(data, ecc, h) <= 1
    ensures h == data || exists i :: 0 <= i < 24 && h == Flip(data, i) && Syndrome(data, ecc) == Column(i)
  {
    hide Weight, CheckWeight, CalcEcc6, Column, Join, Fold;
    var d := XorBits(data, h);
    assert d[..24] == d;
    DistanceByParts(data, ecc, h);
    WeightlessIsNone(Join(ecc, CalcEcc6(h)));
    if Weight(d) == 0 {
      NoDifference(data, h);
    } else {
      var i := OneBit(d, 24);
      assert h == Flip(data, i);
      FlippedEcc(data, i);
      JoinRearranged(ecc, CalcEcc6(data), CalcEcc6(h), Column(i));
    }
  }

  lemma CheckWeightAgain(data: seq<bool>, ecc: Check)
    requires |data| == 24
    ensures DistanceTo(data, ecc, data) == 0 <==> Syndrome(data, ecc) == NONE
    ensures DistanceTo(data, ecc, data) == 1 <==> CheckWeight(Syndrome(data, ecc)) == 1
  {
    hide DistanceTo, CheckWeight, Syndrome;
    DistanceToOwn(data, ecc);
    WeightlessIsNone(Syndrome(data, ecc));
  }

  /** The bit a column belongs to is the only candidate besides the data itself, and then the data itself
      is too far away. */
  lemma OnlyFlipped(data: seq<bool>, ecc: Check, i: nat, h: seq<bool>)
    requires |data| == 24 && |h| == 24 && i < 24 && Syndrome(data, ecc) == Column(i) && DistanceTo(data, ecc, h) <= 1
    ensures h == Flip(data, i)
  {
    hide DistanceTo, Syndrome, Column, CheckWeight;
    NearHeaders(data, ecc, h);
    DistanceToOwn(data, ecc);
    ColumnWeight(i);
    if h != data {
      var j :| 0 <= j < 24 && h == Flip(data, j) && Syndrome(data, ecc) == Column(j);
      if i < j { ColumnsDiffer(i, j); }
      if j < i { ColumnsDiffer(j, i); }
    }
  }

  /** The correction of a received header: bounded-distance decoding, exactly. */
  method Correct(data: seq<bool>, ecc: bv6) returns (v: Verdict)
    requires |data| == 24
    ensures |v.data| == 24
    ensures v.noError <==> DistanceTo(data, ViewCheck(ecc), v.data) == 0
    ensures v.corrected <==> DistanceTo(data, ViewCheck(ecc), v.data) == 1
    ensures v.uncorrectable <==> forall h: seq<bool> :: |h| == 24 ==> DistanceTo(data, ViewCheck(ecc), h) > 1
    ensures !v.corrected ==> v.data == data
    ensures forall h: seq<bool> :: |h| == 24 && DistanceTo(data, ViewCheck(ecc), h) <= 1 ==> v.data == h
  {
    hide ViewCheck, CheckNumber, CalcEcc6, Join, Column, DistanceTo, CheckWeight, Flip;
    ghost var e := ViewCheck(ecc);
    var syndrome := ecc ^ CheckNumber(CalcEcc6(data));
    XorView(ecc, CheckNumber(CalcEcc6(data)));
    CheckNumberView(CalcEcc6(data));
    var bit := DecodeDataBit(ViewCheck(syndrome));
    CheckWeightAgain(data, e);
    OneHotWeight(syndrome);
    NoneView(syndrome);
    if syndrome != 0 && bit >= 0 {
      DistanceToFlipped(data, e, bit);
      forall h: seq<bool> | |h| == 24 && DistanceTo(data, e, h) <= 1
        ensures h == Flip(data, bit)
      {
        OnlyFlipped(data, e, bit, h);
      }
      return Verdict(Flip(data, bit), false, true, false);
    }
    NoneIsNoColumn();
    forall h: seq<bool> | |h| == 24 && DistanceTo(data, e, h) <= 1
      ensures h == data
    {
      NearHeaders(data, e, h);
    }
    var eccBitError := syndrome != 0 && IsOneHot6(syndrome);
    v := Verdict(data, syndrome == 0, eccBitError, syndrome != 0 && !eccBitError);
  }

  lemma NoneView(v: bv6)
    ensures ViewCheck(v) == NONE <==> v == 0
  {
  }

  lemma NoneIsNoColumn()
    ensures forall i :: 0 <= i < 24 ==> Column(i) != NONE
  {
    hide Column, CheckWeight;
    forall i | 0 <= i < 24 ensures Column(i) != NONE { ColumnWeight(i); WeightlessIsNone(NONE); }
  }

  /** Two wrong bits of a sent header: no header at all is within one bit, so the receiver reports the word
      as uncorrectable. */
  lemma DoubleErrorsLeaveNothingNear(data: seq<bool>, ecc: Check, sent: seq<bool>, h: seq<bool>)
    requires |data| == 24 && |sent| == 24 && |h| == 24 && DistanceTo(data, ecc, sent) == 2
    ensures DistanceTo(data, ecc, h) > 1
  {
    hide Codeword, Word, Distance;
    if h != sent {
      HeadersFarApart(sent, h);
      Triangle(Codeword(sent), Word(data, ecc), Codeword(h));
      Triangle(Word(data, ecc), Codeword(sent), Codeword(h));
    }
  }
}
