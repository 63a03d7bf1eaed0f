/** Distances of the header code: different headers differ in at least four of their 30 bits. */
module HeaderDistance {
  import opened Crc
  import opened CrcDetection
  import opened HeaderEcc

  function Weight(bits: seq<bool>): nat {
    if bits == [] then 0 else Weight(bits[..|bits| - 1]) + (if bits[|bits| - 1] then 1 else 0)
  }

  /** The number of positions in which two words differ. */
  function Distance(a: seq<bool>, b: seq<bool>): nat
    requires |a| == |b|
  {
    Weight(XorBits(a, b))
  }

  lemma {:induction false} WeightAppend(a: seq<bool>, b: seq<bool>)
    ensures Weight(a + b) == Weight(a) + Weight(b)
  {
    if b == [] {
      assert a + b == a;
    } else {
      var n := |b| - 1;
      WeightAppend(a, b[..n]);
      assert (a + b)[..|a| + n] == a + b[..n];
    }
  }

  function Weight3(x: bool, y: bool, z: bool): nat {
    (if x then 1 else 0) + (if y then 1 else 0) + (if z then 1 else 0)
  }

  function CheckWeight(c: Check): nat { Weight3(c.c0, c.c1, c.c2) + Weight3(c.c3, c.c4, c.c5) }

  lemma WeightOfThree(x: bool, y: bool, z: bool)
    ensures Weight([x, y, z]) == Weight3(x, y, z)
  {
    assert [x, y, z][..2] == [x, y] && [x, y][..1] == [x] && [x][..0] == [];
    assert Weight([x]) == (if x then 1 else 0);
  }

  lemma CheckBitsWeigh(c: Check)
    ensures Weight(CheckBits(c)) == CheckWeight(c)
  {
    assert CheckBits(c) == [c.c0, c.c1, c.c2] + [c.c3, c.c4, c.c5];
    hide Weight, Weight3, CheckBits;
    WeightOfThree(c.c0, c.c1, c.c2);
    WeightOfThree(c.c3, c.c4, c.c5);
    WeightAppend([c.c0, c.c1, c.c2], [c.c3, c.c4, c.c5]);
  }

  function Odd3(x: bool, y: bool, z: bool): bool { x != (y != z) }

  predicate Odd(c: Check) { Odd3(c.c0, c.c1, c.c2) != Odd3(c.c3, c.c4, c.c5) }

  lemma OddIsWeight(c: Check)
    ensures Odd(c) <==> CheckWeight(c) % 2 == 1
  {
  }

  lemma OddJoin(a: Check, b: Check)
    ensures Odd(Join(a, b)) == (Odd(a) != Odd(b))
  {
  }

  /** Adding check words adds their weights, modulo 2. */
  lemma JoinParity(a: Check, b: Check)
    ensures CheckWeight(Join(a, b)) % 2 == (CheckWeight(a) + CheckWeight(b)) % 2
  {
    hide CheckWeight, Odd, Join;
    OddJoin(a, b);
    OddIsWeight(a);
    OddIsWeight(b);
    OddIsWeight(Join(a, b));
  }

  lemma XorAppend(a: seq<bool>, b: seq<bool>, x: seq<bool>, y: seq<bool>)
    requires |a| == |b| && |x| == |y|
    ensures XorBits(a + x, b + y) == XorBits(a, b) + XorBits(x, y)
  {
  }

  lemma XorThree(a: seq<bool>, b: seq<bool>, d: seq<bool>)
    requires |a| == |b| == |d| == 3
    requires d[0] == (a[0] != b[0]) && d[1] == (a[1] != b[1]) && d[2] == (a[2] != b[2])
    ensures XorBits(a, b) == d
  {
    var x := XorBits(a, b);
    assert x[0] == d[0] && x[1] == d[1] && x[2] == d[2];
  }

  lemma CheckHalves(c: Check)
    ensures CheckBits(c) == [c.c0, c.c1, c.c2] + [c.c3, c.c4, c.c5]
  {
  }

  lemma XorHalf(x: bool, y: bool, z: bool, x': bool, y': bool, z': bool, p: bool, q: bool, r: bool)
    requires p == (x != x') && q == (y != y') && r == (z != z')
    ensures XorBits([x, y, z], [x', y', z']) == [p, q, r]
  {
    hide XorBits;
    XorThree([x, y, z], [x', y', z'], [p, q, r]);
  }

  lemma XorLow(a: Check, b: Check, d: Check)
    requires d == Join(a, b)
    ensures XorBits([a.c0, a.c1, a.c2], [b.c0, b.c1, b.c2]) == [d.c0, d.c1, d.c2]
  {
    hide XorBits;
    XorHalf(a.c0, a.c1, a.c2, b.c0, b.c1, b.c2, d.c0, d.c1, d.c2);
  }

  lemma XorHigh(a: Check, b: Check, d: Check)
    requires d == Join(a, b)
    ensures XorBits([a.c3, a.c4, a.c5], [b.c3, b.c4, b.c5]) == [d.c3, d.c4, d.c5]
  {
    hide XorBits;
    XorHalf(a.c3, a.c4, a.c5, b.c3, b.c4, b.c5, d.c3, d.c4, d.c5);
  }

  lemma XorCheckBits(a: Check, b: Check)
    ensures XorBits(CheckBits(a), CheckBits(b)) == CheckBits(Join(a, b))
  {
    hide CheckBits, XorBits, Join;
    var d := Join(a, b);
    CheckHalves(a);
    CheckHalves(b);
    CheckHalves(d);
    XorLow(a, b, d);
    XorHigh(a, b, d);
    XorAppend([a.c0, a.c1, a.c2], [b.c0, b.c1, b.c2], [a.c3, a.c4, a.c5], [b.c3, b.c4, b.c5]);
  }

  lemma JoinIsNone(a: Check, b: Check)
    ensures Join(a, b) == NONE <==> a == b
    ensures Join(a, NONE) == a
  {
  }

  lemma JoinTwice(a: Check, b: Check)
    ensures Join(Join(a, b), b) == a && Join(Join(b, a), b) == a && Join(a, b) == Join(b, a)
  {
  }

  lemma WeightlessIsNone(c: Check)
    ensures CheckWeight(c) == 0 <==> c == NONE
  {
  }

  // ---- columns ---------------------------------------------------------------------------

  /** A check word as a number, c0 lowest. */
  function CheckValue(c: Check): nat {
    (if c.c0 then 1 else 0) + (if c.c1 then 2 else 0) + (if c.c2 then 4 else 0) + (if c.c3 then 8 else 0)
    + (if c.c4 then 16 else 0) + (if c.c5 then 32 else 0)
  }

  /** The columns in order: the twenty words with three bits set, then the first four with five, each group
      ascending from 7 to 56 and from 31 to 59. As there are just twenty words of the first kind, nothing is
      left open. */
  lemma ColumnsInOrder(i: nat)
    requires i < 24
    ensures CheckWeight(Column(i)) == if i < 20 then 3 else 5
    ensures i != 19 && i != 23 ==> CheckValue(Column(i)) < CheckValue(Column(i + 1))
    ensures CheckValue(Column(0)) == 7 && CheckValue(Column(19)) == 56
    ensures CheckValue(Column(20)) == 31 && CheckValue(Column(23)) == 59
  {
    TwentyFour(i);
  }

  /** Every column has three or five of its six bits set. */
  lemma ColumnWeight(i: nat)
    requires i < 24
    ensures CheckWeight(Column(i)) == 3 || CheckWeight(Column(i)) == 5
  {
    TwentyFour(i);
  }

  lemma ColumnsDiffer(i: nat, j: nat)
    requires i < j < 24
    ensures Column(i) != Column(j)
  {
    TwentyFour(i);
    TwentyFour(j);
  }

  lemma ShareOfDifference(a: bool, b: bool, c: Check)
    ensures Share(a != b, c) == Join(Share(a, c), Share(b, c))
  {
  }

  lemma JoinSwap(a: Check, b: Check, c: Check, d: Check)
    ensures Join(Join(a, b), Join(c, d)) == Join(Join(a, c), Join(b, d))
  {
  }

  lemma {:induction false} FoldIsLinear(a: seq<bool>, b: seq<bool>, n: nat)
    requires |a| == |b| && n <= |a| && n <= 24
    ensures Fold(XorBits(a, b), n) == Join(Fold(a, n), Fold(b, n))
  {
    hide Column, Join, Share;
    if n == 0 {
      JoinIsNone(NONE, NONE);
    } else {
      var c := Column(n - 1);
      FoldIsLinear(a, b, n - 1);
      ShareOfDifference(a[n - 1], b[n - 1], c);
      JoinSwap(Fold(a, n - 1), Fold(b, n - 1), Share(a[n - 1], c), Share(b[n - 1], c));
    }
  }

  /** The header code is linear: check bits add up. */
  lemma EccIsLinear(a: seq<bool>, b: seq<bool>)
    requires |a| == 24 && |b| == 24
    ensures CalcEcc6(XorBits(a, b)) == Join(CalcEcc6(a), CalcEcc6(b))
  {
    hide Fold, CalcEcc6, Join;
    EccIsFold(a);
    EccIsFold(b);
    EccIsFold(XorBits(a, b));
    FoldIsLinear(a, b, 24);
  }

  lemma {:induction false} FoldParity(d: seq<bool>, n: nat)
    requires n <= |d| && n <= 24
    ensures CheckWeight(Fold(d, n)) % 2 == Weight(d[..n]) % 2
  {
    hide Column, Join, CheckWeight;
    if n == 0 {
      WeightlessIsNone(NONE);
    } else {
      FoldParity(d, n - 1);
      assert d[..n][..n - 1] == d[..n - 1];
      JoinParity(Fold(d, n - 1), Share(d[n - 1], Column(n - 1)));
      ColumnWeight(n - 1);
      WeightlessIsNone(NONE);
    }
  }

  lemma {:induction false} NoBits(d: seq<bool>, n: nat)
    requires n <= |d| && n <= 24 && Weight(d[..n]) == 0
    ensures Fold(d, n) == NONE && forall k :: 0 <= k < n ==> !d[k]
  {
    hide Column, Join;
    if n > 0 {
      assert d[..n][..n - 1] == d[..n - 1];
      NoBits(d, n - 1);
      JoinIsNone(NONE, NONE);
    }
  }

  /** One bit set: its column. */
  lemma {:induction false} OneBit(d: seq<bool>, n: nat) returns (i: nat)
    requires n <= |d| && n <= 24 && Weight(d[..n]) == 1
    ensures i < n && Fold(d, n) == Column(i) && forall k :: 0 <= k < n ==> (d[k] <==> k == i)
  {
    hide Column, Join;
    assert d[..n][..n - 1] == d[..n - 1];
    JoinIsNone(Column(n - 1), NONE);
    JoinTwice(Column(n - 1), NONE);
    if d[n - 1] {
      NoBits(d, n - 1);
      i := n - 1;
    } else {
      i := OneBit(d, n - 1);
      JoinIsNone(Column(i), NONE);
    }
  }

  /** Two bits set: the sum of two different columns, never zero. */
  lemma {:induction false} TwoBits(d: seq<bool>, n: nat)
    requires n <= |d| && n <= 24 && Weight(d[..n]) == 2
    ensures Fold(d, n) != NONE
  {
    hide Column, Join;
    assert d[..n][..n - 1] == d[..n - 1];
    if d[n - 1] {
      var i := OneBit(d, n - 1);
      ColumnsDiffer(i, n - 1);
      JoinIsNone(Column(i), Column(n - 1));
    } else {
      TwoBits(d, n - 1);
      JoinIsNone(Fold(d, n - 1), NONE);
    }
  }

  lemma CodewordDifference(h: seq<bool>, g: seq<bool>)
    requires |h| == 24 && |g| == 24
    ensures Distance(Codeword(h), Codeword(g)) ==
            Weight(XorBits(h, g)) + CheckWeight(Fold(XorBits(h, g), 24))
  {
    hide Weight, CheckWeight, Fold, CalcEcc6, CheckBits, Join;
    var d := XorBits(h, g);
    EccIsLinear(h, g);
    EccIsFold(d);
    CheckBitsWeigh(Fold(d, 24));
    WeightAppend(d, CheckBits(Fold(d, 24)));
    XorAppend(h, g, CheckBits(CalcEcc6(h)), CheckBits(CalcEcc6(g)));
    XorCheckBits(CalcEcc6(h), CalcEcc6(g));
  }

  lemma NoDifference(h: seq<bool>, g: seq<bool>)
    requires |h| == 24 && |g| == 24 && Weight(XorBits(h, g)) == 0
    ensures h == g
  {
    var d := XorBits(h, g);
    assert d[..24] == d;
    NoBits(d, 24);
    assert forall k :: 0 <= k < 24 ==> h[k] == g[k] by {
      assert forall k :: 0 <= k < 24 ==> !d[k];
    }
  }

  /** Different headers are sent as words at least four bits apart. */
  lemma HeadersFarApart(h: seq<bool>, g: seq<bool>)
    requires |h| == 24 && |g| == 24 && h != g
    ensures Distance(Codeword(h), Codeword(g)) >= 4
  {
    hide Fold, Codeword, Column, Weight, CheckWeight;
    var d := XorBits(h, g);
    assert d[..24] == d;
    CodewordDifference(h, g);
    FoldParity(d, 24);
    WeightlessIsNone(Fold(d, 24));
    if Weight(d) == 0 {
      NoDifference(h, g);
    } else if Weight(d) == 1 {
      var i := OneBit(d, 24);
      ColumnWeight(i);
    } else if Weight(d) == 2 {
      TwoBits(d, 24);
    }
  }

  /** The same for the fields: any difference in the identifier or in the word count. */
  lemma FieldsFarApart(di: bv8, wc: bv16, di': bv8, wc': bv16)
    requires di != di' || wc != wc'
    ensures Distance(Codeword(HeaderBits(di, LowByte(wc), HighByte(wc))),
                     Codeword(HeaderBits(di', LowByte(wc'), HighByte(wc')))) >= 4
  {
    hide Codeword, Distance, BitsOf, LowByte, HighByte;
    var h, g := HeaderBits(di, LowByte(wc), HighByte(wc)), HeaderBits(di', LowByte(wc'), HighByte(wc'));
    if h == g {
      assert h[..8] == BitsOf(di) && h[8..16] == BitsOf(LowByte(wc)) && h[16..] == BitsOf(HighByte(wc));
      assert g[..8] == BitsOf(di') && g[8..16] == BitsOf(LowByte(wc')) && g[16..] == BitsOf(HighByte(wc'));
      SameFields(di, wc, di', wc');
    }
    HeadersFarApart(h, g);
  }

  lemma SameFields(di: bv8, wc: bv16, di': bv8, wc': bv16)
    requires BitsOf(di) == BitsOf(di') && BitsOf(LowByte(wc)) == BitsOf(LowByte(wc'))
    requires BitsOf(HighByte(wc)) == BitsOf(HighByte(wc'))
    ensures di == di' && wc == wc'
  {
    hide BitsOf;
    BitsOfIsInjective(di, di');
    BitsOfIsInjective(LowByte(wc), LowByte(wc'));
    BitsOfIsInjective(HighByte(wc), HighByte(wc'));
  }

  lemma {:induction false} Triangle(a: seq<bool>, b: seq<bool>, c: seq<bool>)
    requires |a| == |b| == |c|
    ensures Distance(a, c) <= Distance(a, b) + Distance(b, c)
    ensures Distance(a, b) == Distance(b, a)
  {
    if a != [] {
      var n := |a| - 1;
      Triangle(a[..n], b[..n], c[..n]);
      assert XorBits(a, b)[..n] == XorBits(a[..n], b[..n]);
      assert XorBits(b, a)[..n] == XorBits(b[..n], a[..n]);
      assert XorBits(b, c)[..n] == XorBits(b[..n], c[..n]);
      assert XorBits(a, c)[..n] == XorBits(a[..n], c[..n]);
    }
  }
}
