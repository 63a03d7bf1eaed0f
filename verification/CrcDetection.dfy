/** What the payload checksum is guaranteed to detect, for payloads of any length. */
module CrcDetection {
  import opened Crc

  const ZERO: Reg := Reg(false, false, false, false, false, false, false, false,
                         false, false, false, false, false, false, false, false)

  // ---- linearity -----------------------------------------------------------------

  function Xor(a: Reg, b: Reg): Reg {
    Reg(a.b0 != b.b0, a.b1 != b.b1, a.b2 != b.b2, a.b3 != b.b3, a.b4 != b.b4, a.b5 != b.b5, a.b6 != b.b6, a.b7 != b.b7,
        a.b8 != b.b8, a.b9 != b.b9, a.b10 != b.b10, a.b11 != b.b11, a.b12 != b.b12, a.b13 != b.b13, a.b14 != b.b14,
        a.b15 != b.b15)
  }

  lemma XorIsZero(a: Reg, b: Reg)
    ensures Xor(a, b) == ZERO <==> a == b
  {
  }

  function XorBits(a: seq<bool>, b: seq<bool>): (d: seq<bool>)
    requires |a| == |b|
    ensures |d| == |a| && forall i :: 0 <= i < |d| ==> d[i] == (a[i] != b[i])
  {
    seq(|a|, i requires 0 <= i < |a| => a[i] != b[i])
  }

  lemma StepIsLinear(c: Reg, d: Reg, a: bool, b: bool, differ: bool)
    requires differ == (a != b)
    ensures Xor(Step(c, a), Step(d, b)) == Step(Xor(c, d), differ)
  {
  }

  lemma DifferenceStep(c: Reg, d: Reg, a: seq<bool>, b: seq<bool>, x: seq<bool>, n: nat)
    requires n < |a| && n < |b| && n < |x| && x[n] == (a[n] != b[n])
    requires Xor(Run(c, a[..n]), Run(d, b[..n])) == Run(Xor(c, d), x[..n])
    ensures Xor(Run(c, a[..n + 1]), Run(d, b[..n + 1])) == Run(Xor(c, d), x[..n + 1])
  {
    hide Step, Xor, Run;
    StepIsLinear(Run(c, a[..n]), Run(d, b[..n]), a[n], b[n], x[n]);
    RunStep(c, a, n);
    RunStep(d, b, n);
    RunStep(Xor(c, d), x, n);
  }

  lemma {:induction false} DifferencePrefix(c: Reg, d: Reg, a: seq<bool>, b: seq<bool>, x: seq<bool>, n: nat)
    requires n <= |a| && |a| == |b| == |x| && forall i :: 0 <= i < n ==> x[i] == (a[i] != b[i])
    ensures Xor(Run(c, a[..n]), Run(d, b[..n])) == Run(Xor(c, d), x[..n])
  {
    hide Step, Xor, Run;
    if n == 0 {
      EmptyRun(c); EmptyRun(d); EmptyRun(Xor(c, d));
      assert a[..0] == [] && b[..0] == [] && x[..0] == [];
    } else {
      DifferencePrefix(c, d, a, b, x, n - 1);
      DifferenceStep(c, d, a, b, x, n - 1);
    }
  }

  /** Two runs differ by the run of their difference. */
  lemma DifferenceRun(c: Reg, d: Reg, a: seq<bool>, b: seq<bool>)
    requires |a| == |b|
    ensures Xor(Run(c, a), Run(d, b)) == Run(Xor(c, d), XorBits(a, b))
  {
    hide Step, Xor, Run;
    var x := XorBits(a, b);
    DifferencePrefix(c, d, a, b, x, |a|);
    assert a[..|a|] == a && b[..|a|] == b && x[..|a|] == x;
  }

  /** The bits in which two packets of equal length differ. */
  function Difference(p: seq<bv8>, q: seq<bv8>): (d: seq<bool>)
    requires |p| == |q|
    ensures |d| == 8 * |p|
  {
    XorBits(Transmitted(p), Transmitted(q))
  }

  lemma SameCrcIffZeroDifference(p: seq<bv8>, q: seq<bv8>)
    requires |p| == |q|
    ensures Crc16(p) == Crc16(q) <==> Run(ZERO, Difference(p, q)) == ZERO
  {
    hide Run, Xor, Transmitted;
    DifferenceRun(INIT, INIT, Transmitted(p), Transmitted(q));
    XorIsZero(Crc16(p), Crc16(q));
    XorIsZero(INIT, INIT);
  }

  // ---- bursts ----------------------------------------------------------------------

  predicate Quiet(bits: seq<bool>) { forall i :: 0 <= i < |bits| ==> !bits[i] }

  lemma StepFromZero(c: Reg)
    ensures Step(c, false) == ZERO <==> c == ZERO
  {
  }

  /** Without data, the shift never turns a nonzero register into zero, nor zero into nonzero. */
  lemma {:induction false} QuietRun(c: Reg, bits: seq<bool>)
    requires Quiet(bits)
    ensures Run(c, bits) == ZERO <==> c == ZERO
  {
    hide Step;
    if bits != [] {
      QuietRun(c, bits[..|bits| - 1]);
      StepFromZero(Run(c, bits[..|bits| - 1]));
    }
  }

  /** The register holds nothing at or above bit n. */
  predicate FitsIn(r: Reg, n: nat) {
    && (n <= 0 ==> !r.b0) && (n <= 1 ==> !r.b1) && (n <= 2 ==> !r.b2) && (n <= 3 ==> !r.b3)
    && (n <= 4 ==> !r.b4) && (n <= 5 ==> !r.b5) && (n <= 6 ==> !r.b6) && (n <= 7 ==> !r.b7)
    && (n <= 8 ==> !r.b8) && (n <= 9 ==> !r.b9) && (n <= 10 ==> !r.b10) && (n <= 11 ==> !r.b11)
    && (n <= 12 ==> !r.b12) && (n <= 13 ==> !r.b13) && (n <= 14 ==> !r.b14) && (n <= 15 ==> !r.b15)
  }

  /** A step only reaches a register of n bits from one of at most n + 1 bits. */
  lemma StepBack(c: Reg, bit: bool, n: nat)
    requires n <= 15 && FitsIn(Step(c, bit), n)
    ensures FitsIn(c, n + 1)
  {
  }

  /** To end with n bits after some more steps, the register may hold no more than n plus their number. */
  lemma {:induction false} RunBack(c: Reg, bits: seq<bool>, n: nat)
    requires n + |bits| <= 15 && FitsIn(Run(c, bits), n)
    ensures FitsIn(c, n + |bits|)
  {
    hide Step, FitsIn;
    if bits != [] {
      var m := |bits| - 1;
      StepBack(Run(c, bits[..m]), bits[m], n);
      RunBack(c, bits[..m], n + 1);
    }
  }

  /** All differing bits lie within 16 consecutive transmitted positions from s on. */
  predicate BurstAt(d: seq<bool>, s: nat) {
    forall i :: 0 <= i < |d| && d[i] ==> s <= i < s + 16
  }

  lemma FirstErrorRegister(bits: seq<bool>)
    requires Quiet(bits)
    ensures Step(Run(ZERO, bits), true).b15
  {
    QuietRun(ZERO, bits);
  }

  lemma ZeroFits()
    ensures FitsIn(ZERO, 0)
  {
  }

  /** From the first error on, a burst of at most 16 bits leaves a nonzero register. */
  lemma BurstRun(d: seq<bool>, s: nat)
    requires s < |d| && d[s] && Quiet(d[..s]) && BurstAt(d, s)
    ensures Run(ZERO, d) != ZERO
  {
    hide Step, Run, FitsIn, Quiet;
    var e := if |d| <= s + 16 then |d| else s + 16;
    var c := Step(Run(ZERO, d[..s]), true);
    var mid := Run(c, d[s + 1..e]);
    FirstErrorRegister(d[..s]);
    if mid == ZERO {
      ZeroFits();
      RunBack(c, d[s + 1..e], 0);
      TopBitNeedsRoom(c, |d[s + 1..e]|);
    }
    QuietAfter(d, s, e);
    QuietRun(mid, d[e..]);
    RunStep(ZERO, d, s);
    RunAppend(ZERO, d[..s + 1], d[s + 1..e]);
    RunAppend(ZERO, d[..e], d[e..]);
    assert d[..s + 1] + d[s + 1..e] == d[..e] && d[..e] + d[e..] == d;
  }

  lemma TopBitNeedsRoom(c: Reg, n: nat)
    requires n <= 15 && c.b15
    ensures !FitsIn(c, n)
  {
  }

  lemma QuietAfter(d: seq<bool>, s: nat, e: nat)
    requires BurstAt(d, s) && e <= |d| && (e == |d| || e == s + 16)
    ensures Quiet(d[e..])
  {
  }

  lemma {:induction false} FirstError(d: seq<bool>) returns (s: nat)
    requires !Quiet(d)
    ensures s < |d| && d[s] && Quiet(d[..s])
  {
    var n := |d| - 1;
    if Quiet(d[..n]) {
      s := n;
    } else {
      s := FirstError(d[..n]);
      assert d[..n][..s] == d[..s];
    }
  }

  lemma {:induction false} DifferentPackets(p: seq<bv8>, q: seq<bv8>)
    requires |p| == |q| && p != q
    ensures !Quiet(Difference(p, q))
  {
    hide BitsOf;
    var n := |p| - 1;
    var d := Difference(p, q);
    if p[..n] != q[..n] {
      DifferentPackets(p[..n], q[..n]);
      var e := Difference(p[..n], q[..n]);
      var i :| 0 <= i < |e| && e[i];
      assert d[i];
    } else {
      assert p == p[..n] + [p[n]] && q == q[..n] + [q[n]];
      if BitsOf(p[n]) == BitsOf(q[n]) { BitsOfIsInjective(p[n], q[n]); }
      var i :| 0 <= i < 8 && BitsOf(p[n])[i] != BitsOf(q[n])[i];
      assert d[8 * n + i];
    }
  }

  /** Two different packets of the same length whose differing bits all lie within 16 consecutive
      transmitted bits never share a checksum. */
  lemma BurstsAreDetected(p: seq<bv8>, q: seq<bv8>, s: nat)
    requires |p| == |q| && p != q && BurstAt(Difference(p, q), s)
    ensures Crc16(p) != Crc16(q)
  {
    var d := Difference(p, q);
    DifferentPackets(p, q);
    var f := FirstError(d);
    BurstRun(d, f);
    SameCrcIffZeroDifference(p, q);
  }

  // ---- odd weight --------------------------------------------------------------------

  function Parity(bits: seq<bool>): bool {
    if bits == [] then false else Parity(bits[..|bits| - 1]) != bits[|bits| - 1]
  }

  function RegParity(r: Reg): bool {
    r.b0 != (r.b1 != (r.b2 != (r.b3 != (r.b4 != (r.b5 != (r.b6 != (r.b7 !=
    (r.b8 != (r.b9 != (r.b10 != (r.b11 != (r.b12 != (r.b13 != (r.b14 != r.b15))))))))))))))
  }

  lemma HalvedParity(r: Reg)
    ensures RegParity(Halved(r)) == (RegParity(r) != r.b0)
  {
  }

  lemma FlipBit3(r: Reg)
    ensures RegParity(r.(b3 := !r.b3)) == !RegParity(r)
  {
  }

  lemma FlipBit10(r: Reg)
    ensures RegParity(r.(b10 := !r.b10)) == !RegParity(r)
  {
  }

  lemma FlipBit15(r: Reg)
    ensures RegParity(r.(b15 := !r.b15)) == !RegParity(r)
  {
  }

  lemma FedIsThreeFlips(r: Reg)
    ensures var r3 := r.(b3 := !r.b3);
      var r10 := r3.(b10 := !r3.b10);
      Fed(r) == r10.(b15 := !r10.b15)
  {
  }

  /** The feedback polynomial has three taps, so feeding flips the parity. */
  lemma FedParity(r: Reg)
    ensures RegParity(Fed(r)) == !RegParity(r)
  {
    hide RegParity, Fed;
    var r3 := r.(b3 := !r.b3);
    var r10 := r3.(b10 := !r3.b10);
    FlipBit3(r);
    FlipBit10(r3);
    FlipBit15(r10);
    FedIsThreeFlips(r);
  }

  lemma StepParity(r: Reg, bit: bool)
    ensures RegParity(Step(r, bit)) == (RegParity(r) != bit)
  {
    hide RegParity, Step, Halved, Fed;
    StepByParts(r, bit);
    HalvedParity(r);
    FedParity(Halved(r));
  }

  /** The register's parity is the parity of everything sent through it. */
  lemma {:induction false} RunParity(r: Reg, bits: seq<bool>)
    ensures RegParity(Run(r, bits)) == (RegParity(r) != Parity(bits))
  {
    hide Step, RegParity;
    if bits != [] {
      RunParity(r, bits[..|bits| - 1]);
      StepParity(Run(r, bits[..|bits| - 1]), bits[|bits| - 1]);
    }
  }

  /** An odd number of wrong bits, anywhere, is always detected. */
  lemma OddErrorsAreDetected(p: seq<bv8>, q: seq<bv8>)
    requires |p| == |q| && Parity(Difference(p, q))
    ensures Crc16(p) != Crc16(q)
  {
    RunParity(ZERO, Difference(p, q));
    SameCrcIffZeroDifference(p, q);
  }

  // ---- the footer ----------------------------------------------------------------------

  lemma OwnBitStep(r: Reg)
    ensures Step(r, r.b0) == Halved(r)
  {
  }

  function Halved4(r: Reg): Reg { Halved(Halved(Halved(Halved(r)))) }

  function Four(r: Reg): (bits: seq<bool>) { [r.b0, r.b1, r.b2, r.b3] }

  lemma EmptyPrefix(r: Reg, bits: seq<bool>)
    ensures Run(r, bits[..0]) == r
  {
  }

  lemma FourthBits(r: Reg)
    ensures Halved(r).b0 == r.b1 && Halved(Halved(r)).b0 == r.b2 && Halved(Halved(Halved(r))).b0 == r.b3
  {
  }

  /** Feeding a register its own four leaving bits moves the rest down. */
  lemma RunFour(r: Reg)
    ensures Run(r, Four(r)) == Halved4(r)
  {
    hide Run, Step, Halved;
    var bits := Four(r);
    EmptyPrefix(r, bits);
    RunStep(r, bits, 0); RunStep(r, bits, 1); RunStep(r, bits, 2); RunStep(r, bits, 3);
    FourthBits(r);
    OwnBitStep(r); OwnBitStep(Halved(r)); OwnBitStep(Halved(Halved(r))); OwnBitStep(Halved(Halved(Halved(r))));
    assert bits[..4] == bits;
  }

  lemma ByteInFours(r: Reg)
    ensures LowFields(r) == Four(r) + Four(Halved4(r))
  {
  }

  /** Feeding a register its own low byte moves the high byte down and clears it. */
  lemma OwnByte(r: Reg)
    ensures Run(r, LowFields(r)) == Halved4(Halved4(r))
  {
    hide Run, Halved4, LowFields, Four;
    ByteInFours(r);
    RunFour(r);
    RunFour(Halved4(r));
    RunAppend(r, Four(r), Four(Halved4(r)));
  }

  lemma MovedDown(r: Reg)
    ensures var c := Halved4(Halved4(r));
      LowFields(c) == HighFields(r) && Halved4(Halved4(c)) == ZERO
  {
  }

  /** Feeding a register its own bits empties it. */
  lemma OwnBitsEmpty(r: Reg)
    ensures Run(Run(r, LowFields(r)), HighFields(r)) == ZERO
  {
    hide Run, Halved4;
    OwnByte(r);
    MovedDown(r);
    OwnByte(Halved4(Halved4(r)));
  }

  /** The two footer bytes of a payload, low byte first. */
  predicate IsFooter(payload: seq<bv8>, low: bv8, high: bv8) {
    BitsOf(low) == LowFields(Crc16(payload)) && BitsOf(high) == HighFields(Crc16(payload))
  }

  /** A packet's checksum, appended low byte first, brings the receiver's register to zero. */
  lemma FooterLeavesNothing(payload: seq<bv8>, low: bv8, high: bv8)
    requires IsFooter(payload, low, high)
    ensures Crc16(payload + [low, high]) == ZERO
  {
    hide Run, BitsOf, LowFields, HighFields;
    var sent := payload + [low, high];
    assert sent[..|payload| + 1] == payload + [low] && (payload + [low])[..|payload|] == payload;
    RunAppend(INIT, Transmitted(payload), BitsOf(low));
    RunAppend(INIT, Transmitted(payload + [low]), BitsOf(high));
    OwnBitsEmpty(Crc16(payload));
  }

  /** Receiver's view: what differs from a sent packet (payload and footer) by a burst of at most 16
      bits or by an odd number of bits leaves a nonzero register. */
  lemma CorruptedPacketShows(payload: seq<bv8>, low: bv8, high: bv8, received: seq<bv8>, s: nat)
    requires IsFooter(payload, low, high)
    requires |received| == |payload| + 2 && received != payload + [low, high]
    requires var d := Difference(payload + [low, high], received); BurstAt(d, s) || Parity(d)
    ensures Crc16(received) != ZERO
  {
    hide Crc16, BurstAt, Parity, Difference, IsFooter;
    var sent := payload + [low, high];
    FooterLeavesNothing(payload, low, high);
    if BurstAt(Difference(sent, received), s) {
      BurstsAreDetected(sent, received, s);
    } else {
      OddErrorsAreDetected(sent, received);
    }
  }

  // ---- the conventions -------------------------------------------------------------------

  /** The number some bits spell, lowest first. */
  function Number(bits: seq<bool>): (n: nat) {
    if bits == [] then 0 else (if bits[0] then 1 else 0) + 2 * Number(bits[1..])
  }

  lemma ByteValue(b: bv8)
    ensures b as int == (if b & 1 != 0 then 1 else 0) + (if b & 2 != 0 then 2 else 0) + (if b & 4 != 0 then 4 else 0)
                        + (if b & 8 != 0 then 8 else 0) + (if b & 0x10 != 0 then 0x10 else 0)
                        + (if b & 0x20 != 0 then 0x20 else 0) + (if b & 0x40 != 0 then 0x40 else 0)
                        + (if b & 0x80 != 0 then 0x80 else 0)
  {
  }

  lemma NumberOfFour(bits: seq<bool>)
    requires |bits| >= 4
    ensures Number(bits) == (if bits[0] then 1 else 0) + (if bits[1] then 2 else 0) + (if bits[2] then 4 else 0)
                            + (if bits[3] then 8 else 0) + 16 * Number(bits[4..])
  {
    hide Number;
    NumberStep(bits, 0); NumberStep(bits, 1); NumberStep(bits, 2); NumberStep(bits, 3);
    assert bits[0..] == bits;
  }

  lemma NumberOfEight(bits: seq<bool>)
    requires |bits| == 8
    ensures Number(bits) == (if bits[0] then 1 else 0) + (if bits[1] then 2 else 0) + (if bits[2] then 4 else 0)
                            + (if bits[3] then 8 else 0) + (if bits[4] then 0x10 else 0) + (if bits[5] then 0x20 else 0)
                            + (if bits[6] then 0x40 else 0) + (if bits[7] then 0x80 else 0)
  {
    hide Number;
    NumberOfFour(bits);
    NumberOfFour(bits[4..]);
    NumberOfNone();
    assert bits[4..][4..] == [];
  }

  lemma NumberOfNone()
    ensures Number([]) == 0
  {
  }

  lemma NumberStep(bits: seq<bool>, i: nat)
    requires i < |bits|
    ensures Number(bits[i..]) == (if bits[i] then 1 else 0) + 2 * Number(bits[i + 1..])
  {
    assert bits[i..][1..] == bits[i + 1..];
  }

  /** Bytes go out in order, each with its lowest bit first. */
  lemma {:induction false} ByteAsSent(p: seq<bv8>, n: nat)
    requires n < |p|
    ensures Number(Transmitted(p)[8 * n..8 * n + 8]) == p[n] as int
  {
    hide BitsOf, Number;
    var m := |p| - 1;
    var t := Transmitted(p[..m]);
    assert Transmitted(p) == t + BitsOf(p[m]);
    if n == m {
      assert Transmitted(p)[8 * n..8 * n + 8] == BitsOf(p[m]);
      ByteBits(p[m]);
    } else {
      ByteAsSent(p[..m], n);
      assert Transmitted(p)[8 * n..8 * n + 8] == t[8 * n..8 * n + 8];
    }
  }

  lemma ByteBits(b: bv8)
    ensures Number(BitsOf(b)) == b as int
  {
    hide Number;
    NumberOfEight(BitsOf(b));
    ByteValue(b);
  }

  function Complemented(bits: seq<bool>, n: nat): (c: seq<bool>)
    ensures |c| == |bits| && forall i :: 0 <= i < |bits| ==> c[i] == if i < n then !bits[i] else bits[i]
  {
    seq(|bits|, i requires 0 <= i < |bits| => if i < n then !bits[i] else bits[i])
  }

  lemma AllOnes()
    ensures forall i :: 0 <= i < 8 ==> LowFields(INIT)[i] && HighFields(INIT)[i]
    ensures Xor(INIT, ZERO) == INIT
  {
  }

  lemma OnesEmpty(ones: seq<bool>)
    requires |ones| == 16 && forall i :: 0 <= i < 16 ==> ones[i]
    ensures Run(INIT, ones) == ZERO
  {
    hide Run, LowFields, HighFields, INIT;
    AllOnes();
    OwnBitsEmpty(INIT);
    RunAppend(INIT, LowFields(INIT), HighFields(INIT));
    assert ones == LowFields(INIT) + HighFields(INIT);
  }

  /** Starting from all ones is starting from zero with the first sixteen bits complemented: the checksum of two
      bytes and more is the plain remainder of the bits so sent, and that of nothing is all ones. */
  lemma ChecksumIsRemainder(p: seq<bv8>)
    ensures Crc16([]) == View(0xFFFF)
    ensures |p| >= 2 ==> Crc16(p) == Run(ZERO, Complemented(Transmitted(p), 16))
  {
    hide View, Transmitted, Run, Xor, INIT;
    EmptyRun(INIT);
    NothingSent();
    if |p| >= 2 {
      var bits := Transmitted(p);
      var c := Complemented(bits, 16);
      var d := XorBits(bits, c);
      DifferenceRun(INIT, ZERO, bits, c);
      AllOnes();
      OnesEmpty(d[..16]);
      RunAppend(INIT, d[..16], d[16..]);
      assert d == d[..16] + d[16..];
      QuietRun(ZERO, d[16..]);
      XorIsZero(Run(INIT, bits), Run(ZERO, c));
    }
  }

  lemma NothingSent()
    ensures Transmitted([]) == [] && INIT == View(0xFFFF)
  {
  }
}
