/** The CSI-2 payload checksum: CRC-16, polynomial 0x8408, least significant bit first, start 0xFFFF
    (MIPI CSI-2 v1.1, section 9.6): the sender's loops and their bit-serial closed form. */
module Crc {

  /** The checksum register bit by bit; b0 leaves first. */
  datatype Reg = Reg(b0: bool, b1: bool, b2: bool, b3: bool, b4: bool, b5: bool, b6: bool, b7: bool,
                     b8: bool, b9: bool, b10: bool, b11: bool, b12: bool, b13: bool, b14: bool, b15: bool)

  predicate BitOf(c: bv16, m: bv16) { c & m != 0 }

  /** The bits of a 16-bit word. */
  function View(c: bv16): Reg {
    Reg(BitOf(c, 1), BitOf(c, 2), BitOf(c, 4), BitOf(c, 8), BitOf(c, 0x10), BitOf(c, 0x20), BitOf(c, 0x40), BitOf(c, 0x80),
        BitOf(c, 0x100), BitOf(c, 0x200), BitOf(c, 0x400), BitOf(c, 0x800),
        BitOf(c, 0x1000), BitOf(c, 0x2000), BitOf(c, 0x4000), BitOf(c, 0x8000))
  }

  lemma ViewIsInjective(c: bv16, d: bv16)
    ensures View(c) == View(d) <==> c == d
  {
  }

  const INIT: Reg := View(0xFFFF)

  /** The register shifted once with no data: the leaving bit feeds back into bits 15, 10 and 3. */
  function Shift(r: Reg): Reg {
    Reg(r.b1, r.b2, r.b3, r.b4 != r.b0, r.b5, r.b6, r.b7, r.b8,
        r.b9, r.b10, r.b11 != r.b0, r.b12, r.b13, r.b14, r.b15, r.b0)
  }

  /** One transmitted bit: it joins the leaving register bit before the shift. */
  function Step(r: Reg, bit: bool): Reg {
    Shift(r.(b0 := r.b0 != bit))
  }

  function BitAt(data: bv8, i: nat): bool
    requires i < 8
  {
    (data >> i) & 1 == 1
  }

  /** The eight bits of a byte in transmission order. */
  function BitsOf(b: bv8): (bits: seq<bool>)
    ensures |bits| == 8
  {
    [b & 1 != 0, b & 2 != 0, b & 4 != 0, b & 8 != 0, b & 0x10 != 0, b & 0x20 != 0, b & 0x40 != 0, b & 0x80 != 0]
  }

  lemma BitAtIsBit(b: bv8, i: nat)
    requires i < 8
    ensures BitAt(b, i) == BitsOf(b)[i]
  {
    assert i == 0 || i == 1 || i == 2 || i == 3 || i == 4 || i == 5 || i == 6 || i == 7;
  }

  lemma BitsOfIsInjective(a: bv8, b: bv8)
    requires BitsOf(a) == BitsOf(b)
    ensures a == b
  {
    var x, y := BitsOf(a), BitsOf(b);
    assert x[0] == y[0] && x[1] == y[1] && x[2] == y[2] && x[3] == y[3];
    assert x[4] == y[4] && x[5] == y[5] && x[6] == y[6] && x[7] == y[7];
  }

  function Run(r: Reg, bits: seq<bool>): Reg {
    if bits == [] then r else Step(Run(r, bits[..|bits| - 1]), bits[|bits| - 1])
  }

  /** The bytes as transmitted. */
  function Transmitted(data: seq<bv8>): (bits: seq<bool>)
    ensures |bits| == 8 * |data|
  {
    if data == [] then [] else Transmitted(data[..|data| - 1]) + BitsOf(data[|data| - 1])
  }

  function Crc16(data: seq<bv8>): Reg {
    Run(INIT, Transmitted(data))
  }

  /** `crc >> 1` and `crc ^ 0x8408` on the register bits. */
  function Halved(r: Reg): Reg {
    Reg(r.b1, r.b2, r.b3, r.b4, r.b5, r.b6, r.b7, r.b8, r.b9, r.b10, r.b11, r.b12, r.b13, r.b14, r.b15, false)
  }

  function Fed(r: Reg): Reg {
    r.(b3 := !r.b3, b10 := !r.b10, b15 := !r.b15)
  }

  lemma ViewShiftRight(c: bv16)
    ensures View(c >> 1) == Halved(View(c)) && (c & 1 == 1) == View(c).b0
  {
  }

  lemma ViewXorPoly(c: bv16)
    ensures View(c ^ 0x8408) == Fed(View(c))
  {
  }

  lemma StepByParts(r: Reg, bit: bool)
    ensures Step(r, bit) == if r.b0 != bit then Fed(Halved(r)) else Halved(r)
  {
  }

  /** One turn of the update loop, on the word and on its bits. */
  lemma LoopTurn(c: bv16, bit: bool)
    ensures View(if (c & 1 == 1) != bit then (c >> 1) ^ 0x8408 else c >> 1) == Step(View(c), bit)
  {
    hide View, Step, Fed, Halved;
    ViewShiftRight(c);
    ViewXorPoly(c >> 1);
    StepByParts(View(c), bit);
  }

  /** The register update for one byte. */
  method CrcUpdateByte(crcIn: bv16, data: bv8) returns (crc: bv16)
    ensures View(crc) == Run(View(crcIn), BitsOf(data))
  {
    hide View, BitAt, BitsOf, Step, Run;
    EmptyRun(View(crcIn));
    crc := crcIn;
    ghost var bits := BitsOf(data);
    for i := 0 to 8
      invariant View(crc) == Run(View(crcIn), bits[..i])
    {
      BitAtIsBit(data, i);
      LoopTurn(crc, BitAt(data, i));
      RunStep(View(crcIn), bits, i);
      var feedback := (crc & 1 == 1) != BitAt(data, i);
      crc := crc >> 1;
      if feedback {
        crc := crc ^ 0x8408;
      }
    }
    assert bits[..8] == bits;
  }

  lemma RunStep(r: Reg, bits: seq<bool>, i: nat)
    requires i < |bits|
    ensures Run(r, bits[..i + 1]) == Step(Run(r, bits[..i]), bits[i])
  {
    assert bits[..i + 1][..i] == bits[..i];
  }

  lemma {:induction false} RunAppend(r: Reg, a: seq<bool>, b: seq<bool>)
    ensures Run(r, a + b) == Run(Run(r, a), b)
  {
    hide Step;
    if b == [] {
      assert a + b == a;
    } else {
      var n := |b| - 1;
      RunAppend(r, a, b[..n]);
      assert (a + b)[..|a + b| - 1] == a + b[..n];
    }
  }

  /** The checksum loop over a payload, as the line sender runs it. */
  method PayloadCrc(data: seq<bv8>) returns (crc: bv16)
    ensures View(crc) == Crc16(data)
  {
    hide View, Run, BitsOf;
    crc := 0xFFFF;
    EmptyRun(INIT);
    for i := 0 to |data|
      invariant View(crc) == Crc16(data[..i])
    {
      crc := CrcUpdateByte(crc, data[i]);
      assert data[..i + 1][..i] == data[..i];
      RunAppend(INIT, Transmitted(data[..i]), BitsOf(data[i]));
    }
    assert data[..|data|] == data;
  }

  lemma EmptyRun(r: Reg)
    ensures Run(r, []) == r
  {
  }

  /** The register bits, leaving bit first, as two bytes. */
  function LowFields(r: Reg): (bits: seq<bool>)
    ensures |bits| == 8
  {
    [r.b0, r.b1, r.b2, r.b3, r.b4, r.b5, r.b6, r.b7]
  }

  function HighFields(r: Reg): (bits: seq<bool>)
    ensures |bits| == 8
  {
    [r.b8, r.b9, r.b10, r.b11, r.b12, r.b13, r.b14, r.b15]
  }

  /** The footer beat: low byte first. */
  method Footer(crc: bv16) returns (low: bv8, high: bv8)
    ensures BitsOf(low) == LowFields(View(crc)) && BitsOf(high) == HighFields(View(crc))
    ensures crc as int == low as int + 256 * high as int
  {
    hide View, BitsOf;
    low, high := (crc & 0xFF) as bv8, (crc >> 8) as bv8;
    LowByteBits(crc);
    HighByteBits(crc);
  }

  lemma LowByteBits(c: bv16)
    ensures BitsOf((c & 0xFF) as bv8) == LowFields(View(c))
  {
  }

  lemma HighByteBits(c: bv16)
    ensures BitsOf((c >> 8) as bv8) == HighFields(View(c))
  {
  }
}
