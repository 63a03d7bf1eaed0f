/** The CSI-2 packets the sender drives, beat by beat: header with its check bits, payload, checksum footer. */
module Packets {
  import opened Crc
  import opened CrcDetection
  import opened HeaderEcc
  import opened HeaderDistance
  import opened HeaderReceiver

  const DT_YUV422: bv8 := 0x1E
  const LINE_PIXELS := 640
  const LINE_BYTES: bv16 := 1280
  const CHROMA: bv8 := 0x80

  /** Two bytes on the bus with the packet markers. */
  datatype Beat = Beat(byte0: bv8, byte1: bv8, sop: bool, eop: bool)

  /** The bytes of some beats, in order. */
  function Bytes(beats: seq<Beat>): (s: seq<bv8>)
    ensures |s| == 2 * |beats|
  {
    if beats == [] then []
    else Bytes(beats[..|beats| - 1]) + [beats[|beats| - 1].byte0, beats[|beats| - 1].byte1]
  }

  lemma BytesSnoc(beats: seq<Beat>, b: Beat)
    ensures Bytes(beats + [b]) == Bytes(beats) + [b.byte0, b.byte1]
  {
    assert (beats + [b])[..|beats|] == beats;
  }

  /** The fourth header byte: two zero bits above the check bits. */
  function MakeEcc(di: bv8, wc: bv16): bv8 {
    CheckNumber(CalcEcc6(HeaderBits(di, LowByte(wc), HighByte(wc)))) as bv8
  }

  function ExpectedY(line: nat, col: nat): bv8 { ((line * LINE_PIXELS + col) % 256) as bv8 }

  /** The first n pixels of a test line: chroma, then the gradient. */
  function Payload(line: nat, n: nat): (s: seq<bv8>)
    ensures |s| == 2 * n
  {
    if n == 0 then [] else Payload(line, n - 1) + [CHROMA, ExpectedY(line, n - 1)]
  }

  lemma PayloadTwo(line: nat, n: nat, crc: bv16, mid: bv16, end: bv16)
    requires View(crc) == Crc16(Payload(line, n))
    requires View(mid) == Run(View(crc), BitsOf(CHROMA)) && View(end) == Run(View(mid), BitsOf(ExpectedY(line, n)))
    ensures View(end) == Crc16(Payload(line, n + 1))
  {
    hide View, Run, BitsOf, ExpectedY;
    var p := Payload(line, n);
    var p1 := p + [CHROMA];
    var p2 := p1 + [ExpectedY(line, n)];
    assert Payload(line, n + 1) == p2;
    assert p1[..|p|] == p && p2[..|p1|] == p1;
    RunAppend(INIT, Transmitted(p), BitsOf(CHROMA));
    RunAppend(INIT, Transmitted(p1), BitsOf(ExpectedY(line, n)));
  }

  lemma LowSix(v: bv6)
    ensures ((v as bv8) & 0x3F) as bv6 == v
  {
  }

  /** A header as sent carries its own check bits: the receiver sees distance zero. */
  lemma SentHeaderIsClean(di: bv8, wc: bv16)
    ensures var h := HeaderBits(di, LowByte(wc), HighByte(wc));
      DistanceTo(h, ViewCheck((MakeEcc(di, wc) & 0x3F) as bv6), h) == 0
  {
    hide CalcEcc6, CheckNumber, ViewCheck, BitsOf, DistanceTo, Syndrome, LowByte, HighByte;
    var h := HeaderBits(di, LowByte(wc), HighByte(wc));
    LowSix(CheckNumber(CalcEcc6(h)));
    CheckNumberView(CalcEcc6(h));
    CheckWeightAgain(h, CalcEcc6(h));
    OwnSyndrome(h);
  }

  lemma OwnSyndrome(h: seq<bool>)
    requires |h| == 24
    ensures Syndrome(h, CalcEcc6(h)) == NONE
  {
    hide CalcEcc6;
    JoinIsNone(CalcEcc6(h), CalcEcc6(h));
  }

  /** A header as the receiver reads it off the bus: two zero bits above check bits that fit the three bytes
      before them. */
  predicate CleanHeader(sent: seq<bv8>)
    requires |sent| >= 4
  {
    var h := HeaderBits(sent[0], sent[1], sent[2]);
    sent[3] < 64 && DistanceTo(h, ViewCheck((sent[3] & 0x3F) as bv6), h) == 0
  }

  /** The word count the receiver reads, low byte first. */
  function WordCount(sent: seq<bv8>): bv16
    requires |sent| >= 4
  {
    (sent[2] as bv16 << 8) | sent[1] as bv16
  }

  lemma CountBytes(wc: bv16)
    ensures (HighByte(wc) as bv16 << 8) | LowByte(wc) as bv16 == wc
  {
  }

  lemma HeaderReads(di: bv8, wc: bv16, sent: seq<bv8>)
    requires |sent| >= 4 && sent[..4] == [di, LowByte(wc), HighByte(wc), MakeEcc(di, wc)]
    ensures CleanHeader(sent) && sent[0] == di && WordCount(sent) == wc
  {
    hide HeaderBits, DistanceTo, ViewCheck, LowByte, HighByte, CheckNumber, CalcEcc6;
    var four := sent[..4];
    assert sent[0] == four[0] && sent[1] == four[1] && sent[2] == four[2] && sent[3] == four[3];
    SentHeaderIsClean(di, wc);
    CountBytes(wc);
    SixBits(CheckNumber(CalcEcc6(HeaderBits(di, LowByte(wc), HighByte(wc)))));
  }

  lemma SixBits(v: bv6)
    ensures v as bv8 < 64
  {
  }

  lemma LowSixBits(dt: bv8)
    ensures (dt & 0x3F) as int == dt as int % 64
  {
  }

  /** A short packet: identifier and data field, with their check bits. */
  method SendShortPacket(dt: bv8, dataField: bv16) returns (beats: seq<Beat>)
    ensures Bytes(beats) == [dt & 0x3F, LowByte(dataField), HighByte(dataField), MakeEcc(dt & 0x3F, dataField)]
    ensures |beats| == 2 && beats[0].sop && !beats[1].sop && !beats[0].eop && beats[1].eop
    ensures var sent := Bytes(beats);
      CleanHeader(sent) && sent[0] as int == dt as int % 64 && WordCount(sent) == dataField
  {
    hide MakeEcc, LowByte, HighByte, CleanHeader, WordCount;
    var di := dt & 0x3F;
    var ecc := MakeEcc(di, dataField);
    var first := Beat(di, LowByte(dataField), true, false);
    var second := Beat(HighByte(dataField), ecc, false, true);
    beats := [first, second];
    BytesSnoc([], first);
    BytesSnoc([first], second);
    assert [] + [first] == [first] && [first] + [second] == beats;
    assert Bytes(beats)[..4] == Bytes(beats);
    HeaderReads(di, dataField, Bytes(beats));
    LowSixBits(dt);
  }

  const LINE_HEADER: seq<bv8> :=
    [DT_YUV422, LowByte(LINE_BYTES), HighByte(LINE_BYTES), MakeEcc(DT_YUV422, LINE_BYTES)]

  /** A video line: header, payload pairs, and the footer of the payload. */
  method SendYuv422Line(line: nat) returns (beats: seq<Beat>, low: bv8, high: bv8)
    ensures Bytes(beats) == LINE_HEADER + Payload(line, LINE_PIXELS) + [low, high]
    ensures IsFooter(Payload(line, LINE_PIXELS), low, high)
    ensures forall i :: 0 <= i < |beats| ==> (beats[i].sop <==> i == 0) && (beats[i].eop <==> i == |beats| - 1)
    ensures var sent := Bytes(beats); CleanHeader(sent) && sent[0] == 0x1E && sent[1] as int + 256 * sent[2] as int == |sent| - 6
  {
    hide CleanHeader, WordCount, MakeEcc, View, Run, BitsOf, ExpectedY, LowByte, HighByte, Transmitted, Crc16, Bytes, Payload;
    var di := DT_YUV422 & 0x3F;
    var ecc := MakeEcc(di, LINE_BYTES);
    var crc: bv16 := 0xFFFF;
    NoPayload(line);
    for col := 0 to LINE_PIXELS
      invariant View(crc) == Crc16(Payload(line, col))
    {
      var mid := CrcUpdateByte(crc, CHROMA);
      var end := CrcUpdateByte(mid, ExpectedY(line, col));
      PayloadTwo(line, col, crc, mid, end);
      crc := end;
    }
    var first := Beat(di, LowByte(LINE_BYTES), true, false);
    var second := Beat(HighByte(LINE_BYTES), ecc, false, false);
    beats := [first, second];
    TwoBeats(first, second);
    for col := 0 to LINE_PIXELS
      invariant |beats| == col + 2
      invariant Bytes(beats) == LINE_HEADER + Payload(line, col)
      invariant forall i :: 0 <= i < |beats| ==> (beats[i].sop <==> i == 0) && !beats[i].eop
    {
      var b := Beat(CHROMA, ExpectedY(line, col), false, false);
      BytesSnoc(beats, b);
      PayloadSnoc(line, col);
      beats := beats + [b];
    }
    low, high := Footer(crc);
    var last := Beat(low, high, false, true);
    BytesSnoc(beats, last);
    beats := beats + [last];
    LineReads(line, low, high, Bytes(beats));
  }

  lemma LineReads(line: nat, low: bv8, high: bv8, sent: seq<bv8>)
    requires sent == LINE_HEADER + Payload(line, LINE_PIXELS) + [low, high]
    ensures CleanHeader(sent) && sent[0] == 0x1E && sent[1] as int + 256 * sent[2] as int == |sent| - 6
  {
    hide MakeEcc, LowByte, HighByte, CleanHeader, WordCount;
    assert sent[..4] == LINE_HEADER && sent[1] == LINE_HEADER[1] && sent[2] == LINE_HEADER[2];
    HeaderReads(DT_YUV422, LINE_BYTES, sent);
    LineCount();
  }

  lemma LineCount()
    ensures LowByte(LINE_BYTES) == 0 && HighByte(LINE_BYTES) == 5
  {
  }

  /** The payload in numbers: chroma 128 in every even byte, the running gradient modulo 256 in every odd one. */
  lemma {:induction false} PayloadAt(line: nat, n: nat, col: nat)
    requires col < n
    ensures Payload(line, n)[2 * col] == 128 && Payload(line, n)[2 * col + 1] == ((line * 640 + col) % 256) as bv8
  {
    if col < n - 1 {
      hide ExpectedY;
      PayloadAt(line, n - 1, col);
    }
  }

  lemma NoPayload(line: nat)
    ensures Payload(line, 0) == [] && View(0xFFFF) == Crc16([])
  {
  }

  lemma PayloadSnoc(line: nat, n: nat)
    ensures LINE_HEADER + Payload(line, n + 1) == LINE_HEADER + Payload(line, n) + [CHROMA, ExpectedY(line, n)]
  {
    hide MakeEcc, ExpectedY, LowByte, HighByte;
  }

  lemma TwoBeats(first: Beat, second: Beat)
    ensures Bytes([first, second]) == [first.byte0, first.byte1, second.byte0, second.byte1]
  {
    BytesSnoc([], first);
    BytesSnoc([first], second);
    assert [] + [first] == [first] && [first] + [second] == [first, second];
  }

  /** A whole line as sent: behind its four header bytes the receiver's checksum ends at zero. */
  lemma SentLineIsClean(line: nat, beats: seq<Beat>, low: bv8, high: bv8)
    requires Bytes(beats) == LINE_HEADER + Payload(line, LINE_PIXELS) + [low, high]
    requires IsFooter(Payload(line, LINE_PIXELS), low, high)
    ensures Crc16(Bytes(beats)[4..]) == ZERO
    ensures |Bytes(beats)| == 4 + 1280 + 2
  {
    hide MakeEcc, Crc16, IsFooter, Bytes, LowByte, HighByte;
    FooterLeavesNothing(Payload(line, LINE_PIXELS), low, high);
    assert Bytes(beats)[4..] == Payload(line, LINE_PIXELS) + [low, high];
  }
}
