/** The PPM writer and reader: numbers as text, Python's slices, and what comes back of what was written. */
module PpmFile {
  import opened Options
  import opened Pixels
  import opened PpmHeader

  // ---- numbers ---------------------------------------------------------------------------

  /** The decimal digits of a number, as `%d` prints it. */
  function Digits(n: nat): (s: Bytes)
    ensures |s| > 0 && forall i :: 0 <= i < |s| ==> IsDigit(s[i])
  {
    if n < 10 then [48 + n] else Digits(n / 10) + [48 + n % 10]
  }

  function Decimal(n: int): (s: Bytes)
    ensures |s| > 0 && IsDigit(s[|s| - 1]) && forall i :: 0 <= i < |s| ==> IsDigit(s[i]) || s[i] == MINUS
  {
    if n < 0 then [MINUS] + Digits(-n) else Digits(n)
  }

  predicate IsDigit(b: Byte) { 48 <= b <= 57 }

  const MINUS: Byte := 45
  const PLUS: Byte := 43
  const UNDERSCORE: Byte := 95

  /** Digits with single underscores between them. */
  function ParseDigits(s: Bytes): Option<int> {
    if s == [] || !IsDigit(s[|s| - 1]) then None
    else
      var d := s[|s| - 1] - 48;
      if |s| == 1 then Some(d)
      else
        var front := if s[|s| - 2] == UNDERSCORE then s[..|s| - 2] else s[..|s| - 1];
        match ParseDigits(front)
        case None => None
        case Some(v) => Some(10 * v + d)
  }

  predicate IsPySpace(b: Byte) { b == 32 || 9 <= b <= 13 }

  function StripLeft(s: Bytes): Bytes {
    if s != [] && IsPySpace(s[0]) then StripLeft(s[1..]) else s
  }

  function StripRight(s: Bytes): Bytes {
    if s != [] && IsPySpace(s[|s| - 1]) then StripRight(s[..|s| - 1]) else s
  }

  /** Python's `int` of a byte string: surrounding whitespace, one sign, digits. */
  function PyInt(text: Bytes): Option<int> {
    var s := StripRight(StripLeft(text));
    if s != [] && s[0] == MINUS then
      match ParseDigits(s[1..])
      case None => None
      case Some(v) => Some(-v)
    else
      match ParseDigits(if s != [] && s[0] == PLUS then s[1..] else s)
      case None => None
      case Some(v) => Some(v)
  }

  lemma {:induction false} ParseOfDigits(n: nat)
    ensures ParseDigits(Digits(n)) == Some(n)
  {
    if n >= 10 {
      var s := Digits(n);
      ParseOfDigits(n / 10);
      assert s[..|s| - 1] == Digits(n / 10);
      assert IsDigit(s[|s| - 2]);
    }
  }

  /** Printing a number and reading it back. */
  lemma DecimalRoundTrip(n: int)
    ensures PyInt(Decimal(n)) == Some(n)
  {
    var s := Decimal(n);
    assert IsDigit(s[0]) || s[0] == MINUS;
    assert StripRight(StripLeft(s)) == s;
    if n < 0 {
      assert s[1..] == Digits(-n);
      ParseOfDigits(-n);
    } else {
      ParseOfDigits(n);
      assert IsDigit(s[0]);
    }
  }

  // ---- the file --------------------------------------------------------------------------

  datatype Image = Image(pixels: seq<int>, width: int, height: int)

  /** Python's `s[lo:hi]`: a negative bound counts from the end, both are cut to the length. */
  function Slice<T>(s: seq<T>, lo: nat, hi: int): seq<T> {
    var top := if hi >= |s| then |s| else if hi >= 0 then hi else if |s| + hi >= 0 then |s| + hi else 0;
    if lo <= top then s[lo..top] else []
  }

  const P6: Bytes := [80, 54]
  const P5: Bytes := [80, 53]

  function Times3(n: int): int { n + n + n }

  function ColourAt(raster: Bytes, k: nat): int
    requires 3 * k + 2 < |raster|
  {
    Rgb(raster[3 * k], raster[3 * k + 1], raster[3 * k + 2])
  }

  function Gray(v: Byte): int { Rgb(v, v, v) }

  function Colours(raster: Bytes, n: int): (pixels: seq<int>)
    requires Times3(n) <= |raster|
    ensures |pixels| == if n >= 0 then n else 0
  {
    seq(if n >= 0 then n else 0, k requires 0 <= k < n => ColourAt(raster, k))
  }

  function Grays(raster: Bytes): (pixels: seq<int>)
    ensures |pixels| == |raster|
  {
    seq(|raster|, k requires 0 <= k < |raster| => Gray(raster[k]))
  }

  /** The raster of a file whose header gave the magic number and a pixel count. */
  function Raster(data: Bytes, off: nat, magic: Bytes, n: int): Result<seq<int>> {
    if magic == P6 then
      var raster := Slice(data, off, off + Times3(n));
      if |raster| < Times3(n) then Err(RasterTruncated)
      else Ok(Colours(raster, n))
    else
      var raster := Slice(data, off, off + n);
      if |raster| < n then Err(RasterTruncated)
      else Ok(Grays(raster))
  }

  function Decode(data: Bytes, tokens: seq<Bytes>, off: nat): Result<Image>
    requires |tokens| == 4
  {
    var w, h, maxval := PyInt(tokens[1]), PyInt(tokens[2]), PyInt(tokens[3]);
    if w.None? || h.None? || maxval.None? then Err(BadNumber)
    else if tokens[0] != P6 && tokens[0] != P5 then Err(BadMagic)
    else if maxval.value != 255 then Err(BadMaxval)
    else
      match Raster(data, off, tokens[0], w.value * h.value)
      case Err(e) => Err(e)
      case Ok(pixels) => Ok(Image(pixels, w.value, h.value))
  }

  function Read(data: Bytes): Result<Image> {
    match Scan(data, 4)
    case Err(e) => Err(e)
    case Ok(h) => ScanShape(data, 4); Decode(data, h.tokens, h.next + 1)
  }

  /** The reader. */
  method ReadPpm(data: Bytes) returns (r: Result<Image>)
    ensures r == Read(data)
  {
    hide Scan, Decode;
    var header := ReadPpmTokens(data, 4);
    if header.Err? {
      return Err(header.error);
    }
    ScanShape(data, 4);
    r := Decode(data, header.value.tokens, header.value.next);
  }

  /** The raster bytes of pixels, red first. */
  function Raw(pixels: seq<int>): (s: Bytes)
    ensures |s| == 3 * |pixels|
  {
    if pixels == [] then []
    else
      var p := pixels[|pixels| - 1];
      Raw(pixels[..|pixels| - 1]) + [Ch(p, 2), Ch(p, 1), Ch(p, 0)]
  }

  const SPACE: Byte := 32
  const NEWLINE: Byte := 10
  const MAXVAL: Bytes := [50, 53, 53]

  /** Four words as the writer lays a header out. */
  function HeaderOf(magic: Bytes, w: Bytes, h: Bytes, maxval: Bytes): Bytes {
    magic + [NEWLINE] + w + [SPACE] + h + [NEWLINE] + maxval + [NEWLINE]
  }

  function HeaderText(magic: Bytes, w: int, h: int): Bytes {
    HeaderOf(magic, Decimal(w), Decimal(h), MAXVAL)
  }

  function Written(pixels: seq<int>, w: int, h: int): Bytes {
    HeaderText(P6, w, h) + Raw(Slice(pixels, 0, w * h))
  }

  /** The writer. */
  method WritePpm(pixels: seq<int>, w: int, h: int) returns (data: Bytes)
    ensures data == Written(pixels, w, h)
  {
    hide Ch;
    var chosen := Slice(pixels, 0, w * h);
    var raw: Bytes := [];
    for i := 0 to |chosen|
      invariant raw == Raw(chosen[..i])
    {
      var p := chosen[i];
      assert chosen[..i + 1][..i] == chosen[..i];
      raw := raw + [Ch(p, 2), Ch(p, 1), Ch(p, 0)];
    }
    assert chosen[..|chosen|] == chosen;
    data := HeaderText(P6, w, h) + raw;
  }

  // ---- reading what was written ------------------------------------------------------------

  predicate IsWord(t: Bytes) { t != [] && t[0] != HASH && forall i :: 0 <= i < |t| ==> !IsSpace(t[i]) }

  lemma WordScan(t: Bytes, rest: Bytes, count: int)
    requires IsWord(t) && rest != [] && IsSpace(rest[0]) && count > 0
    ensures Scan(t + rest, count) == After([t], |t|, Scan(rest, count - 1))
  {
    hide After, Scan, WordLength;
    WordLengthIs(t + rest, |t|);
    ScanWord(t + rest, count);
    assert (t + rest)[|t|..] == rest && (t + rest)[..|t|] == t;
  }

  /** A word and the whitespace after it. */
  lemma WordAndSpace(t: Bytes, sep: Byte, rest: Bytes, count: int)
    requires IsWord(t) && IsSpace(sep) && count > 1
    ensures Scan(t + ([sep] + rest), count) == After([t], |t| + 1, Scan(rest, count - 1))
  {
    hide After, Scan;
    WordScan(t, [sep] + rest, count);
    ScanSpace([sep] + rest, count - 1);
    assert ([sep] + rest)[1..] == rest;
    AfterAfter([t], |t|, [], 1, Scan(rest, count - 1));
    assert [t] + [] == [t];
  }

  lemma DecimalIsWord(n: int)
    ensures IsWord(Decimal(n))
  {
  }

  lemma HeaderNested(magic: Bytes, w: Bytes, h: Bytes, maxval: Bytes, raw: Bytes)
    ensures HeaderOf(magic, w, h, maxval) + raw ==
            magic + ([NEWLINE] + (w + ([SPACE] + (h + ([NEWLINE] + (maxval + ([NEWLINE] + raw)))))))
  {
  }

  /** Any four words laid out so are read as those words, whatever follows. */
  lemma WordsScan(magic: Bytes, w: Bytes, h: Bytes, maxval: Bytes, raw: Bytes)
    requires IsWord(magic) && IsWord(w) && IsWord(h) && IsWord(maxval)
    ensures Scan(HeaderOf(magic, w, h, maxval) + raw, 4) ==
            Ok(Header([magic, w, h, maxval], |HeaderOf(magic, w, h, maxval)| - 1))
  {
    hide After, Scan, HeaderOf, IsWord;
    var d := [NEWLINE] + raw;
    var c := maxval + d;
    var b := h + ([NEWLINE] + c);
    var a := w + ([SPACE] + b);
    HeaderNested(magic, w, h, maxval, raw);
    WordAndSpace(magic, NEWLINE, a, 4);
    WordAndSpace(w, SPACE, b, 3);
    WordAndSpace(h, NEWLINE, c, 2);
    WordScan(maxval, d, 1);
    ScanEnd(d, 0);
    AfterFour(magic, w, h, maxval, |magic| + 1, |w| + 1, |h| + 1, |maxval|);
    HeaderLength(magic, w, h, maxval);
  }

  lemma HeaderLength(magic: Bytes, w: Bytes, h: Bytes, maxval: Bytes)
    ensures |HeaderOf(magic, w, h, maxval)| == (|magic| + 1) + (|w| + 1) + (|h| + 1) + |maxval| + 1
  {
  }

  lemma HeaderScan(magic: Bytes, w: int, h: int, raw: Bytes)
    requires magic == P6 || magic == P5
    ensures Scan(HeaderText(magic, w, h) + raw, 4) ==
            Ok(Header([magic, Decimal(w), Decimal(h), MAXVAL], |HeaderText(magic, w, h)| - 1))
  {
    hide Scan, Decimal, HeaderOf;
    DecimalIsWord(w);
    DecimalIsWord(h);
    WordsScan(magic, Decimal(w), Decimal(h), MAXVAL, raw);
  }

  lemma AfterFour(t1: Bytes, t2: Bytes, t3: Bytes, t4: Bytes, n1: nat, n2: nat, n3: nat, n4: nat)
    ensures After([t1], n1, After([t2], n2, After([t3], n3, After([t4], n4, Ok(Header([], 0)))))) ==
            Ok(Header([t1, t2, t3, t4], n1 + n2 + n3 + n4))
  {
    assert [t1] + ([t2] + ([t3] + ([t4] + []))) == [t1, t2, t3, t4];
  }

  lemma {:induction false} RawAt(pixels: seq<int>, k: nat)
    requires k < |pixels|
    ensures var s, p := Raw(pixels), pixels[k];
      s[3 * k] == Ch(p, 2) && s[3 * k + 1] == Ch(p, 1) && s[3 * k + 2] == Ch(p, 0)
  {
    hide Ch;
    if k < |pixels| - 1 {
      RawAt(pixels[..|pixels| - 1], k);
    }
  }

  /** The 24 bits of every pixel. */
  function Masked(pixels: seq<int>): (r: seq<int>)
    ensures |r| == |pixels|
  {
    seq(|pixels|, k requires 0 <= k < |pixels| => pixels[k] % 0x100_0000)
  }

  lemma RasterOfRaw(pixels: seq<int>, raster: Bytes, k: nat)
    requires k < |pixels| && raster == Raw(pixels)
    ensures ColourAt(raster, k) == pixels[k] % 0x100_0000
  {
    hide Ch, Raw;
    RawAt(pixels, k);
    LanesRebuild(pixels[k]);
  }

  lemma ColoursOfRaw(pixels: seq<int>)
    ensures Colours(Raw(pixels), |pixels|) == Masked(pixels)
  {
    hide Raw, ColourAt;
    forall k | 0 <= k < |pixels|
      ensures ColourAt(Raw(pixels), k) == Masked(pixels)[k]
    {
      RasterOfRaw(pixels, Raw(pixels), k);
    }
  }

  lemma SliceAfterHead(head: Bytes, raw: Bytes, n: nat)
    ensures Slice(head + raw, |head|, |head| + n) == if n <= |raw| then raw[..n] else raw
  {
  }

  lemma WrittenRaster(head: Bytes, pixels: seq<int>, n: int)
    ensures Raster(head + Raw(Slice(pixels, 0, n)), |head|, P6, n) ==
            if n < 0 then Ok([])
            else if |pixels| < n then Err(RasterTruncated)
            else Ok(Masked(pixels[..n]))
  {
    hide Raw, Colours;
    var raw := Raw(Slice(pixels, 0, n));
    if n >= 0 {
      SliceAfterHead(head, raw, Times3(n));
      if n <= |pixels| {
        assert Slice(pixels, 0, n) == pixels[..n];
        assert raw[..Times3(n)] == raw;
        ColoursOfRaw(pixels[..n]);
      }
    }
  }

  /** Reading back what was written, for all sizes and pixel lists: the first w * h pixels, 24 bits each;
      a list too short for the size is refused, a negative pixel count reads as no pixels. */
  lemma RoundTrip(pixels: seq<int>, w: int, h: int)
    ensures Read(Written(pixels, w, h)) ==
            if w * h < 0 then Ok(Image([], w, h))
            else if |pixels| < w * h then Err(RasterTruncated)
            else Ok(Image(Masked(pixels[..w * h]), w, h))
  {
    hide Scan, PyInt, Raster, Decimal, HeaderText, Slice, Raw;
    var head := HeaderText(P6, w, h);
    var n := w * h;
    HeaderScan(P6, w, h, Raw(Slice(pixels, 0, n)));
    DecimalRoundTrip(w);
    DecimalRoundTrip(h);
    MaxvalParses();
    WrittenRaster(head, pixels, n);
  }

  /** How many bytes a gray raster has: a negative pixel count makes the end of its slice count from the end
      of the file, once it lies before the start. */
  function GraySpan(off: nat, size: nat, n: int): (count: nat)
    ensures n < 0 && count > 0 ==> count == size + n < size - off
  {
    if n >= 0 then n else if off + n >= 0 || size + n <= 0 then 0 else size + n
  }

  /** A gray file is read as three equal lanes per byte, for every size; too short a raster is refused, what
      follows it is ignored, and a negative pixel count still reads the bytes its slice reaches. */
  lemma GrayFiles(raw: Bytes, w: int, h: int)
    ensures var head := HeaderText(P5, w, h);
      Read(head + raw) ==
      if |raw| < w * h then Err(RasterTruncated)
      else Ok(Image(Grays(raw[..GraySpan(|head|, |head| + |raw|, w * h)]), w, h))
    ensures forall k: nat, sel: nat :: k < |raw| && sel < 3 ==> Ch(Grays(raw)[k], sel) == raw[k]
  {
    hide Scan, PyInt, Raster, Decimal, HeaderText, Grays, GraySpan;
    HeaderScan(P5, w, h, raw);
    DecimalRoundTrip(w);
    DecimalRoundTrip(h);
    MaxvalParses();
    GrayRaster(HeaderText(P5, w, h), raw, w * h);
    forall k: nat, sel: nat | k < |raw| && sel < 3
      ensures Ch(Grays(raw)[k], sel) == raw[k]
    {
      GrayLanes(raw, k, sel);
    }
  }

  lemma GrayRaster(head: Bytes, raw: Bytes, n: int)
    requires head != []
    ensures Raster(head + raw, |head|, P5, n) ==
            if |raw| < n then Err(RasterTruncated) else Ok(Grays(raw[..GraySpan(|head|, |head| + |raw|, n)]))
  {
    hide Grays;
    if n >= 0 {
      SliceAfterHead(head, raw, n);
    } else {
      NegativeSlice(head + raw, |head|, n);
      var m := GraySpan(|head|, |head| + |raw|, n);
      assert (head + raw)[|head|..][..m] == raw[..m];
    }
  }

  /** The slice of a negative count. */
  lemma NegativeSlice(data: Bytes, off: nat, n: int)
    requires off > 0 && n < 0
    ensures var m := GraySpan(off, |data|, n);
      (m > 0 ==> off + m <= |data|) && Slice(data, off, off + n) == if m == 0 then [] else data[off..][..m]
  {
  }

  lemma GrayLanes(raster: Bytes, k: nat, sel: nat)
    requires k < |raster| && sel < 3
    ensures Ch(Grays(raster)[k], sel) == raster[k]
  {
    hide Ch;
    RgbLanes(raster[k], raster[k], raster[k]);
  }

  lemma MaxvalParses()
    ensures PyInt(MAXVAL) == Some(255)
  {
    assert MAXVAL == Decimal(255) by {
      assert Digits(2) == [50];
      assert Digits(25) == Digits(2) + [53];
      assert Digits(255) == Digits(25) + [53];
    }
    DecimalRoundTrip(255);
  }

  // ---- headers of any words -------------------------------------------------------------------

  /** The bytes of a text. */
  function Ascii(text: string): (s: Bytes)
    requires forall i :: 0 <= i < |text| ==> text[i] as int < 128
    ensures |s| == |text| && forall i :: 0 <= i < |s| ==> s[i] == text[i] as int
  {
    seq(|text|, i requires 0 <= i < |text| => text[i] as int)
  }

  /** What the writer puts before the raster, as text. */
  lemma HeaderIsText(w: int, h: int)
    ensures HeaderText(P6, w, h) == Ascii("P6\n") + Decimal(w) + Ascii(" ") + Decimal(h) + Ascii("\n255\n")
  {
    hide Decimal;
    assert Ascii("P6\n") == P6 + [NEWLINE] && Ascii(" ") == [SPACE] && Ascii("\n255\n") == [NEWLINE] + MAXVAL + [NEWLINE];
  }

  /** Printed numbers have no leading zero, so each has one spelling only. */
  lemma {:induction false} NoLeadingZero(n: nat)
    requires n > 0
    ensures Digits(n)[0] != 48
  {
    if n >= 10 {
      NoLeadingZero(n / 10);
      assert Digits(n)[0] == Digits(n / 10)[0];
    }
  }

  /** Every file that starts with four words in the writer's layout: which ones are refused, in which order of
      complaints, and where the raster of the others begins. */
  lemma HeaderVerdict(magic: Bytes, w: Bytes, h: Bytes, maxval: Bytes, raw: Bytes)
    requires IsWord(magic) && IsWord(w) && IsWord(h) && IsWord(maxval)
    ensures var head := HeaderOf(magic, w, h, maxval);
      var nw, nh, nm := PyInt(w), PyInt(h), PyInt(maxval);
      var r := Read(head + raw);
      if nw.None? || nh.None? || nm.None? then r == Err(BadNumber)
      else if magic != Ascii("P6") && magic != Ascii("P5") then r == Err(BadMagic)
      else if nm != Some(255) then r == Err(BadMaxval)
      else r == match Raster(head + raw, |head|, magic, nw.value * nh.value)
                case Err(e) => Err(e)
                case Ok(pixels) => Ok(Image(pixels, nw.value, nh.value))
  {
    hide Scan, PyInt, Raster, IsWord, HeaderOf;
    WordsScan(magic, w, h, maxval, raw);
    assert Ascii("P6") == P6 && Ascii("P5") == P5;
  }

  /** n pixels in three bytes each, red first. */
  predicate IsColour(pixels: seq<int>, raw: Bytes, n: int)
    requires 3 * n <= |raw|
  {
    |pixels| == (if n < 0 then 0 else n) &&
    forall k :: 0 <= k < n ==> IsTriple(pixels[k], raw[3 * k], raw[3 * k + 1], raw[3 * k + 2])
  }

  predicate IsTriple(pixel: int, red: int, green: int, blue: int) {
    pixel == 65536 * red + 256 * green + blue
  }

  /** A colour file of any size: three bytes a pixel, red first; too short a raster is refused, what follows it
      is ignored, a negative count has no pixels. */
  lemma ColourFiles(raw: Bytes, w: int, h: int)
    ensures match Read(HeaderText(P6, w, h) + raw)
      case Err(e) => |raw| < 3 * (w * h) && e == RasterTruncated
      case Ok(image) => 3 * (w * h) <= |raw| && image.width == w && image.height == h && IsColour(image.pixels, raw, w * h)
  {
    hide Scan, PyInt, Raster, Decimal, HeaderText, IsColour;
    HeaderScan(P6, w, h, raw);
    DecimalRoundTrip(w);
    DecimalRoundTrip(h);
    MaxvalParses();
    ColourRaster(HeaderText(P6, w, h), raw, w * h);
  }

  lemma ColourRaster(head: Bytes, raw: Bytes, n: int)
    ensures match Raster(head + raw, |head|, P6, n)
      case Err(e) => |raw| < 3 * n && e == RasterTruncated
      case Ok(pixels) => 3 * n <= |raw| && IsColour(pixels, raw, n)
  {
    if n >= 0 {
      SliceAfterHead(head, raw, 3 * n);
    }
  }

  // ---- comments in files ----------------------------------------------------------------------

  lemma SliceMoves(a: Bytes, b: Bytes, off: nat, m: nat, n: nat)
    requires |b| == |a| + m
    requires forall i :: off <= i < |a| ==> b[i + m] == a[i]
    ensures Slice(b, off + m, off + m + n) == Slice(a, off, off + n)
  {
  }

  lemma RasterMoves(a: Bytes, b: Bytes, off: nat, m: nat, magic: Bytes, n: int)
    requires |b| == |a| + m && (magic == P6 || n >= 0)
    requires forall i :: off <= i < |a| ==> b[i + m] == a[i]
    ensures Raster(b, off + m, magic, n) == Raster(a, off, magic, n)
  {
    hide Slice, Grays;
    if n >= 0 {
      SliceMoves(a, b, off, m, Times3(n));
      SliceMoves(a, b, off, m, n);
    }
  }

  /** With a negative count, a gray raster that moves keeps its pixels exactly when it has none before and after. */
  lemma NegativeRasterMoves(a: Bytes, b: Bytes, off: nat, m: nat, magic: Bytes, n: int)
    requires off > 0 && m > 0 && |b| == |a| + m && magic != P6 && n < 0
    ensures Raster(b, off + m, magic, n) == Raster(a, off, magic, n) <==>
            GraySpan(off, |a|, n) == 0 && GraySpan(off + m, |a| + m, n) == 0
  {
    hide Slice, GraySpan;
    NegativeSlice(a, off, n);
    NegativeSlice(b, off + m, n);
    var x, y := Raster(a, off, magic, n), Raster(b, off + m, magic, n);
    assert |x.value| == GraySpan(off, |a|, n) && |y.value| == GraySpan(off + m, |a| + m, n);
    if |x.value| == 0 == |y.value| {
      assert x.value == y.value;
    }
  }

  /** A gray header with a negative pixel count whose slice has bytes, in this file or in one m bytes longer. */
  predicate TailCounts(data: Bytes, m: nat) {
    match Scan(data, 4)
    case Err(_) => false
    case Ok(header) =>
      ScanShape(data, 4);
      var t, off := header.tokens, header.next + 1;
      var w, h := PyInt(t[1]), PyInt(t[2]);
      && t[0] == P5 && w.Some? && h.Some? && PyInt(t[3]) == Some(255) && w.value * h.value < 0
      && (GraySpan(off, |data|, w.value * h.value) > 0 || GraySpan(off + m, |data| + m, w.value * h.value) > 0)
  }

  /** A comment line inserted anywhere in the header that the tokeniser pauses leaves the picture as it was,
      exactly unless a negative gray count makes the raster end count from the end of the file. */
  lemma CommentsInFiles(s: Bytes, comment: Bytes, rest: Bytes)
    requires Pauses(s, 4) && IsCommentLine(comment)
    ensures Read(s + comment + rest) == Read(s + rest) <==> !TailCounts(s + rest, |comment|)
  {
    hide Scan, PyInt, Raster, Pauses, TokensBefore, After, GraySpan;
    CommentAtPause(s, comment, rest, 4);
    PauseSplits(s, rest, 4);
    if Scan(s + rest, 4).Ok? {
      ScanShape(s + rest, 4);
      var h := Scan(s + rest, 4).value;
      AfterParts(TokensBefore(s, 4), |s|, Scan(rest, 4 - |TokensBefore(s, 4)|));
      var w, ht := PyInt(h.tokens[1]), PyInt(h.tokens[2]);
      if w.Some? && ht.Some? {
        var a, b := s + rest, s + comment + rest;
        assert forall i :: h.next + 1 <= i < |a| ==> b[i + |comment|] == a[i];
        if h.tokens[0] == P6 || w.value * ht.value >= 0 {
          RasterMoves(a, b, h.next + 1, |comment|, h.tokens[0], w.value * ht.value);
        } else {
          NegativeRasterMoves(a, b, h.next + 1, |comment|, h.tokens[0], w.value * ht.value);
        }
      }
    }
  }

  /** What follows the magic line of a header. */
  function AfterMagic(w: int, h: int, raw: Bytes): Bytes {
    Decimal(w) + [SPACE] + Decimal(h) + [NEWLINE] + MAXVAL + [NEWLINE] + raw
  }

  lemma MagicLinePauses()
    ensures Pauses(P5 + [NEWLINE], 4)
  {
    var s := P5 + [NEWLINE];
    WordLengthIs(s, 2);
    assert s[2..] == [NEWLINE] && [NEWLINE][1..] == [];
  }

  /** Such files: any size with a gray count so negative that it ends within the file's tail reads
      differently with a comment after the magic number. */
  lemma CommentChangesTail(comment: Bytes, raw: Bytes, w: int, h: int)
    requires IsCommentLine(comment)
    requires var head := |HeaderText(P5, w, h)|; head + w * h < 0 < head + |raw| + w * h
    ensures HeaderText(P5, w, h) + raw == P5 + [NEWLINE] + AfterMagic(w, h, raw)
    ensures Read(P5 + [NEWLINE] + comment + AfterMagic(w, h, raw)) != Read(HeaderText(P5, w, h) + raw)
  {
    hide Scan, PyInt, Decimal, Pauses, Read, IsCommentLine;
    var rest := AfterMagic(w, h, raw);
    assert HeaderText(P5, w, h) + raw == P5 + [NEWLINE] + rest;
    HeaderScan(P5, w, h, raw);
    DecimalRoundTrip(w);
    DecimalRoundTrip(h);
    MaxvalParses();
    MagicLinePauses();
    CommentsInFiles(P5 + [NEWLINE], comment, rest);
  }
}
