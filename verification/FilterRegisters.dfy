/** The reserved 0xFE register page of the processing chain: how the driver's helpers fill it, and the picture
    the fabric makes of a pixel stream under it. */
module FilterRegisters {
  import opened Pixels
  import opened Convolution
  import opened Rectifier
  import opened Separable
  import opened Dog
  import opened Prefilter
  import opened Dither

  /** The registers 0xFE00 .. 0xFEFF, one byte each. */
  type Page = p: seq<int> | |p| == 256 witness seq(256, i => 0)

  /** The page and the 4-bit processing select. */
  datatype Board = Board(fe: Page, op: int)

  predicate InBank(i: int, base: int, n: int) { base <= i < base + n }

  /** Consecutive registers from `base` on, each loaded with the low byte of its value. */
  function Load(fe: Page, base: nat, vals: seq<int>): Page
    requires base + |vals| <= 256
  {
    seq(256, i requires 0 <= i < 256 => if InBank(i, base, |vals|) then vals[i - base] % 256 else fe[i])
  }

  lemma LoadAt(fe: Page, base: nat, vals: seq<int>, i: nat)
    requires base + |vals| <= 256 && i < 256
    ensures Load(fe, base, vals)[i] == if InBank(i, base, |vals|) then vals[i - base] % 256 else fe[i]
  {
  }

  lemma LoadNothing(fe: Page, base: nat)
    requires base <= 256
    ensures Load(fe, base, []) == fe
  {
  }

  lemma LoadNext(fe: Page, base: nat, vals: seq<int>, n: nat)
    requires base + |vals| <= 256 && n < |vals|
    ensures Load(fe, base, vals[..n + 1]) == Load(fe, base, vals[..n])[base + n := vals[n] % 256]
  {
  }

  /** `list(c)[:n]` padded with zeros to n entries. */
  function Fit(c: seq<int>, n: nat): (r: seq<int>)
    ensures |r| == n
  {
    seq(n, i requires 0 <= i < n => if i < |c| then c[i] else 0)
  }

  // ---- the loaders --------------------------------------------------------------------------

  function ConvLoaded(fe: Page, coeffs: seq<int>, shift: int): Page {
    Load(Load(fe, 0, Fit(coeffs, 9)), 9, [shift % 16])
  }

  function Conv5Loaded(fe: Page, coeffs: seq<int>, shift: int): Page {
    Load(Load(fe, 0x20, Fit(coeffs, 25)), 0x39, [shift % 16])
  }

  function DogLoaded(fe: Page, mode: int, alpha: int, beta: int, shift: int, offset: int): Page {
    Load(fe, 0x40, [mode % 4, alpha, beta, shift % 16, offset])
  }

  function SepBase(stage: int): nat { if stage == 2 then 0x50 else 0x60 }

  function SepLoaded(fe: Page, stage: int, h: seq<int>, v: seq<int>, hshift: int, vshift: int): Page {
    Load(fe, SepBase(stage), Fit(h, 5) + [hshift % 16] + Fit(v, 5) + [vshift % 16])
  }

  // ---- the fabric -----------------------------------------------------------------------------

  function Bank(fe: Page, base: nat, n: nat): (c: seq<int>)
    requires base + n <= 256
    ensures |c| == n
  {
    seq(n, i requires 0 <= i < n => Signed(fe[base + i] % 256))
  }

  /** What a bank of n registers reads back from a coefficient list: n signed bytes. */
  function Taps(c: seq<int>, n: nat): (t: seq<int>)
    ensures |t| == n
  {
    seq(n, i requires 0 <= i < n => Signed((if i < |c| then c[i] else 0) % 256))
  }

  /** Pre-filter: its own select in convolution mode, the processing select otherwise. */
  function PreStage(b: Board, s: seq<int>, width: int): (out: seq<int>)
    ensures |out| == |s|
  {
    PrefilterStream(s, width, if b.op >= 8 then b.fe[0x46] % 16 else b.op, b.fe[0x47])
  }

  /** The 3x3 branch. */
  function BranchA(b: Board, pre: seq<int>, width: int): (out: seq<int>)
    ensures |out| == |pre|
  {
    ConvStream(pre, width, Bank(b.fe, 0, 9), b.fe[9] % 16, b.fe[0x45] % 2 == 1, b.op >= 8, 3)
  }

  /** The general 5x5 branch, which is also the first cascade stage. */
  function BranchB(b: Board, pre: seq<int>, width: int): (out: seq<int>)
    ensures |out| == |pre|
  {
    ConvStream(pre, width, Bank(b.fe, 0x20, 25), b.fe[0x39] % 16, b.fe[0x45] / 2 % 2 == 1, b.op >= 12, 5)
  }

  /** A separable cascade stage. */
  function SepStage(fe: Page, base: nat, s: seq<int>, width: int): (out: seq<int>)
    requires base + 12 <= 256
    ensures |out| == |s|
  {
    SepStream(s, width, Bank(fe, base, 5), Bank(fe, base + 6, 5), fe[base + 5] % 16, fe[base + 11] % 16)
  }

  /** The stream the final mux selects. */
  function Selected(b: Board, pre: seq<int>, width: int): (out: seq<int>)
    ensures |out| == |pre|
  {
    if b.op == 12 then
      DogStream(BranchA(b, pre, width), BranchB(b, pre, width), b.fe[0x40] % 4, b.fe[0x41], b.fe[0x42],
                b.fe[0x43] % 16, b.fe[0x44])
    else if b.op == 13 then BranchB(b, pre, width)
    else if b.op == 14 then SepStage(b.fe, 0x50, BranchB(b, pre, width), width)
    else if b.op == 15 then SepStage(b.fe, 0x60, SepStage(b.fe, 0x50, BranchB(b, pre, width), width), width)
    else BranchA(b, pre, width)
  }

  /** What reaches the capture bridge: pre-filter, convolutions, mux, post operation, dither. */
  function Shown(b: Board, s: seq<int>, width: nat, height: nat): (out: seq<int>)
    requires width >= 1 && height >= 1
    ensures |out| == |s|
  {
    var post := ProcSlot(Selected(b, PreStage(b, s, width), width), b.fe[0x48] % 8, b.fe[0x49]);
    DitherStream(post, width, height, b.fe[0x4A] % 256)
  }

  /** Register i can influence the picture under select op; 0xFE45 besides, by the two rectifiers. */
  predicate Reads(op: int, i: int) {
    || 0x47 <= i <= 0x4A
    || (i == 0x46 && op >= 8)
    || (InBank(i, 0, 10) && 8 <= op <= 12)
    || (InBank(i, 0x20, 26) && op >= 12)
    || (InBank(i, 0x40, 5) && op == 12)
    || (InBank(i, 0x50, 12) && op >= 14)
    || (InBank(i, 0x60, 12) && op == 15)
  }

  ghost predicate SameRegisters(op: int, f: Page, g: Page) {
    forall i :: 0 <= i < 256 && Reads(op, i) ==> f[i] == g[i]
  }

  /** The coefficient and combiner banks among them. */
  ghost predicate SameBanks(op: int, f: Page, g: Page) {
    forall i :: 0 <= i < 256 && Reads(op, i) && !InBank(i, 0x46, 5) ==> f[i] == g[i]
  }

  /** Each rectifier in use is set alike on both boards, or its kernel has no negative tap to rectify. */
  predicate RectifiesAlike(b: Board, c: Board) {
    && (8 <= b.op <= 12 ==> b.fe[0x45] % 2 == c.fe[0x45] % 2 || NonNegative(Bank(b.fe, 0, 9)))
    && (b.op >= 12 ==> b.fe[0x45] / 2 % 2 == c.fe[0x45] / 2 % 2 || NonNegative(Bank(b.fe, 0x20, 25)))
  }

  lemma SameBank(f: Page, g: Page, base: nat, n: nat)
    requires base + n <= 256 && forall i :: InBank(i, base, n) ==> f[i] == g[i]
    ensures Bank(f, base, n) == Bank(g, base, n)
  {
    forall i | 0 <= i < n
      ensures Bank(f, base, n)[i] == Bank(g, base, n)[i]
    {
      assert InBank(base + i, base, n);
    }
  }

  lemma SameBranchA(b: Board, c: Board, pre: seq<int>, width: int)
    requires 8 <= b.op <= 12 && b.op == c.op && SameBanks(b.op, b.fe, c.fe) && RectifiesAlike(b, c)
    ensures BranchA(b, pre, width) == BranchA(c, pre, width)
  {
    hide ConvStream, Bank, NonNegative;
    assert Reads(b.op, 9);
    forall i | InBank(i, 0, 9) ensures b.fe[i] == c.fe[i] { assert Reads(b.op, i); }
    SameBank(b.fe, c.fe, 0, 9);
    var k, shift := Bank(b.fe, 0, 9), b.fe[9] % 16;
    if NonNegative(k) {
      RectifierIdle(pre, width, k, shift, b.fe[0x45] % 2 == 1, 3);
      RectifierIdle(pre, width, k, shift, c.fe[0x45] % 2 == 1, 3);
    }
  }

  lemma SameBranchB(b: Board, c: Board, pre: seq<int>, width: int)
    requires 12 <= b.op && b.op == c.op && SameBanks(b.op, b.fe, c.fe) && RectifiesAlike(b, c)
    ensures BranchB(b, pre, width) == BranchB(c, pre, width)
  {
    hide ConvStream, Bank, NonNegative;
    assert Reads(b.op, 0x39);
    forall i | InBank(i, 0x20, 25) ensures b.fe[i] == c.fe[i] { assert Reads(b.op, i); }
    SameBank(b.fe, c.fe, 0x20, 25);
    var k, shift := Bank(b.fe, 0x20, 25), b.fe[0x39] % 16;
    if NonNegative(k) {
      RectifierIdle(pre, width, k, shift, b.fe[0x45] / 2 % 2 == 1, 5);
      RectifierIdle(pre, width, k, shift, c.fe[0x45] / 2 % 2 == 1, 5);
    }
  }

  lemma SameSepStage(f: Page, g: Page, base: nat, s: seq<int>, width: int)
    requires base + 12 <= 256 && forall i :: InBank(i, base, 12) ==> f[i] == g[i]
    ensures SepStage(f, base, s, width) == SepStage(g, base, s, width)
  {
    hide SepStream, Bank;
    assert InBank(base + 5, base, 12) && InBank(base + 11, base, 12);
    forall i | InBank(i, base, 5) ensures f[i] == g[i] { assert InBank(i, base, 12); }
    forall i | InBank(i, base + 6, 5) ensures f[i] == g[i] { assert InBank(i, base, 12); }
    SameBank(f, g, base, 5);
    SameBank(f, g, base + 6, 5);
  }

  lemma DisabledA(b: Board, c: Board, pre: seq<int>, width: int)
    requires b.op < 8 && c.op < 8
    ensures BranchA(b, pre, width) == BranchA(c, pre, width)
  {
    hide Bank;
  }

  lemma SameSelected(b: Board, c: Board, pre: seq<int>, width: int)
    requires 0 <= b.op < 16 && b.op == c.op && SameBanks(b.op, b.fe, c.fe) && RectifiesAlike(b, c)
    ensures Selected(b, pre, width) == Selected(c, pre, width)
  {
    hide BranchA, BranchB, SepStage, DogStream, RectifiesAlike;
    if b.op < 8 {
      DisabledA(b, c, pre, width);
    } else if b.op < 12 {
      SameBranchA(b, c, pre, width);
    } else {
      SameBranchB(b, c, pre, width);
      if b.op == 12 {
        SameBranchA(b, c, pre, width);
        assert Reads(12, 0x40) && Reads(12, 0x41) && Reads(12, 0x42) && Reads(12, 0x43) && Reads(12, 0x44);
      } else if b.op >= 14 {
        var t := BranchB(b, pre, width);
        forall i | InBank(i, 0x50, 12) ensures b.fe[i] == c.fe[i] { assert Reads(b.op, i); }
        SameSepStage(b.fe, c.fe, 0x50, t, width);
        if b.op == 15 {
          forall i | InBank(i, 0x60, 12) ensures b.fe[i] == c.fe[i] { assert Reads(b.op, i); }
          SameSepStage(b.fe, c.fe, 0x60, SepStage(b.fe, 0x50, t, width), width);
        }
      }
    }
  }

  /** The picture from the selected stream on. */
  lemma ShownFromSelected(b: Board, c: Board, s: seq<int>, width: nat, height: nat)
    requires width >= 1 && height >= 1 && b.op == c.op && forall i :: InBank(i, 0x46, 5) ==> b.fe[i] == c.fe[i]
    requires Selected(b, PreStage(b, s, width), width) == Selected(c, PreStage(b, s, width), width)
    ensures Shown(b, s, width, height) == Shown(c, s, width, height)
  {
    hide Selected, PrefilterStream, ProcSlot, DitherStream;
    assert InBank(0x46, 0x46, 5) && InBank(0x47, 0x46, 5) && InBank(0x48, 0x46, 5) && InBank(0x49, 0x46, 5) && InBank(0x4A, 0x46, 5);
  }

  /** The picture depends on the registers its select reads and on rectifiers that have something to rectify,
      and on nothing else. */
  lemma ShownDependsOnReads(b: Board, c: Board, s: seq<int>, width: nat, height: nat)
    requires width >= 1 && height >= 1 && 0 <= b.op < 16 && b.op == c.op && SameRegisters(b.op, b.fe, c.fe)
    requires RectifiesAlike(b, c)
    ensures Shown(b, s, width, height) == Shown(c, s, width, height)
  {
    hide Selected, PrefilterStream, ProcSlot, DitherStream, RectifiesAlike;
    assert Reads(b.op, 0x47) && Reads(b.op, 0x48) && Reads(b.op, 0x49) && Reads(b.op, 0x4A);
    assert b.op >= 8 ==> Reads(b.op, 0x46);
    SameSelected(b, c, PreStage(b, s, width), width);
  }
}
