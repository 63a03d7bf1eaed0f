/** What the shipped filters show: the register loads decoded by the fabric into the pixel models. */
module FilterPictures {
  import opened Arithmetic
  import opened Options
  import opened Pixels
  import opened Convolution
  import opened ConvolutionLaws
  import opened Rectifier
  import opened Separable
  import opened SeparableLaws
  import opened Dog
  import opened Outputs
  import opened Cascade
  import opened Prefilter
  import Dither
  import opened FilterRegisters
  import opened FilterChain
  import opened FilterChainLaws

  lemma SignedByte(v: int)
    requires -128 <= v < 128
    ensures Signed(v % 256) == v
  {
  }

  predicate SignedBytes(c: seq<int>) { forall i :: 0 <= i < |c| ==> -128 <= c[i] < 128 }

  /** The registers hold a list from `base` on. */
  ghost predicate Holds(fe: Page, base: nat, vals: seq<int>)
    requires base + |vals| <= 256
  {
    forall i :: InBank(i, base, |vals|) ==> fe[i] == vals[i - base] % 256
  }

  /** A loaded list is read back byte by byte. */
  lemma BankOf(fe: Page, base: nat, c: seq<int>, n: nat)
    requires base + n <= 256 && Holds(fe, base, Fit(c, n))
    ensures Bank(fe, base, n) == Taps(c, n)
  {
    hide Signed;
    forall i | 0 <= i < n
      ensures Bank(fe, base, n)[i] == Taps(c, n)[i]
    {
      assert InBank(base + i, base, n);
    }
  }

  /** A list of signed bytes is read back as it is. */
  lemma TapsOfSigned(c: seq<int>)
    requires SignedBytes(c)
    ensures Taps(c, |c|) == c
  {
    hide Signed;
    forall i | 0 <= i < |c|
      ensures Taps(c, |c|)[i] == c[i]
    {
      SignedByte(c[i]);
    }
  }

  lemma FitsExactly(c: seq<int>)
    ensures Fit(c, |c|) == c
  {
  }

  lemma LoadHolds(fe: Page, base: nat, vals: seq<int>)
    requires base + |vals| <= 256
    ensures Holds(Load(fe, base, vals), base, vals)
  {
  }

  /** Loading elsewhere keeps what is held. */
  lemma StillHolds(f: Page, g: Page, base: nat, vals: seq<int>, other: int, n: int)
    requires base + |vals| <= 256 && Holds(f, base, vals) && Decides(f, f, g, g, other, n)
    requires other + n <= base || base + |vals| <= other
    ensures Holds(g, base, vals)
  {
  }

  lemma ConvLoadedHolds(fe: Page, c: seq<int>, shift: int)
    ensures Holds(ConvLoaded(fe, c, shift), 0, Fit(c, 9)) && ConvLoaded(fe, c, shift)[9] == shift % 16
  {
    hide Load, Fit;
    var f1 := Load(fe, 0, Fit(c, 9));
    LoadHolds(fe, 0, Fit(c, 9));
    LoadDecides(f1, f1, 9, [shift % 16]);
    StillHolds(f1, Load(f1, 9, [shift % 16]), 0, Fit(c, 9), 9, 1);
    LoadAt(f1, 9, [shift % 16], 9);
  }

  lemma Conv5LoadedHolds(fe: Page, c: seq<int>, shift: int)
    ensures Holds(Conv5Loaded(fe, c, shift), 0x20, Fit(c, 25)) && Conv5Loaded(fe, c, shift)[0x39] == shift % 16
  {
    hide Load, Fit;
    var f1 := Load(fe, 0x20, Fit(c, 25));
    LoadHolds(fe, 0x20, Fit(c, 25));
    LoadDecides(f1, f1, 0x39, [shift % 16]);
    StillHolds(f1, Load(f1, 0x39, [shift % 16]), 0x20, Fit(c, 25), 0x39, 1);
    LoadAt(f1, 0x39, [shift % 16], 0x39);
  }

  /** A separable stage as the fabric reads it. */
  ghost predicate HoldsStage(fe: Page, base: nat, k: Passes)
    requires base + 12 <= 256
  {
    && Holds(fe, base, Fit(k.h, 5)) && Holds(fe, base + 6, Fit(k.v, 5))
    && fe[base + 5] == k.hshift % 16 && fe[base + 11] == k.vshift % 16
  }

  lemma SepLoadedHolds(fe: Page, stage: int, k: Passes)
    ensures HoldsStage(SepLoaded(fe, stage, k.h, k.v, k.hshift, k.vshift), SepBase(stage), k)
  {
    hide Load, Fit;
    var base := SepBase(stage);
    var h, v := Fit(k.h, 5), Fit(k.v, 5);
    var vals := h + [k.hshift % 16] + v + [k.vshift % 16];
    LoadHolds(fe, base, vals);
    var g := Load(fe, base, vals);
    assert forall i :: InBank(i, base, 5) ==> InBank(i, base, 12) && vals[i - base] == h[i - base];
    forall i | InBank(i, base + 6, 5)
      ensures g[i] == v[i - (base + 6)] % 256
    {
      var j := i - (base + 6);
      assert InBank(i, base, 12) && vals[6 + j] == v[j];
    }
    assert InBank(base + 5, base, 12) && InBank(base + 11, base, 12);
  }

  /** Loading elsewhere keeps a stage. */
  lemma StillHoldsStage(f: Page, g: Page, base: nat, k: Passes, other: int, n: int)
    requires base + 12 <= 256 && HoldsStage(f, base, k) && Decides(f, f, g, g, other, n)
    requires other + n <= base || base + 12 <= other
    ensures HoldsStage(g, base, k)
  {
    hide Fit, Holds;
    StillHolds(f, g, base, Fit(k.h, 5), other, n);
    StillHolds(f, g, base + 6, Fit(k.v, 5), other, n);
  }

  // ---- what each loader shows --------------------------------------------------------------------

  /** The golden stage two one-dimensional kernels describe. */
  function PassStage(k: Passes): Stage { TwoPass(Taps(k.h, 5), Taps(k.v, 5), k.hshift % 16, k.vshift % 16) }

  lemma PassStageRuns(k: Passes, s: seq<int>, width: int)
    ensures RunStage(PassStage(k), s, width) ==
            SepStream(s, width, Taps(k.h, 5), Taps(k.v, 5), k.hshift % 16, k.vshift % 16)
  {
    hide SepStream, Taps;
  }

  lemma SepStageReads(fe: Page, base: nat, h: seq<int>, v: seq<int>, hs: nat, vs: nat, s: seq<int>, width: int)
    requires base + 12 <= 256 && |h| == 5 && |v| == 5 && hs < 16 && vs < 16
    requires Bank(fe, base, 5) == h && Bank(fe, base + 6, 5) == v && fe[base + 5] == hs && fe[base + 11] == vs
    ensures SepStage(fe, base, s, width) == SepStream(s, width, h, v, hs, vs)
  {
    hide SepStream, Bank;
    assert fe[base + 5] % 16 == hs && fe[base + 11] % 16 == vs;
  }

  /** A loaded separable stage runs the golden separable model with the given kernels. */
  lemma StageShows(fe: Page, base: nat, k: Passes, s: seq<int>, width: int)
    requires base + 12 <= 256 && HoldsStage(fe, base, k)
    ensures SepStage(fe, base, s, width) == RunStage(PassStage(k), s, width)
  {
    hide SepStream, SepStage, RunStage, PassStage, Bank, Holds, Fit, Taps;
    BankOf(fe, base, k.h, 5);
    BankOf(fe, base + 6, k.v, 5);
    SepStageReads(fe, base, Taps(k.h, 5), Taps(k.v, 5), k.hshift % 16, k.vshift % 16, s, width);
    PassStageRuns(k, s, width);
  }

  lemma BranchAShows(b: Board, c: seq<int>, pre: seq<int>, width: int)
    requires b.op >= 8 && Holds(b.fe, 0, Fit(c, 9))
    ensures BranchA(b, pre, width) ==
            ConvStream(pre, width, Taps(c, 9), b.fe[9] % 16, b.fe[0x45] % 2 == 1, true, 3)
  {
    hide ConvStream, Bank, Holds, Fit, Taps;
    BankOf(b.fe, 0, c, 9);
  }

  lemma BranchBShows(b: Board, c: seq<int>, pre: seq<int>, width: int)
    requires b.op >= 12 && Holds(b.fe, 0x20, Fit(c, 25))
    ensures BranchB(b, pre, width) ==
            ConvStream(pre, width, Taps(c, 25), b.fe[0x39] % 16, b.fe[0x45] / 2 % 2 == 1, true, 5)
  {
    hide ConvStream, Bank, Holds, Fit, Taps;
    BankOf(b.fe, 0x20, c, 25);
  }

  /** A loaded 3x3 kernel shows the golden 3x3 convolution with it, rectified if the magnitude bit is left set. */
  lemma KernelIsConv(b: Board, k: Kernel, pre: seq<int>, width: int)
    ensures Selected(KernelBoard(b, k), pre, width) ==
            ConvStream(pre, width, Taps(k.coeffs, 9), k.shift % 16, b.fe[0x45] % 2 == 1, true, 3)
  {
    hide ConvLoaded, ConvStream, BranchA, Holds, Fit, Taps;
    var r := KernelBoard(b, k);
    ConvLoadedHolds(b.fe, k.coeffs, k.shift);
    ConvDecides(b.fe, b.fe, k.coeffs, k.shift);
    BranchAShows(r, k.coeffs, pre, width);
  }

  lemma DogRegisters(b: Board, small: Kernel, large: Kernel, p: DogPreset)
    ensures var r := DogBoard(b, small, large, p);
      && Holds(r.fe, 0, Fit(small.coeffs, 9)) && r.fe[9] == small.shift % 16
      && Holds(r.fe, 0x20, Fit(large.coeffs, 25)) && r.fe[0x39] == large.shift % 16
      && r.fe[0x40] == p.mode % 4 && r.fe[0x41] == p.alpha % 256 && r.fe[0x42] == p.beta % 256
      && r.fe[0x43] == p.shift % 16 && r.fe[0x44] == p.offset % 256 && r.fe[0x45] == b.fe[0x45] && r.op == 12
  {
    hide ConvLoaded, Conv5Loaded, Load, Fit, Holds;
    var f1 := ConvLoaded(b.fe, small.coeffs, small.shift);
    var f2 := Conv5Loaded(f1, large.coeffs, large.shift);
    var vals := [p.mode % 4, p.alpha, p.beta, p.shift % 16, p.offset];
    var f3 := Load(f2, 0x40, vals);
    ConvLoadedHolds(b.fe, small.coeffs, small.shift);
    ConvDecides(b.fe, b.fe, small.coeffs, small.shift);
    Conv5LoadedHolds(f1, large.coeffs, large.shift);
    Conv5Decides(f1, f1, large.coeffs, large.shift);
    LoadDecides(f2, f2, 0x40, vals);
    StillHolds(f1, f2, 0, Fit(small.coeffs, 9), 0x20, 26);
    StillHolds(f2, f3, 0, Fit(small.coeffs, 9), 0x40, 5);
    StillHolds(f2, f3, 0x20, Fit(large.coeffs, 25), 0x40, 5);
    LoadAt(f2, 0x40, vals, 0x40); LoadAt(f2, 0x40, vals, 0x41); LoadAt(f2, 0x40, vals, 0x42);
    LoadAt(f2, 0x40, vals, 0x43); LoadAt(f2, 0x40, vals, 0x44);
  }

  lemma SmallRemainder(x: nat, m: nat)
    requires x < m
    ensures x % m == x
  {
  }

  lemma DogSelected(r: Board, mode: nat, shift: nat, pre: seq<int>, width: int)
    requires r.op == 12 && mode < 4 && shift < 16 && r.fe[0x40] == mode && r.fe[0x43] == shift
    ensures Selected(r, pre, width) ==
            DogStream(BranchA(r, pre, width), BranchB(r, pre, width), mode, r.fe[0x41], r.fe[0x42], shift, r.fe[0x44])
  {
    hide BranchA, BranchB, SepStage, DogStream;
    SmallRemainder(mode, 4);
    SmallRemainder(shift, 16);
  }

  /** `set_dog` from any board: the combiner over its two convolutions, each rectified as the board was left. */
  lemma DogShows(b: Board, small: Kernel, large: Kernel, p: DogPreset, pre: seq<int>, width: int)
    ensures Selected(DogBoard(b, small, large, p), pre, width) ==
            DogStream(ConvStream(pre, width, Taps(small.coeffs, 9), small.shift % 16, b.fe[0x45] % 2 == 1, true, 3),
                      ConvStream(pre, width, Taps(large.coeffs, 25), large.shift % 16, b.fe[0x45] / 2 % 2 == 1, true, 5),
                      p.mode % 4, p.alpha % 256, p.beta % 256, p.shift % 16, p.offset % 256)
  {
    hide DogBoard, Selected, ConvStream, DogStream, BranchA, BranchB, Holds, Fit, Taps;
    var r := DogBoard(b, small, large, p);
    DogRegisters(b, small, large, p);
    DogSelected(r, p.mode % 4, p.shift % 16, pre, width);
    SmallRemainder(small.shift % 16, 16);
    SmallRemainder(large.shift % 16, 16);
    BranchAShows(r, small.coeffs, pre, width);
    BranchBShows(r, large.coeffs, pre, width);
  }

  /** A rectifier that is clear, or has nothing to rectify. */
  lemma PlainConv(k: seq<int>, shift: nat, absf: bool, taps: nat, pre: seq<int>, width: int)
    requires taps * taps <= |k| && (absf ==> NonNegative(k))
    ensures ConvStream(pre, width, k, shift, absf, true, taps) == ConvStream(pre, width, k, shift, false, true, taps)
  {
    hide ConvStream, NonNegative;
    if absf {
      RectifierIdle(pre, width, k, shift, absf, taps);
    }
  }

  /** It is the golden DoG chain with its kernels and parameters, on every board where each magnitude bit is
      clear or the kernel it would rectify has no negative tap. */
  lemma DogIsChain(b: Board, small: Kernel, large: Kernel, p: DogPreset, pre: seq<int>, width: int)
    requires b.fe[0x45] % 2 == 0 || NonNegative(Taps(small.coeffs, 9))
    requires b.fe[0x45] / 2 % 2 == 0 || NonNegative(Taps(large.coeffs, 25))
    ensures Selected(DogBoard(b, small, large, p), pre, width) ==
            DogChain(pre, width, Taps(small.coeffs, 9), small.shift % 16, Taps(large.coeffs, 25), large.shift % 16,
                     p.mode % 4, p.alpha % 256, p.beta % 256, p.shift % 16, p.offset % 256)
  {
    hide DogBoard, Selected, ConvStream, DogStream, Taps, NonNegative;
    DogShows(b, small, large, p, pre, width);
    PlainConv(Taps(small.coeffs, 9), small.shift % 16, b.fe[0x45] % 2 == 1, 3, pre, width);
    PlainConv(Taps(large.coeffs, 25), large.shift % 16, b.fe[0x45] / 2 % 2 == 1, 5, pre, width);
  }

  /** The golden stages of a fully given cascade, the first one rectified or not. */
  function StagesOf(s1: Kernel, s2: Passes, s3: Passes, absf: bool): (g: seq<Stage>)
    ensures |g| == 3 && AllWellFormed(g)
  {
    [General(Taps(s1.coeffs, 25), s1.shift % 16, absf, true), PassStage(s2), PassStage(s3)]
  }

  function GivenStages(s1: Kernel, s2: Passes, s3: Passes): (g: seq<Stage>)
    ensures |g| == 3 && AllWellFormed(g)
  {
    StagesOf(s1, s2, s3, false)
  }

  lemma CascadeRegisters(b: Board, s1: Kernel, s2: Passes, s3: Passes, out: int)
    ensures var r := CascadeBoard(b, Some(s1), Some(s2), Some(s3), out);
      && Holds(r.fe, 0x20, Fit(s1.coeffs, 25)) && r.fe[0x39] == s1.shift % 16 && r.fe[0x45] == b.fe[0x45]
      && HoldsStage(r.fe, 0x50, s2) && HoldsStage(r.fe, 0x60, s3)
  {
    hide Conv5Loaded, SepLoaded, Fit, Holds, HoldsStage;
    var f1 := Conv5Loaded(b.fe, s1.coeffs, s1.shift);
    var f2 := SepLoaded(f1, 2, s2.h, s2.v, s2.hshift, s2.vshift);
    var f3 := SepLoaded(f2, 3, s3.h, s3.v, s3.hshift, s3.vshift);
    Conv5LoadedHolds(b.fe, s1.coeffs, s1.shift);
    Conv5Decides(b.fe, b.fe, s1.coeffs, s1.shift);
    SepDecides(f1, f1, 2, s2.h, s2.v, s2.hshift, s2.vshift);
    SepDecides(f2, f2, 3, s3.h, s3.v, s3.hshift, s3.vshift);
    StillHolds(f1, f2, 0x20, Fit(s1.coeffs, 25), 0x50, 12);
    StillHolds(f2, f3, 0x20, Fit(s1.coeffs, 25), 0x60, 12);
    SepLoadedHolds(f1, 2, s2);
    SepLoadedHolds(f2, 3, s3);
    StillHoldsStage(f2, f3, 0x50, s2, 0x60, 12);
  }

  lemma TapSelected(r: Board, pre: seq<int>, width: int)
    requires 13 <= r.op <= 15
    ensures Selected(r, pre, width) ==
      (var t1 := BranchB(r, pre, width);
       if r.op == 13 then t1
       else if r.op == 14 then SepStage(r.fe, 0x50, t1, width)
       else SepStage(r.fe, 0x60, SepStage(r.fe, 0x50, t1, width), width))
  {
    hide BranchA, BranchB, SepStage, DogStream;
  }

  lemma StagePrefixes(g: seq<Stage>, pre: seq<int>, width: int)
    requires |g| == 3 && AllWellFormed(g)
    ensures RunAll(g[..1], pre, width) == RunStage(g[0], pre, width)
    ensures RunAll(g[..2], pre, width) == RunStage(g[1], RunAll(g[..1], pre, width), width)
    ensures RunAll(g[..3], pre, width) == RunStage(g[2], RunAll(g[..2], pre, width), width)
  {
    hide RunStage;
    assert g[..1][..0] == [] && g[..2][..1] == g[..1] && g[..3][..2] == g[..2];
    assert RunAll(g[..1][..0], pre, width) == pre;
  }

  lemma StagesAre(s1: Kernel, s2: Passes, s3: Passes, absf: bool, pre: seq<int>, width: int)
    ensures var g := StagesOf(s1, s2, s3, absf);
      && RunStage(g[0], pre, width) == ConvStream(pre, width, Taps(s1.coeffs, 25), s1.shift % 16, absf, true, 5)
      && g[1] == PassStage(s2) && g[2] == PassStage(s3)
  {
    hide ConvStream, Taps;
  }

  lemma FirstStage(s1: Kernel, s2: Passes, s3: Passes, pre: seq<int>, width: int)
    ensures RunStage(GivenStages(s1, s2, s3)[0], pre, width) ==
            ConvStream(pre, width, Taps(s1.coeffs, 25), s1.shift % 16, false, true, 5)
  {
    hide ConvStream, Taps;
  }

  lemma LaterStages(s1: Kernel, s2: Passes, s3: Passes)
    ensures GivenStages(s1, s2, s3)[1] == PassStage(s2) && GivenStages(s1, s2, s3)[2] == PassStage(s3)
  {
    hide Taps;
  }

  /** `cascade` with all stages given, from any board: the stages in series, tapped after one, two or three,
      the first one rectified as the board was left. */
  lemma CascadeShows(b: Board, s1: Kernel, s2: Passes, s3: Passes, out: int, pre: seq<int>, width: int)
    requires 13 <= out <= 15
    ensures Selected(CascadeBoard(b, Some(s1), Some(s2), Some(s3), out), pre, width) ==
            RunAll(StagesOf(s1, s2, s3, b.fe[0x45] / 2 % 2 == 1)[..out - 12], pre, width)
  {
    hide Selected, ConvStream, BranchB, SepStage, Holds, HoldsStage, RunAll, RunStage, Fit, Taps,
         StagesOf, PassStage, StageLoaded, Conv5Loaded;
    var r := CascadeBoard(b, Some(s1), Some(s2), Some(s3), out);
    var g := StagesOf(s1, s2, s3, b.fe[0x45] / 2 % 2 == 1);
    CascadeRegisters(b, s1, s2, s3, out);
    TapSelected(r, pre, width);
    SmallRemainder(s1.shift % 16, 16);
    BranchBShows(r, s1.coeffs, pre, width);
    StagesAre(s1, s2, s3, b.fe[0x45] / 2 % 2 == 1, pre, width);
    StagePrefixes(g, pre, width);
    StageShows(r.fe, 0x50, s2, RunAll(g[..1], pre, width), width);
    StageShows(r.fe, 0x60, s3, RunAll(g[..2], pre, width), width);
  }

  lemma StagesAlike(s1: Kernel, s2: Passes, s3: Passes, absf: bool, n: nat, pre: seq<int>, width: int)
    requires 1 <= n <= 3 && (absf ==> NonNegative(Taps(s1.coeffs, 25)))
    ensures RunAll(StagesOf(s1, s2, s3, absf)[..n], pre, width) == RunAll(GivenStages(s1, s2, s3)[..n], pre, width)
  {
    hide ConvStream, RunAll, RunStage, Taps, NonNegative, StagesOf, PassStage;
    StagesAre(s1, s2, s3, absf, pre, width);
    StagesAre(s1, s2, s3, false, pre, width);
    PlainConv(Taps(s1.coeffs, 25), s1.shift % 16, absf, 5, pre, width);
    StagePrefixes(StagesOf(s1, s2, s3, absf), pre, width);
    StagePrefixes(StagesOf(s1, s2, s3, false), pre, width);
  }

  /** They are the given stages on every board where the 5x5 magnitude bit is clear or the first kernel has no
      negative tap. */
  lemma CascadeIsSeries(b: Board, s1: Kernel, s2: Passes, s3: Passes, out: int, pre: seq<int>, width: int)
    requires 13 <= out <= 15 && (b.fe[0x45] / 2 % 2 == 0 || NonNegative(Taps(s1.coeffs, 25)))
    ensures Selected(CascadeBoard(b, Some(s1), Some(s2), Some(s3), out), pre, width) ==
            RunAll(GivenStages(s1, s2, s3)[..out - 12], pre, width)
  {
    hide Selected, RunAll, Taps, NonNegative, GivenStages, StagesOf, CascadeBoard;
    CascadeShows(b, s1, s2, s3, out, pre, width);
    StagesAlike(s1, s2, s3, b.fe[0x45] / 2 % 2 == 1, out - 12, pre, width);
  }

  /** The dither register is read back field by field. */
  lemma DitherFields(enable: bool, random: bool, bits: int)
    ensures var ctrl := DitherByte(enable, random, bits);
      && 0 <= ctrl < 256 && (Dither.Enabled(ctrl) <==> enable) && (Dither.RandomMode(ctrl) <==> random)
      && Dither.Depth(ctrl) == bits % 8
  {
    var e, m, n := if enable then 1 else 0, if random then 1 else 0, bits % 8;
    var ctrl := DitherByte(enable, random, bits);
    assert ctrl == e + 2 * m + 4 * n;
    RemainderIs(ctrl, m + 2 * n, e, 2);
    RemainderIs(m + 2 * n, n, m, 2);
    RemainderIs(ctrl, n, e + 2 * m, 4);
  }

  // ---- blur ------------------------------------------------------------------------------------

  /** Kernel size of the blur: the select 13, 14 or 15 taps one, two or three stages. */
  function Stages(size: int): nat { if size < 9 then 1 else if size < 13 then 2 else 3 }

  const GAUSS := Passes(G5, G5, 4, 4)
  const THROUGH := Passes(SEP_IDENTITY, SEP_IDENTITY, 0, 0)

  /** `set_blur` is a cascade call. */
  lemma BlurIsCascadeCall(b: Board, size: int)
    ensures BlurBoard(b, size) ==
            CascadeBoard(b, Some(Kernel(GEN25, 8)), Some(if size >= 9 then GAUSS else THROUGH),
                         Some(if size >= 13 then GAUSS else THROUGH), 12 + Stages(size))
  {
    hide Conv5Loaded, SepLoaded;
  }

  lemma GaussianTaps()
    ensures Taps(GEN25, 25) == GEN25 && Taps(G5, 5) == G5 && NonNegative(GEN25)
  {
    TapsOfSigned(GEN25);
    TapsOfSigned(G5);
  }

  /** The stages a blur taps are the shipped ones. */
  lemma BlurStages(size: int)
    ensures AllWellFormed(SHIPPED)
    ensures var g := GivenStages(Kernel(GEN25, 8), if size >= 9 then GAUSS else THROUGH,
                                 if size >= 13 then GAUSS else THROUGH);
      g[..Stages(size)] == SHIPPED[..Stages(size)]
  {
    hide Taps;
    GaussianTaps();
  }

  /** `set_blur` is the shipped Gaussian cascade with one, two or three stages, from any board whatever. */
  lemma BlurIsCascade(b: Board, size: int, pre: seq<int>, width: int)
    ensures AllWellFormed(SHIPPED) &&
            Selected(BlurBoard(b, size), pre, width) == RunAll(SHIPPED[..Stages(size)], pre, width)
  {
    hide BlurBoard, CascadeBoard, Selected, RunAll, GivenStages, SHIPPED, AllWellFormed, Taps, NonNegative;
    var k2, k3 := if size >= 9 then GAUSS else THROUGH, if size >= 13 then GAUSS else THROUGH;
    BlurIsCascadeCall(b, size);
    GaussianTaps();
    BlurStages(size);
    CascadeIsSeries(b, Kernel(GEN25, 8), k2, k3, 12 + Stages(size), pre, width);
  }

  /** What a blur shows at a beat depends on the square of 4, 8 or 12 rows and columns behind it alone, and
      stays between the extremes of that square. */
  lemma BlurReach(b: Board, size: int, p: seq<int>, q: seq<int>, width: nat, k: nat)
    requires k < |p| == |q| && Agree(p, q, width, k, 4 * Stages(size))
    ensures Selected(BlurBoard(b, size), p, width)[k] == Selected(BlurBoard(b, size), q, width)[k]
  {
    hide Selected, BlurBoard, RunAll, Agree;
    BlurIsCascade(b, size, p, width);
    BlurIsCascade(b, size, q, width);
    CascadeLocality(SHIPPED[..Stages(size)], p, q, width, k);
  }

  lemma BlurRange(b: Board, size: int, p: seq<int>, width: nat, k: nat, sel: nat, lo: int, hi: int)
    requires k < |p| && sel < 3 && 0 <= lo && hi <= 255
    requires Within(p, width, k, 4 * Stages(size), sel, lo, hi)
    ensures lo <= Ch(Selected(BlurBoard(b, size), p, width)[k], sel) <= hi
  {
    hide Selected, BlurBoard, RunAll, Within, UnityGain, Ch;
    BlurIsCascade(b, size, p, width);
    ShippedIsUnity();
    CascadeRange(SHIPPED[..Stages(size)], p, width, k, sel, lo, hi);
  }

  // ---- edges -----------------------------------------------------------------------------------

  lemma EdgeRegisters(b: Board, shift: int, csh: int)
    ensures var r := EdgesBoard(b, shift, csh);
      && Holds(r.fe, 0, SOBEL_X) && r.fe[9] == shift % 16 && Holds(r.fe, 0x20, Embedded(SOBEL_Y))
      && r.fe[0x39] == shift % 16 && r.fe[0x40] == 3 && r.fe[0x41] == 1 && r.fe[0x42] == 1
      && r.fe[0x43] == csh % 16 && r.fe[0x44] == 0 && r.fe[0x45] == 3 && r.op == 12
  {
    hide ConvLoaded, Conv5Loaded, Load, Embedded;
    var k := Embedded(SOBEL_Y);
    var f1 := ConvLoaded(b.fe, SOBEL_X, shift);
    var f2 := Conv5Loaded(f1, k, shift);
    var vals := [3, 1, 1, csh % 16, 0];
    var f3 := Load(f2, 0x40, vals);
    var f4 := Load(f3, 0x45, [3]);
    ConvLoadedHolds(b.fe, SOBEL_X, shift);
    FitsExactly(SOBEL_X);
    FitsExactly(k);
    Conv5LoadedHolds(f1, k, shift);
    Conv5Decides(f1, f1, k, shift);
    LoadDecides(f2, f2, 0x40, vals);
    LoadDecides(f3, f3, 0x45, [3]);
    StillHolds(f1, f2, 0, SOBEL_X, 0x20, 26);
    StillHolds(f2, f3, 0, SOBEL_X, 0x40, 5);
    StillHolds(f3, f4, 0, SOBEL_X, 0x45, 1);
    StillHolds(f2, f3, 0x20, k, 0x40, 5);
    StillHolds(f3, f4, 0x20, k, 0x45, 1);
    LoadAt(f2, 0x40, vals, 0x40); LoadAt(f2, 0x40, vals, 0x41); LoadAt(f2, 0x40, vals, 0x42);
    LoadAt(f2, 0x40, vals, 0x43); LoadAt(f2, 0x40, vals, 0x44);
    LoadAt(f3, 0x45, [3], 0x45);
  }

  /** One Sobel direction, rectified. */
  function Gradient(pre: seq<int>, width: int, k9: seq<int>, shift: nat): (out: seq<int>)
    requires |k9| == 9
    ensures |out| == |pre|
  {
    ConvStream(pre, width, k9, shift, true, true, 3)
  }

  /** The edge filter adds the horizontal gradient at a beat to the vertical gradient one row and one column
      before it: the branches are paired by beat number, and the 5x5 branch holds its 3x3 kernel in the
      centre of the larger window. */
  lemma EdgesPair(b: Board, shift: int, csh: int, pre: seq<int>, width: nat, k: nat)
    requires k < |pre|
    ensures Selected(EdgesBoard(b, shift, csh), pre, width)[k] ==
            DogPixel(Gradient(pre, width, SOBEL_X, shift % 16)[k],
                     At(Gradient(pre, width, SOBEL_Y, shift % 16), k - width - 1), 3, 1, 1, csh % 16, 0)
  {
    hide EdgesBoard, ConvStream, ConvPixel, DogPixel, Embedded, BranchA, BranchB, Holds;
    var r := EdgesBoard(b, shift, csh);
    EdgeRegisters(b, shift, csh);
    EdgeBranchA(r, pre, width, shift % 16);
    EdgeBranchB(r, pre, width, shift % 16);
    EmbeddingIsPureDelay(pre, width, SOBEL_Y, shift % 16, true, k);
  }

  lemma GradientLane(pre: seq<int>, width: nat, shift: nat, sel: nat, k: int)
    requires k < |pre| && sel < 3
    ensures Rectified(Ch(At(Gradient(pre, width, SOBEL_X, shift), k), sel), Across(pre, width, sel, k), Pow2(shift)) || k < 0
    ensures Rectified(Ch(At(Gradient(pre, width, SOBEL_Y, shift), k), sel), Down(pre, width, sel, k), Pow2(shift))
  {
    hide Ch, ConvStream, Across, Down, Pow2, WindowSum;
    if k >= 0 {
      SobelSums(pre, width, sel, k);
      ConvOutput(pre, width, SOBEL_X, shift, true, 3, sel, k);
      ConvOutput(pre, width, SOBEL_Y, shift, true, 3, sel, k);
    } else {
      NothingBefore(pre, width, sel, k);
      ZeroLanes(sel);
    }
  }

  /** What the edge filter shows, in numbers: in every lane the magnitude of the horizontal Sobel difference at
      a beat plus that of the vertical one a row and a column before, each divided by the first shift and held
      at 255, the sum divided by the second. */
  lemma EdgesShow(b: Board, shift: int, csh: int, pre: seq<int>, width: nat, k: nat, sel: nat) returns (gx: int, gy: int)
    requires k < |pre| && sel < 3
    ensures Rectified(gx, Across(pre, width, sel, k), Pow2(shift % 16))
    ensures Rectified(gy, Down(pre, width, sel, k - width - 1), Pow2(shift % 16))
    ensures Rounds(Ch(Selected(EdgesBoard(b, shift, csh), pre, width)[k], sel), gx + gy, Pow2(csh % 16), 0, 255)
  {
    hide EdgesBoard, Selected, Gradient, Ch, Across, Down, Pow2, Rounds, Rectified, DogPixel;
    var a := Gradient(pre, width, SOBEL_X, shift % 16)[k];
    var d := At(Gradient(pre, width, SOBEL_Y, shift % 16), k - width - 1);
    gx, gy := Ch(a, sel), Ch(d, sel);
    EdgesPair(b, shift, csh, pre, width, k);
    GradientLane(pre, width, shift % 16, sel, k);
    GradientLane(pre, width, shift % 16, sel, k - width - 1);
    DogOutput([a], [d], 3, 1, 1, csh % 16, 0, sel, 0);
  }

  lemma SobelTaps()
    ensures Taps(SOBEL_X, 9) == SOBEL_X && Taps(Embedded(SOBEL_Y), 25) == Embedded(SOBEL_Y)
  {
    TapsOfSigned(SOBEL_X);
    TapsOfSigned(Embedded(SOBEL_Y));
  }

  lemma EdgeBranchA(r: Board, pre: seq<int>, width: int, shift: nat)
    requires r.op == 12 && shift < 16 && Holds(r.fe, 0, SOBEL_X) && r.fe[9] == shift && r.fe[0x45] == 3
    ensures BranchA(r, pre, width) == Gradient(pre, width, SOBEL_X, shift)
  {
    hide ConvStream, BranchA, Holds, Fit, Taps, Embedded;
    SobelTaps();
    FitsExactly(SOBEL_X);
    SmallRemainder(shift, 16);
    BranchAShows(r, SOBEL_X, pre, width);
  }

  lemma EdgeBranchB(r: Board, pre: seq<int>, width: int, shift: nat)
    requires r.op == 12 && shift < 16 && Holds(r.fe, 0x20, Embedded(SOBEL_Y)) && r.fe[0x39] == shift && r.fe[0x45] == 3
    ensures BranchB(r, pre, width) == ConvStream(pre, width, Embedded(SOBEL_Y), shift, true, true, 5)
  {
    hide ConvStream, BranchB, Holds, Fit, Taps, Embedded;
    SobelTaps();
    FitsExactly(Embedded(SOBEL_Y));
    SmallRemainder(shift, 16);
    BranchBShows(r, Embedded(SOBEL_Y), pre, width);
  }
}
