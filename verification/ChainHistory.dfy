/** What a filter chain forgets of the board it finds, exactly, and what a cascade leaves in place. */
module ChainHistory {
  import opened Arithmetic
  import opened Options
  import opened Pixels
  import opened Windows
  import opened Convolution
  import opened ConvolutionLaws
  import opened Rectifier
  import opened Separable
  import opened SeparableLaws
  import opened Cascade
  import opened Dog
  import opened Prefilter
  import Dither
  import opened FilterRegisters
  import opened FilterChain
  import opened FilterChainLaws
  import opened FilterPictures

  /** The 3x3 kernel a middle filter loads by itself, if that is what it does. */
  function MidKernel(mid: Mid): Option<Kernel> {
    match mid
    case MidName(name) => if SelectsEdges(mid) || IsNone(mid) then None else KernelNamed(name)
    case KernelByName(kernel) => KernelNamed(kernel)
    case KernelCustom(coeffs, shift) => Some(Kernel(coeffs, if shift.Some? then shift.value else 0))
    case _ => None
  }

  /** A chain with nothing for a leftover rectifier to rectify: any chain but one whose 3x3 kernel weighs some
      beat negatively. */
  predicate Forgets(call: Call, width: nat) {
    MidKernel(call.mid).Some? ==> NeverNegative(Taps(MidKernel(call.mid).value.coeffs, 9), width, 3)
  }

  /** The banks are what the selected stream depends on; the registers around it are not. */
  lemma SelectedIgnores(m: Board, lo: nat, v: int, pre: seq<int>, width: int)
    requires InBank(lo, 0x46, 5) && 0 <= m.op < 16
    ensures Selected(Put(m, lo, v), pre, width) == Selected(m, pre, width)
  {
    hide Selected, Bank;
    var r := Put(m, lo, v);
    SameBank(r.fe, m.fe, 0, 9);
    SameBank(r.fe, m.fe, 0x20, 25);
    SameSelected(r, m, pre, width);
  }

  lemma KernelForgets(b: Board, c: Board, k: Kernel, pre: seq<int>, width: nat)
    requires width >= 1 && NeverNegative(Taps(k.coeffs, 9), width, 3)
    ensures Selected(KernelBoard(b, k), pre, width) == Selected(KernelBoard(c, k), pre, width)
  {
    hide Selected, ConvStream, Taps, NeverNegative, KernelBoard;
    KernelIsConv(b, k, pre, width);
    KernelIsConv(c, k, pre, width);
    NeverNegativeStream(pre, width, 3, Taps(k.coeffs, 9), k.shift % 16, b.fe[0x45] % 2 == 1);
    NeverNegativeStream(pre, width, 3, Taps(k.coeffs, 9), k.shift % 16, c.fe[0x45] % 2 == 1);
  }

  lemma IdentityForgets(width: nat)
    requires width >= 1
    ensures NeverNegative(Taps(IDENTITY.coeffs, 9), width, 3)
  {
    hide NeverNegative, Taps;
    TapsOfSigned(IDENTITY.coeffs);
    NonNegativeNever(IDENTITY.coeffs, width, 3);
  }

  /** Both presets smooth before they subtract. */
  lemma PresetTaps(name: string)
    requires DogNamed(name).Some?
    ensures NonNegative(Taps(DogNamed(name).value.small.coeffs, 9)) && NonNegative(Taps(GEN25, 25))
  {
    TapsOfSigned(DogNamed(name).value.small.coeffs);
    GaussianTaps();
  }

  lemma PresetForgets(b: Board, c: Board, name: string, pre: seq<int>, width: nat)
    requires DogNamed(name).Some?
    ensures var p := DogNamed(name).value;
      Selected(DogBoard(b, p.small, Kernel(GEN25, 8), p), pre, width) ==
      Selected(DogBoard(c, p.small, Kernel(GEN25, 8), p), pre, width)
  {
    hide Selected, DogBoard, DogChain, Taps, DogNamed, NonNegative;
    var p := DogNamed(name).value;
    PresetTaps(name);
    DogIsChain(b, p.small, Kernel(GEN25, 8), p, pre, width);
    DogIsChain(c, p.small, Kernel(GEN25, 8), p, pre, width);
  }

  lemma EdgesForget(b: Board, c: Board, shift: int, csh: int, pre: seq<int>, width: int)
    ensures Selected(EdgesBoard(b, shift, csh), pre, width) == Selected(EdgesBoard(c, shift, csh), pre, width)
  {
    hide Selected, EdgesBoard, Bank, Reads;
    EdgesAgree(b, c, shift, csh);
    SameSelected(EdgesBoard(b, shift, csh), EdgesBoard(c, shift, csh), pre, width);
  }

  lemma BlurForgets(b: Board, c: Board, size: int, pre: seq<int>, width: nat)
    ensures Selected(BlurBoard(b, size), pre, width) == Selected(BlurBoard(c, size), pre, width)
  {
    hide Selected, BlurBoard, RunAll;
    BlurIsCascade(b, size, pre, width);
    BlurIsCascade(c, size, pre, width);
  }

  /** The middle filter of a forgetting chain. */
  lemma MiddleForgets(b: Board, c: Board, mid: Mid, pre: seq<int>, width: nat)
    requires width >= 1 && !IsNone(mid) && MidBoard(b, mid).Some? && MidBoard(c, mid).Some?
    requires MidKernel(mid).Some? ==> NeverNegative(Taps(MidKernel(mid).value.coeffs, 9), width, 3)
    ensures Selected(MidBoard(b, mid).value, pre, width) == Selected(MidBoard(c, mid).value, pre, width)
  {
    hide Selected, KernelBoard, DogBoard, EdgesBoard, BlurBoard, KernelNamed, DogNamed, Lower, NeverNegative, Taps;
    match mid
    case NoMid =>
    case MidName(name) =>
      if SelectsEdges(mid) {
        EdgesForget(b, c, 2, 0, pre, width);
      } else {
        KernelForgets(b, c, KernelNamed(name).value, pre, width);
      }
    case Edges(shift) => EdgesForget(b, c, if shift.Some? then shift.value else 2, 0, pre, width);
    case KernelByName(kernel) => KernelForgets(b, c, KernelNamed(kernel).value, pre, width);
    case KernelCustom(coeffs, shift) => KernelForgets(b, c, Kernel(coeffs, if shift.Some? then shift.value else 0), pre, width);
    case DogByName(preset) => PresetForgets(b, c, preset, pre, width);
    case Blur(size) => BlurForgets(b, c, size, pre, width);
    case OtherTuple =>
  }

  /** The board before the dither write. */
  function Midway(b: Board, call: Call): Option<Board> {
    var pc, qc := PreCode(call.pre), PointCode(call.post);
    if pc.None? || qc.None? then None else Middle(Opened(b, call, qc.value), call, pc.value)
  }

  lemma ChainedMidway(b: Board, call: Call)
    ensures Chained(b, call) == match Midway(b, call)
                                case None => None
                                case Some(m) => Some(Put(m, 0x4A, DitherFor(call.dither)))
  {
    hide Middle, Opened, PreCode, PointCode, DitherFor;
  }

  lemma MidwayForgets(b: Board, c: Board, call: Call, pre: seq<int>, width: nat)
    requires width >= 1 && Midway(b, call).Some? && Midway(c, call).Some? && Forgets(call, width)
    ensures Selected(Midway(b, call).value, pre, width) == Selected(Midway(c, call).value, pre, width)
  {
    hide Selected, KernelBoard, MidBoard, MidKernel, NeverNegative, Taps, PreCode, PointCode, IsNone, Opened, Bank;
    var pc, qc := PreCode(call.pre).value, PointCode(call.post).value;
    var ob, oc := Put(Opened(b, call, qc), 0x46, pc), Put(Opened(c, call, qc), 0x46, pc);
    if !IsNone(call.mid) {
      MiddleForgets(ob, oc, call.mid, pre, width);
    } else if pc >= 8 {
      IdentityForgets(width);
      KernelForgets(ob, oc, IDENTITY, pre, width);
    } else {
      DisabledSelected(Midway(b, call).value, Midway(c, call).value, pre, width);
    }
  }

  lemma DisabledSelected(b: Board, c: Board, pre: seq<int>, width: int)
    requires b.op == c.op && 0 <= b.op < 8
    ensures Selected(b, pre, width) == Selected(c, pre, width)
  {
    hide BranchA, BranchB, SepStage, DogStream;
    DisabledA(b, c, pre, width);
  }

  lemma ChainedForgets(b: Board, c: Board, call: Call, pre: seq<int>, width: nat)
    requires width >= 1 && Chained(b, call).Some? && Chained(c, call).Some? && Forgets(call, width)
    ensures Selected(Chained(b, call).value, pre, width) == Selected(Chained(c, call).value, pre, width)
  {
    hide Selected, Chained, Midway, Forgets, DitherFor, Put, SameRegisters;
    ChainedMidway(b, call);
    ChainedMidway(c, call);
    ChainDecides(b, c, call);
    MidwayForgets(b, c, call, pre, width);
    PutKeepsOp(Midway(b, call).value, 0x4A, DitherFor(call.dither));
    PutKeepsOp(Midway(c, call).value, 0x4A, DitherFor(call.dither));
    SelectedIgnores(Midway(b, call).value, 0x4A, DitherFor(call.dither), pre, width);
    SelectedIgnores(Midway(c, call).value, 0x4A, DitherFor(call.dither), pre, width);
  }

  lemma PutKeepsOp(b: Board, lo: nat, v: int)
    requires lo < 256
    ensures Put(b, lo, v).op == b.op
  {
  }

  /** The whole picture of a forgetting chain does not depend on the board it found: every chain without a
      middle filter, every edge filter, blur and DoG preset, and every kernel that weighs no beat negatively. */
  lemma ChainForgetsTheBoard(b: Board, c: Board, call: Call, s: seq<int>, width: nat, height: nat)
    requires width >= 1 && height >= 1 && Chained(b, call).Some? && Chained(c, call).Some? && Forgets(call, width)
    ensures Shown(Chained(b, call).value, s, width, height) == Shown(Chained(c, call).value, s, width, height)
  {
    hide Selected, Chained, Forgets, Shown, SameRegisters, PrefilterStream, SelectsEdges;
    var b', c' := Chained(b, call).value, Chained(c, call).value;
    ChainDecides(b, c, call);
    ChainedForgets(b, c, call, PreStage(b', s, width), width);
    ShownFromSelected(b', c', s, width, height);
  }

  // ---- the other direction -----------------------------------------------------------------------

  const BLANK: Board := Board(seq(256, i => 0), 0)

  /** The blank board with both rectifiers set. */
  const RECTIFYING: Board := Board(BLANK.fe[0x45 := 3], 0)

  lemma MidOfKernel(b: Board, mid: Mid)
    requires MidKernel(mid).Some?
    ensures !IsNone(mid) && MidBoard(b, mid) == Some(KernelBoard(b, MidKernel(mid).value))
  {
    hide KernelBoard, KernelNamed, Lower;
  }

  /** A kernel chain shows its 3x3 convolution, rectified as the board was left. */
  lemma KernelChainShows(b: Board, call: Call, pre: seq<int>, width: int)
    requires MidKernel(call.mid).Some? && Chained(b, call).Some?
    ensures var k := MidKernel(call.mid).value;
      Selected(Chained(b, call).value, pre, width) ==
      ConvStream(pre, width, Taps(k.coeffs, 9), k.shift % 16, b.fe[0x45] % 2 == 1, true, 3)
  {
    hide Selected, KernelBoard, MidBoard, MidKernel, Taps, PreCode, PointCode, IsNone, ConvStream, DitherFor, Bank;
    var k := MidKernel(call.mid).value;
    var pc, qc := PreCode(call.pre).value, PointCode(call.post).value;
    var ob := Put(Opened(b, call, qc), 0x46, pc);
    ChainedMidway(b, call);
    MidOfKernel(ob, call.mid);
    KernelIsConv(ob, k, pre, width);
    KernelSelect(ob, k);
    SelectedIgnores(KernelBoard(ob, k), 0x4A, DitherFor(call.dither), pre, width);
  }

  lemma KernelSelect(b: Board, k: Kernel)
    ensures KernelBoard(b, k).op == 8
  {
  }

  /** The selected stream of a chain is the same from every board exactly when the chain is a forgetting one. */
  lemma ChainForgetsIff(call: Call, width: nat)
    requires width >= 1 && Chained(BLANK, call).Some?
    ensures (forall b: Board, c: Board, pre: seq<int> :: Chained(b, call).Some? && Chained(c, call).Some? ==>
               Selected(Chained(b, call).value, pre, width) == Selected(Chained(c, call).value, pre, width))
            <==> Forgets(call, width)
  {
    hide Selected, Chained, NeverNegative, MidKernel, Taps, ConvStream;
    if Forgets(call, width) {
      forall b: Board, c: Board, pre: seq<int> | Chained(b, call).Some? && Chained(c, call).Some?
        ensures Selected(Chained(b, call).value, pre, width) == Selected(Chained(c, call).value, pre, width)
      {
        ChainedForgets(b, c, call, pre, width);
      }
    } else {
      var k := MidKernel(call.mid).value;
      ChainSucceedsAlike(RECTIFYING, call);
      MagnitudeMatters(Taps(k.coeffs, 9), width, 3, k.shift % 16);
      var s :| ConvStream(s, width, Taps(k.coeffs, 9), k.shift % 16, true, true, 3) !=
               ConvStream(s, width, Taps(k.coeffs, 9), k.shift % 16, false, true, 3);
      KernelChainShows(BLANK, call, s, width);
      KernelChainShows(RECTIFYING, call, s, width);
    }
  }

  lemma ChainSucceedsAlike(c: Board, call: Call)
    requires Chained(BLANK, call).Some?
    ensures Chained(c, call).Some?
  {
    hide Chained, SameRegisters, SelectsEdges;
    ChainDecides(BLANK, c, call);
  }

  // ---- after an edge filter ------------------------------------------------------------------------

  /** A kernel chain with nothing before or after it. */
  predicate Plain(call: Call) {
    PreCode(call.pre) == Some(0) && PointCode(call.post) == Some(0) && call.dither == NoDither && MidKernel(call.mid).Some?
  }

  lemma PlainRegisters(b: Board, call: Call)
    requires Plain(call) && Chained(b, call).Some?
    ensures var r := Chained(b, call).value; r.op == 8 && r.fe[0x46] == 0 && r.fe[0x48] == 0 && r.fe[0x4A] == 4
  {
    hide MidBoard, MidKernel, PreCode, PointCode, IsNone, ConvLoaded;
    var k := MidKernel(call.mid).value;
    var ob := Put(Opened(b, call, 0), 0x46, 0);
    MidOfKernel(ob, call.mid);
    ConvDecides(ob.fe, ob.fe, k.coeffs, k.shift);
  }

  lemma PlainShown(r: Board, s: seq<int>, width: nat, height: nat)
    requires width >= 1 && height >= 1 && r.op == 8 && r.fe[0x46] == 0 && r.fe[0x48] == 0 && r.fe[0x4A] == 4
    ensures Shown(r, s, width, height) == Selected(r, PreStage(r, s, width), width)
  {
    hide Selected, PreStage;
    var t := Selected(r, PreStage(r, s, width), width);
    assert ProcSlot(t, 0, r.fe[0x49]) == t;
    assert Dither.DitherStream(t, width, height, 4) == t;
  }

  /** The pre-filter delays a spot by one row and one column. */
  lemma SpotDelayed(r: Board, width: nat, d: nat)
    requires width >= 1 && r.op == 8 && r.fe[0x46] == 0
    ensures PreStage(r, Spot(0, width + 1 + d), width) == Spot(width + 1, d)
  {
    var s, t := Spot(0, width + 1 + d), Spot(width + 1, d);
    hide Spot;
    forall k | 0 <= k < |t|
      ensures PreStage(r, s, width)[k] == t[k]
    {
      assert PrefilterPixel(s, width, 0, r.fe[0x47], k) == At(s, k - width - 1);
    }
  }

  /** The edge filter's leftover: a plain kernel chain shows the same pictures before and after any edge
      filter exactly when its kernel weighs no beat negatively. */
  lemma MagnitudeCarriesOver(b: Board, shift: int, csh: int, call: Call, width: nat, height: nat)
    requires width >= 1 && height >= 1 && b.fe[0x45] % 2 == 0 && Plain(call) && Chained(BLANK, call).Some?
    ensures Chained(b, call).Some? && Chained(EdgesBoard(b, shift, csh), call).Some?
    ensures (forall s :: Shown(Chained(b, call).value, s, width, height) ==
                         Shown(Chained(EdgesBoard(b, shift, csh), call).value, s, width, height))
            <==> NeverNegative(Taps(MidKernel(call.mid).value.coeffs, 9), width, 3)
  {
    hide Selected, Chained, NeverNegative, MidKernel, Taps, ConvStream, Shown, EdgesBoard, Spot, Footprint, PreStage,
         PreCode, PointCode;
    var e := EdgesBoard(b, shift, csh);
    var k := MidKernel(call.mid).value;
    var c := Taps(k.coeffs, 9);
    ChainSucceedsAlike(b, call);
    ChainSucceedsAlike(e, call);
    EdgeRegisters(b, shift, csh);
    if NeverNegative(c, width, 3) {
      forall s
        ensures Shown(Chained(b, call).value, s, width, height) == Shown(Chained(e, call).value, s, width, height)
      {
        ChainForgetsTheBoard(b, e, call, s, width, height);
      }
    } else {
      var d := NegativeBeat(c, width, 3);
      var s, t := Spot(0, width + 1 + d), Spot(width + 1, d);
      PlainRegisters(b, call);
      PlainRegisters(e, call);
      SpotDelayed(Chained(b, call).value, width, d);
      SpotDelayed(Chained(e, call).value, width, d);
      PlainShown(Chained(b, call).value, s, width, height);
      PlainShown(Chained(e, call).value, s, width, height);
      KernelChainShows(b, call, t, width);
      KernelChainShows(e, call, t, width);
      SpotShows(c, width, 3, k.shift % 16, width + 1, d);
      assert Shown(Chained(b, call).value, s, width, height) != Shown(Chained(e, call).value, s, width, height);
    }
  }

  // ---- fully given cascades --------------------------------------------------------------------------

  /** A fully given cascade forgets the board, whichever stage is tapped, if its first kernel weighs no beat
      negatively. */
  lemma CascadeForgets(b: Board, c: Board, s1: Kernel, s2: Passes, s3: Passes, out: int, pre: seq<int>, width: nat)
    requires 13 <= out <= 15 && NeverNegative(Taps(s1.coeffs, 25), width, 5)
    ensures Selected(CascadeBoard(b, Some(s1), Some(s2), Some(s3), out), pre, width) ==
            Selected(CascadeBoard(c, Some(s1), Some(s2), Some(s3), out), pre, width)
  {
    hide Selected, CascadeBoard, ConvStream, RunAll, RunStage, StagesOf, Taps, NeverNegative;
    CascadeShows(b, s1, s2, s3, out, pre, width);
    CascadeShows(c, s1, s2, s3, out, pre, width);
    RectifiedFirstStage(s1, s2, s3, b.fe[0x45] / 2 % 2 == 1, pre, width);
    RectifiedFirstStage(s1, s2, s3, c.fe[0x45] / 2 % 2 == 1, pre, width);
  }

  lemma RectifiedFirstStage(s1: Kernel, s2: Passes, s3: Passes, absf: bool, pre: seq<int>, width: nat)
    requires NeverNegative(Taps(s1.coeffs, 25), width, 5)
    ensures forall n :: 1 <= n <= 3 ==>
      RunAll(StagesOf(s1, s2, s3, absf)[..n], pre, width) == RunAll(StagesOf(s1, s2, s3, false)[..n], pre, width)
  {
    hide ConvStream, RunAll, RunStage, StagesOf, Taps, NeverNegative, PassStage;
    NeverNegativeStream(pre, width, 5, Taps(s1.coeffs, 25), s1.shift % 16, absf);
    StagesAre(s1, s2, s3, absf, pre, width);
    StagesAre(s1, s2, s3, false, pre, width);
    StagePrefixes(StagesOf(s1, s2, s3, absf), pre, width);
    StagePrefixes(StagesOf(s1, s2, s3, false), pre, width);
  }

  lemma FirstTap(b: Board, s1: Kernel, s2: Passes, s3: Passes, pre: seq<int>, width: nat)
    ensures Selected(CascadeBoard(b, Some(s1), Some(s2), Some(s3), 13), pre, width) ==
            ConvStream(pre, width, Taps(s1.coeffs, 25), s1.shift % 16, b.fe[0x45] / 2 % 2 == 1, true, 5)
  {
    hide Selected, CascadeBoard, ConvStream, RunAll, RunStage, StagesOf, Taps;
    CascadeShows(b, s1, s2, s3, 13, pre, width);
    StagesAre(s1, s2, s3, b.fe[0x45] / 2 % 2 == 1, pre, width);
    StagePrefixes(StagesOf(s1, s2, s3, b.fe[0x45] / 2 % 2 == 1), pre, width);
  }

  /** Tapped after its first stage it forgets the board exactly then. */
  lemma CascadeForgetsIff(s1: Kernel, s2: Passes, s3: Passes, width: nat)
    ensures (forall b: Board, c: Board, pre: seq<int> ::
               Selected(CascadeBoard(b, Some(s1), Some(s2), Some(s3), 13), pre, width) ==
               Selected(CascadeBoard(c, Some(s1), Some(s2), Some(s3), 13), pre, width))
            <==> NeverNegative(Taps(s1.coeffs, 25), width, 5)
  {
    hide Selected, CascadeBoard, ConvStream, Taps, NeverNegative;
    if NeverNegative(Taps(s1.coeffs, 25), width, 5) {
      forall b: Board, c: Board, pre: seq<int>
        ensures Selected(CascadeBoard(b, Some(s1), Some(s2), Some(s3), 13), pre, width) ==
                Selected(CascadeBoard(c, Some(s1), Some(s2), Some(s3), 13), pre, width)
      {
        CascadeForgets(b, c, s1, s2, s3, 13, pre, width);
      }
    } else {
      MagnitudeMatters(Taps(s1.coeffs, 25), width, 5, s1.shift % 16);
      var s :| ConvStream(s, width, Taps(s1.coeffs, 25), s1.shift % 16, true, true, 5) !=
               ConvStream(s, width, Taps(s1.coeffs, 25), s1.shift % 16, false, true, 5);
      FirstTap(BLANK, s1, s2, s3, s, width);
      FirstTap(RECTIFYING, s1, s2, s3, s, width);
    }
  }

  // ---- cascade stages that are not given -------------------------------------------------------------

  /** The general 5x5 kernel that passes the window centre. */
  const CENTRE := Kernel(Embedded(IDENTITY.coeffs), 0)

  ghost predicate SameBankAs(f: Page, g: Page, base: int, n: int) {
    forall i :: 0 <= i < 256 && InBank(i, base, n) ==> f[i] == g[i]
  }

  /** A stage that is not given keeps all its registers, kernel and shifts. */
  lemma CascadeKeepsUngivenStages(b: Board, s1: Option<Kernel>, s2: Option<Passes>, s3: Option<Passes>, out: int)
    ensures var r := CascadeBoard(b, s1, s2, s3, out);
      && (s1.None? ==> SameBankAs(r.fe, b.fe, 0x20, 26))
      && (s2.None? ==> SameBankAs(r.fe, b.fe, 0x50, 12))
      && (s3.None? ==> SameBankAs(r.fe, b.fe, 0x60, 12))
  {
    hide Conv5Loaded, SepLoaded;
    var f1 := if s1.None? then b.fe else Conv5Loaded(b.fe, s1.value.coeffs, s1.value.shift);
    var f2 := StageLoaded(f1, 2, s2);
    if s1.Some? { Conv5Decides(b.fe, b.fe, s1.value.coeffs, s1.value.shift); }
    if s2.Some? { SepDecides(f1, f1, 2, s2.value.h, s2.value.v, s2.value.hshift, s2.value.vshift); }
    if s3.Some? { SepDecides(f2, f2, 3, s3.value.h, s3.value.v, s3.value.hshift, s3.value.vshift); }
  }

  /** A kernel fixes its twelve registers. */
  lemma StageFixes(f: Page, g: Page, base: nat, k: Passes)
    requires base + 12 <= 256 && HoldsStage(g, base, k)
    ensures HoldsStage(f, base, k) <==> SameBankAs(f, g, base, 12)
  {
    hide Fit;
    if SameBankAs(f, g, base, 12) {
      assert InBank(base + 5, base, 12) && InBank(base + 11, base, 12);
      forall i | InBank(i, base, 5) ensures f[i] == g[i] { assert InBank(i, base, 12); }
      forall i | InBank(i, base + 6, 5) ensures f[i] == g[i] { assert InBank(i, base, 12); }
    }
    if HoldsStage(f, base, k) {
      forall i | 0 <= i < 256 && InBank(i, base, 12)
        ensures f[i] == g[i]
      {
        assert InBank(i, base, 5) || i == base + 5 || InBank(i, base + 6, 5) || i == base + 11;
      }
    }
  }

  lemma KernelFixes(f: Page, g: Page, k: Kernel)
    requires Holds(g, 0x20, Fit(k.coeffs, 25)) && g[0x39] == k.shift % 16
    ensures (Holds(f, 0x20, Fit(k.coeffs, 25)) && f[0x39] == k.shift % 16) <==> SameBankAs(f, g, 0x20, 26)
  {
    hide Fit;
    if SameBankAs(f, g, 0x20, 26) {
      assert InBank(0x39, 0x20, 26);
      forall i | InBank(i, 0x20, 25) ensures f[i] == g[i] { assert InBank(i, 0x20, 26); }
    }
    if Holds(f, 0x20, Fit(k.coeffs, 25)) && f[0x39] == k.shift % 16 {
      forall i | 0 <= i < 256 && InBank(i, 0x20, 26)
        ensures f[i] == g[i]
      {
        assert InBank(i, 0x20, 25) || i == 0x39;
      }
    }
  }

  /** Two pages that differ in one bank at most, rewritten alike elsewhere, agree if and only if that bank does. */
  lemma AlikeAfter(f: Page, g: Page, f': Page, g': Page, base: int, n: int, other: int, m: int)
    requires Decides(f, g, f', g', other, m) && (other + m <= base || base + n <= other)
    requires forall i :: 0 <= i < 256 && !InBank(i, base, n) ==> f[i] == g[i]
    ensures f' == g' <==> SameBankAs(f, g, base, n)
  {
    if SameBankAs(f, g, base, n) {
      forall i | 0 <= i < 256
        ensures f'[i] == g'[i]
      {
        if InBank(i, base, n) { assert f[i] == g[i]; }
      }
    }
  }

  /** The second stage left out is the identity, as documented, exactly if the identity was loaded before. */
  lemma SecondStageLeftOut(b: Board, s1: Option<Kernel>, s3: Option<Passes>, out: int)
    ensures CascadeBoard(b, s1, None, s3, out) == CascadeBoard(b, s1, Some(THROUGH), s3, out)
            <==> HoldsStage(b.fe, 0x50, THROUGH)
  {
    hide Conv5Loaded, SepLoaded, HoldsStage;
    var f := if s1.None? then b.fe else Conv5Loaded(b.fe, s1.value.coeffs, s1.value.shift);
    var g := SepLoaded(f, 2, THROUGH.h, THROUGH.v, THROUGH.hshift, THROUGH.vshift);
    if s1.Some? { Conv5Decides(b.fe, b.fe, s1.value.coeffs, s1.value.shift); }
    SepDecides(f, f, 2, THROUGH.h, THROUGH.v, THROUGH.hshift, THROUGH.vshift);
    SepLoadedHolds(f, 2, THROUGH);
    StageFixes(b.fe, g, 0x50, THROUGH);
    assert SameBankAs(b.fe, g, 0x50, 12) <==> SameBankAs(f, g, 0x50, 12);
    if s3.Some? { SepDecides(f, g, 3, s3.value.h, s3.value.v, s3.value.hshift, s3.value.vshift); }
    AlikeAfter(f, g, StageLoaded(f, 3, s3), StageLoaded(g, 3, s3), 0x50, 12, 0x60, if s3.Some? then 12 else 0);
  }

  lemma ThirdStageLeftOut(b: Board, s1: Option<Kernel>, s2: Option<Passes>, out: int)
    ensures CascadeBoard(b, s1, s2, None, out) == CascadeBoard(b, s1, s2, Some(THROUGH), out)
            <==> HoldsStage(b.fe, 0x60, THROUGH)
  {
    hide Conv5Loaded, SepLoaded, HoldsStage;
    var f1 := if s1.None? then b.fe else Conv5Loaded(b.fe, s1.value.coeffs, s1.value.shift);
    var f := StageLoaded(f1, 2, s2);
    var g := SepLoaded(f, 3, THROUGH.h, THROUGH.v, THROUGH.hshift, THROUGH.vshift);
    if s1.Some? { Conv5Decides(b.fe, b.fe, s1.value.coeffs, s1.value.shift); }
    if s2.Some? { SepDecides(f1, f1, 2, s2.value.h, s2.value.v, s2.value.hshift, s2.value.vshift); }
    SepDecides(f, f, 3, THROUGH.h, THROUGH.v, THROUGH.hshift, THROUGH.vshift);
    SepLoadedHolds(f, 3, THROUGH);
    StageFixes(b.fe, g, 0x60, THROUGH);
    assert SameBankAs(b.fe, g, 0x60, 12) <==> SameBankAs(f, g, 0x60, 12);
    AlikeAfter(f, g, f, g, 0x60, 12, 0, 0);
  }

  lemma FirstStageLeftOut(b: Board, s2: Option<Passes>, s3: Option<Passes>, out: int)
    ensures CascadeBoard(b, None, s2, s3, out) == CascadeBoard(b, Some(CENTRE), s2, s3, out)
            <==> Holds(b.fe, 0x20, Fit(CENTRE.coeffs, 25)) && b.fe[0x39] == 0
  {
    hide Conv5Loaded, SepLoaded, Holds, Fit;
    var f, g := b.fe, Conv5Loaded(b.fe, CENTRE.coeffs, CENTRE.shift);
    Conv5Decides(f, f, CENTRE.coeffs, CENTRE.shift);
    Conv5LoadedHolds(f, CENTRE.coeffs, CENTRE.shift);
    KernelFixes(f, g, CENTRE);
    var f2, g2 := StageLoaded(f, 2, s2), StageLoaded(g, 2, s2);
    if s2.Some? { SepDecides(f, g, 2, s2.value.h, s2.value.v, s2.value.hshift, s2.value.vshift); }
    if s3.Some? { SepDecides(f2, g2, 3, s3.value.h, s3.value.v, s3.value.hshift, s3.value.vshift); }
    AlikeAfter(f2, g2, StageLoaded(f2, 3, s3), StageLoaded(g2, 3, s3), 0x20, 26, 0x60, if s3.Some? then 12 else 0) by {
      assert forall i :: 0 <= i < 256 && !InBank(i, 0x20, 26) ==> f2[i] == g2[i];
    }
    assert SameBankAs(f2, g2, 0x20, 26) <==> SameBankAs(f, g, 0x20, 26);
  }

  /** The failing use: after a 13x13 blur, a cascade that gives only its first stage still shows the two
      Gaussian stages behind it. */
  lemma BlurStaysInCascade(b: Board, s1: Kernel, out: int, pre: seq<int>, width: int)
    requires 13 <= out <= 15
    ensures Selected(CascadeBoard(BlurBoard(b, 13), Some(s1), None, None, out), pre, width) ==
            RunAll(StagesOf(s1, GAUSS, GAUSS, b.fe[0x45] / 2 % 2 == 1)[..out - 12], pre, width)
  {
    hide Selected, RunAll, StagesOf, BlurBoard, CascadeBoard;
    BlurIsCascadeCall(b, 13);
    CascadeOverwrites(b, Kernel(GEN25, 8), GAUSS, GAUSS, 15, s1, out);
    CascadeShows(b, s1, GAUSS, GAUSS, out, pre, width);
  }

  /** A later first stage replaces an earlier one and leaves the rest of the cascade. */
  lemma CascadeOverwrites(b: Board, k: Kernel, s2: Passes, s3: Passes, o: int, s1: Kernel, out: int)
    ensures CascadeBoard(CascadeBoard(b, Some(k), Some(s2), Some(s3), o), Some(s1), None, None, out) ==
            CascadeBoard(b, Some(s1), Some(s2), Some(s3), out)
  {
    hide Conv5Loaded, SepLoaded;
    var f1, g1 := Conv5Loaded(b.fe, k.coeffs, k.shift), Conv5Loaded(b.fe, s1.coeffs, s1.shift);
    var f2, g2 := SepLoaded(f1, 2, s2.h, s2.v, s2.hshift, s2.vshift), SepLoaded(g1, 2, s2.h, s2.v, s2.hshift, s2.vshift);
    var f3, g3 := SepLoaded(f2, 3, s3.h, s3.v, s3.hshift, s3.vshift), SepLoaded(g2, 3, s3.h, s3.v, s3.hshift, s3.vshift);
    var f4 := Conv5Loaded(f3, s1.coeffs, s1.shift);
    Conv5Decides(b.fe, b.fe, k.coeffs, k.shift);
    SepDecides(f1, g1, 2, s2.h, s2.v, s2.hshift, s2.vshift);
    SepDecides(f2, g2, 3, s3.h, s3.v, s3.hshift, s3.vshift);
    Conv5Decides(b.fe, b.fe, s1.coeffs, s1.shift);
    Conv5Decides(f3, b.fe, s1.coeffs, s1.shift);
    forall i | 0 <= i < 256
      ensures f4[i] == g3[i]
    {
      assert InBank(i, 0x20, 26) || InBank(i, 0x50, 12) || InBank(i, 0x60, 12)
          || (!InBank(i, 0x20, 26) && !InBank(i, 0x50, 12) && !InBank(i, 0x60, 12));
    }
    assert f4 == g3;
  }

  // What the two kernels do to a picture.

  /** The separable identity delays by two rows and two columns. */
  lemma ThroughIsDelay(s: seq<int>, width: nat, k: nat)
    requires k < |s| && forall j :: 0 <= j < |s| ==> IsPixel(s[j])
    ensures RunStage(PassStage(THROUGH), s, width)[k] == At(s, k - 2 * width - 2)
  {
    hide SepPixel, Taps, Ch;
    TapsOfSigned(SEP_IDENTITY);
    ThroughLane(s, width, k, 2);
    ThroughLane(s, width, k, 1);
    ThroughLane(s, width, k, 0);
    SepIsLanes(s, width, SEP_IDENTITY, SEP_IDENTITY, 0, 0, k);
    LanesRebuild(At(s, k - 2 * width - 2));
  }

  lemma SepIsLanes(s: seq<int>, width: int, h: seq<int>, v: seq<int>, hs: nat, vs: nat, k: int)
    requires |h| == 5 && |v| == 5
    ensures SepPixel(s, width, h, v, hs, vs, k) ==
            Rgb(SepChannel(s, width, h, v, hs, vs, 2, k), SepChannel(s, width, h, v, hs, vs, 1, k),
                SepChannel(s, width, h, v, hs, vs, 0, k))
  {
    hide SepChannel;
  }

  lemma Unshifted(v: int)
    ensures Shr(v, 0) == v
  {
  }

  lemma ThroughRow(s: seq<int>, sel: nat, j: int)
    ensures HOut(s, SEP_IDENTITY, 0, sel, j) == Ch(At(s, j - 2), sel)
  {
    hide Ch, Dot, Shr, Pow2;
    var row := Tail(s, sel, 5, j);
    Dot5(SEP_IDENTITY, row);
    Unshifted(row[2]);
  }

  lemma ThroughLane(s: seq<int>, width: int, k: int, sel: nat)
    ensures SepChannel(s, width, SEP_IDENTITY, SEP_IDENTITY, 0, 0, sel, k) == Ch(At(s, k - 2 * width - 2), sel)
  {
    hide Ch, Dot, Shr, Pow2, HOut;
    var col := HColumn(s, width, SEP_IDENTITY, 0, sel, k);
    Dot5(SEP_IDENTITY, col);
    Unshifted(col[2]);
    ThroughRow(s, sel, k - 2 * width);
  }

  /** A white beat and a dark one, on rows of one column. */
  const PAIR: seq<int> := [0xFF_FFFF, 0]

  /** The Gaussian stage shows some of the white beat where the identity stage shows nothing. */
  lemma GaussIsNotThrough()
    ensures RunStage(PassStage(GAUSS), PAIR, 1)[1] != RunStage(PassStage(THROUGH), PAIR, 1)[1]
  {
    hide SepPixel, Taps, Ch, SepChannel;
    var s := PAIR;
    TapsOfSigned(G5);
    ThroughIsDelay(s, 1, 1);
    GaussLane(0);
    SepLanes(s, 1, G5, G5, 4, 4, 1);
    ZeroLanes(0);
  }

  lemma GaussLane(sel: nat)
    requires sel < 3
    ensures SepChannel(PAIR, 1, G5, G5, 4, 4, sel, 1) == 7
  {
    hide Ch, Dot, Pow2;
    var s := PAIR;
    PlainLanes(sel);
    FourBits();
    Dot5(G5, Tail(s, sel, 5, 1));
    Dot5(G5, Tail(s, sel, 5, 0));
    Dot5(G5, Tail(s, sel, 5, -1));
    Dot5(G5, Tail(s, sel, 5, -2));
    Dot5(G5, Tail(s, sel, 5, -3));
    Dot5(G5, HColumn(s, 1, G5, 4, sel, 1));
  }

  lemma FourBits()
    ensures Pow2(4) == 16
  {
    assert Pow2(2) == 4;
  }

  /** A first stage that passes the newest beat. */
  const NEWEST := Kernel(seq(25, i => if i == 24 then 1 else 0), 0)

  lemma NewestTaps()
    ensures Taps(NEWEST.coeffs, 25) == NEWEST.coeffs && NonNegative(NEWEST.coeffs) && UnitTap(NEWEST.coeffs, 24)
  {
    TapsOfSigned(NEWEST.coeffs);
  }

  lemma NewestStream(coeffs: seq<int>)
    requires |coeffs| == 25 && UnitTap(coeffs, 24)
    ensures ConvStream(PAIR, 1, coeffs, 0, false, true, 5) == PAIR
  {
    hide ConvPixel, UnitTap;
    forall k | 0 <= k < 2
      ensures ConvStream(PAIR, 1, coeffs, 0, false, true, 5)[k] == PAIR[k]
    {
      UnitKernelIsDelay(PAIR, 1, 5, coeffs, false, 4, 4, k);
    }
  }

  lemma NewestPasses(s2: Passes, s3: Passes)
    ensures NonNegative(Taps(NEWEST.coeffs, 25))
    ensures RunAll(GivenStages(NEWEST, s2, s3)[..1], PAIR, 1) == PAIR
  {
    hide Taps, ConvStream, RunAll, PassStage, GivenStages, RunStage, UnitTap, NonNegative;
    NewestTaps();
    NewestStream(NEWEST.coeffs);
    StagePrefixes(GivenStages(NEWEST, s2, s3), PAIR, 1);
    FirstStage(NEWEST, s2, s3, PAIR, 1);
  }

  /** The same failing use as pictures: the stages left out after the blur are not the identity. */
  lemma LeftOutShows(b: Board)
    ensures Selected(CascadeBoard(BlurBoard(b, 13), Some(NEWEST), None, None, 14), PAIR, 1) !=
            Selected(CascadeBoard(BlurBoard(b, 13), Some(NEWEST), Some(THROUGH), Some(THROUGH), 14), PAIR, 1)
  {
    hide Selected, RunAll, RunStage, GivenStages, StagesOf, PassStage, BlurBoard, Taps, NonNegative, CascadeBoard;
    var g, t := GivenStages(NEWEST, GAUSS, GAUSS), GivenStages(NEWEST, THROUGH, THROUGH);
    NewestPasses(GAUSS, GAUSS);
    NewestPasses(THROUGH, THROUGH);
    BlurStaysInCascade(b, NEWEST, 14, PAIR, 1);
    StagesAlike(NEWEST, GAUSS, GAUSS, b.fe[0x45] / 2 % 2 == 1, 2, PAIR, 1);
    CascadeIsSeries(BlurBoard(b, 13), NEWEST, THROUGH, THROUGH, 14, PAIR, 1);
    StagePrefixes(g, PAIR, 1);
    StagePrefixes(t, PAIR, 1);
    LaterStages(NEWEST, GAUSS, GAUSS);
    LaterStages(NEWEST, THROUGH, THROUGH);
    GaussIsNotThrough();
  }
}
