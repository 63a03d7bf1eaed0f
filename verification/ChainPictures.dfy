/** What a chain call shows, request by request: pre-filter, middle filter, post operation and dither as asked
    for, each with its own threshold, in terms of the golden models; and the names a chain understands. */
module ChainPictures {
  import opened Arithmetic
  import opened Options
  import opened Pixels
  import opened Windows
  import opened Convolution
  import opened ConvolutionLaws
  import opened Separable
  import opened SeparableLaws
  import opened Cascade
  import opened Dog
  import opened Prefilter
  import Dither
  import opened FilterRegisters
  import opened FilterChain
  import opened FilterChainLaws
  import opened FilterPictures
  import opened ChainHistory

  // ---- the frame of a chain ------------------------------------------------------------------------

  lemma CodesKnown(b: Board, call: Call)
    requires Chained(b, call).Some?
    ensures PreCode(call.pre).Some? && PointCode(call.post).Some?
  {
    hide PreCode, PointCode, Middle;
  }

  /** The registers around the middle filter. */
  lemma ChainRegisters(b: Board, call: Call)
    requires Chained(b, call).Some?
    ensures var r := Chained(b, call).value;
      && r.fe[0x47] == call.preThresh % 256 && r.fe[0x48] == PointCode(call.post).value
      && r.fe[0x49] == call.postThresh % 256 && r.fe[0x4A] == DitherFor(call.dither) % 256
      && (if IsNone(call.mid) && PreCode(call.pre).value < 8 then r.op == PreCode(call.pre).value
          else 8 <= r.op < 16 && r.fe[0x46] == PreCode(call.pre).value)
  {
    hide MidBoard, KernelBoard, PreCode, PointCode, IsNone, DitherFor, SelectsEdges;
    var pc, qc := PreCode(call.pre).value, PointCode(call.post).value;
    var ob := Put(Opened(b, call, qc), 0x46, pc);
    FourRegisters(b, call, qc, pc);
    if IsNone(call.mid) {
      KernelAgrees(ob, ob, IDENTITY);
      KernelSelect(ob, IDENTITY);
      FrameKept(ob, KernelBoard(ob, IDENTITY));
    } else {
      MiddlesAgree(ob, ob, call.mid);
      FrameKept(ob, MidBoard(ob, call.mid).value);
    }
  }

  lemma FourRegisters(b: Board, call: Call, qc: int, pc: int)
    requires 0 <= qc < 8 && 0 <= pc < 16
    ensures var r := Put(Opened(b, call, qc), 0x46, pc);
      && r.fe[0x46] == pc && r.fe[0x47] == call.preThresh % 256 && r.fe[0x48] == qc && r.fe[0x49] == call.postThresh % 256
  {
  }

  lemma FrameKept(b: Board, r: Board)
    requires forall i :: InBank(i, 0x46, 5) ==> r.fe[i] == b.fe[i]
    ensures r.fe[0x46] == b.fe[0x46] && r.fe[0x47] == b.fe[0x47] && r.fe[0x48] == b.fe[0x48] && r.fe[0x49] == b.fe[0x49]
  {
    assert InBank(0x46, 0x46, 5) && InBank(0x47, 0x46, 5) && InBank(0x48, 0x46, 5) && InBank(0x49, 0x46, 5);
  }

  /** The picture of a board by the registers around the middle filter. */
  lemma FrameShows(r: Board, pc: nat, pt: int, qc: nat, qt: int, d: int, s: seq<int>, width: nat, height: nat)
    requires width >= 1 && height >= 1 && pc < 16 && qc < 8 && 0 <= d < 256
    requires if r.op >= 8 then r.fe[0x46] == pc else r.op == pc
    requires r.fe[0x47] == pt && r.fe[0x48] == qc && r.fe[0x49] == qt && r.fe[0x4A] == d
    ensures Shown(r, s, width, height) ==
            Dither.DitherStream(ProcSlot(Selected(r, PrefilterStream(s, width, pc, pt), width), qc, qt), width, height, d)
  {
    hide Selected, PrefilterStream, ProcSlot, Dither.DitherStream;
    SmallCode(pc, 16);
    SmallCode(qc, 8);
    SmallCode(d, 256);
  }

  lemma ChainFrame(b: Board, call: Call, s: seq<int>, width: nat, height: nat)
    requires width >= 1 && height >= 1 && Chained(b, call).Some?
    ensures var pre := PrefilterStream(s, width, PreCode(call.pre).value, call.preThresh % 256);
      Shown(Chained(b, call).value, s, width, height) ==
      Dither.DitherStream(ProcSlot(Selected(Chained(b, call).value, pre, width), PointCode(call.post).value,
                                   call.postThresh % 256), width, height, DitherFor(call.dither) % 256)
  {
    hide Chained, PreCode, PointCode, IsNone, DitherFor, Selected, PrefilterStream, ProcSlot, Shown, Dither.DitherStream;
    CodesKnown(b, call);
    ChainRegisters(b, call);
    FrameShows(Chained(b, call).value, PreCode(call.pre).value, call.preThresh % 256, PointCode(call.post).value,
               call.postThresh % 256, DitherFor(call.dither) % 256, s, width, height);
  }

  lemma SmallCode(x: int, m: nat)
    requires 0 <= x < m
    ensures x % m == x
  {
  }

  // ---- the middle ------------------------------------------------------------------------------------

  /** The golden model of a middle filter, on a board whose magnitude register holds mag. Without one, a denoising
      pre-filter goes through the identity kernel and a point operation through a disabled convolution. */
  function GoldenMiddle(mid: Mid, pc: int, mag: int, pre: seq<int>, width: int): (out: seq<int>) {
    if IsNone(mid) then
      if pc >= 8 then ConvStream(pre, width, [0, 0, 0, 0, 1, 0, 0, 0, 0], 0, mag % 2 == 1, true, 3)
      else ConvStream(pre, width, [], 0, false, false, 3)
    else if SelectsEdges(mid) then
      var shift := if mid.Edges? && mid.edgeShift.Some? then mid.edgeShift.value else 2;
      DogStream(ConvStream(pre, width, [-1, 0, 1, -2, 0, 2, -1, 0, 1], shift % 16, true, true, 3),
                ConvStream(pre, width, Embedded([-1, -2, -1, 0, 0, 0, 1, 2, 1]), shift % 16, true, true, 5), 3, 1, 1, 0, 0)
    else if MidKernel(mid).Some? then
      var k := MidKernel(mid).value;
      ConvStream(pre, width, Taps(k.coeffs, 9), k.shift % 16, mag % 2 == 1, true, 3)
    else
      match mid
      case DogByName(preset) =>
        if preset == "blob" then DogChain(pre, width, [1, 2, 1, 2, 4, 2, 1, 2, 1], 4, GEN25, 8, 2, 1, 1, 0, 128)
        else if preset == "unsharp" then DogChain(pre, width, [0, 0, 0, 0, 1, 0, 0, 0, 0], 0, GEN25, 8, 2, 2, 1, 0, 0)
        else []
      case Blur(size) =>
        BlurStages(size);
        RunAll(SHIPPED[..if size < 9 then 1 else if size < 13 then 2 else 3], pre, width)
      case _ => []
  }

  /** The board a chain configures its middle filter on: the magnitude register is as it was. */
  lemma MiddleBoard(b: Board, call: Call, pre: seq<int>, width: int) returns (ob: Board)
    requires Chained(b, call).Some? && !IsNone(call.mid)
    ensures MidBoard(ob, call.mid).Some? && ob.fe[0x45] == b.fe[0x45]
    ensures Selected(Chained(b, call).value, pre, width) == Selected(MidBoard(ob, call.mid).value, pre, width)
  {
    hide Selected, MidBoard, PreCode, PointCode, IsNone, DitherFor, Bank;
    var pc, qc := PreCode(call.pre).value, PointCode(call.post).value;
    ob := Put(Opened(b, call, qc), 0x46, pc);
    ChainedMidway(b, call);
    MiddlesAgree(ob, ob, call.mid);
    SelectedIgnores(MidBoard(ob, call.mid).value, 0x4A, DitherFor(call.dither), pre, width);
  }

  lemma EdgesGolden(b: Board, shift: int, pre: seq<int>, width: int)
    ensures Selected(EdgesBoard(b, shift, 0), pre, width) ==
            DogStream(ConvStream(pre, width, [-1, 0, 1, -2, 0, 2, -1, 0, 1], shift % 16, true, true, 3),
                      ConvStream(pre, width, Embedded([-1, -2, -1, 0, 0, 0, 1, 2, 1]), shift % 16, true, true, 5), 3, 1, 1, 0, 0)
  {
    hide EdgesBoard, ConvStream, Embedded, BranchA, BranchB, Holds, DogStream, Selected;
    var r := EdgesBoard(b, shift, 0);
    EdgeRegisters(b, shift, 0);
    EdgeBranchA(r, pre, width, shift % 16);
    EdgeBranchB(r, pre, width, shift % 16);
    DogSelected(r, 3, 0, pre, width);
  }

  lemma PresetGolden(b: Board, name: string, pre: seq<int>, width: int)
    requires DogNamed(name).Some?
    ensures var p := DogNamed(name).value;
      Selected(DogBoard(b, p.small, Kernel(GEN25, 8), p), pre, width) ==
      if name == "blob" then DogChain(pre, width, [1, 2, 1, 2, 4, 2, 1, 2, 1], 4, GEN25, 8, 2, 1, 1, 0, 128)
      else DogChain(pre, width, [0, 0, 0, 0, 1, 0, 0, 0, 0], 0, GEN25, 8, 2, 2, 1, 0, 0)
  {
    hide Selected, DogBoard, DogChain, Taps, NonNegative, GEN25;
    var p := DogNamed(name).value;
    PresetTaps(name);
    TapsOfSigned(p.small.coeffs);
    GaussianTaps();
    DogIsChain(b, p.small, Kernel(GEN25, 8), p, pre, width);
  }

  lemma MiddleGolden(b: Board, call: Call, pre: seq<int>, width: int)
    requires Chained(b, call).Some? && !IsNone(call.mid)
    ensures Selected(Chained(b, call).value, pre, width) ==
            GoldenMiddle(call.mid, PreCode(call.pre).value, b.fe[0x45], pre, width)
  {
    hide Selected, Chained, EdgesBoard, DogBoard, BlurBoard, KernelBoard, KernelNamed, Lower, ConvStream, DogStream,
         DogChain, RunAll, Taps, PreCode, SHIPPED, Embedded, Stages, GEN25;
    CodesKnown(b, call);
    var ob := MiddleBoard(b, call, pre, width);
    match call.mid
    case MidName(name) =>
      if SelectsEdges(call.mid) {
        EdgesGolden(ob, 2, pre, width);
      } else {
        KernelChainShows(b, call, pre, width);
      }
    case Edges(shift) => EdgesGolden(ob, if shift.Some? then shift.value else 2, pre, width);
    case KernelByName(kernel) => KernelChainShows(b, call, pre, width);
    case KernelCustom(coeffs, shift) => KernelChainShows(b, call, pre, width);
    case DogByName(preset) => PresetGolden(ob, preset, pre, width);
    case Blur(size) => BlurGolden(ob, size, pre, width);
    case _ => assert false;
  }

  lemma BlurGolden(b: Board, size: int, pre: seq<int>, width: int)
    ensures AllWellFormed(SHIPPED)
    ensures Selected(BlurBoard(b, size), pre, width) ==
            RunAll(SHIPPED[..if size < 9 then 1 else if size < 13 then 2 else 3], pre, width)
  {
    hide Selected, BlurBoard, RunAll, SHIPPED;
    BlurIsCascade(b, size, pre, width);
  }

  lemma NoMiddleGolden(b: Board, call: Call, pre: seq<int>, width: int)
    requires Chained(b, call).Some? && IsNone(call.mid)
    ensures Selected(Chained(b, call).value, pre, width) ==
            GoldenMiddle(call.mid, PreCode(call.pre).value, b.fe[0x45], pre, width)
  {
    hide Selected, KernelBoard, PreCode, PointCode, IsNone, DitherFor, Bank, ConvStream, Opened;
    var pc, qc := PreCode(call.pre).value, PointCode(call.post).value;
    ChainedMidway(b, call);
    if pc >= 8 {
      var ob := Put(Opened(b, call, qc), 0x46, pc);
      KernelSelect(ob, IDENTITY);
      SelectedIgnores(KernelBoard(ob, IDENTITY), 0x4A, DitherFor(call.dither), pre, width);
      KernelIsConv(ob, IDENTITY, pre, width);
      TapsOfSigned(IDENTITY.coeffs);
      MagnitudeKept(b, call, qc, pc);
    } else {
      DisabledGolden(Chained(b, call).value, pre, width);
    }
  }

  lemma MagnitudeKept(b: Board, call: Call, qc: int, pc: int)
    ensures Put(Opened(b, call, qc), 0x46, pc).fe[0x45] == b.fe[0x45]
  {
  }

  lemma DisabledGolden(r: Board, pre: seq<int>, width: int)
    requires 0 <= r.op < 8
    ensures Selected(r, pre, width) == ConvStream(pre, width, [], 0, false, false, 3)
  {
    hide BranchB, SepStage, DogStream, Bank;
  }

  /** The whole picture of every chain that succeeds: the stream pre-filtered by the pre request with the pre
      threshold, the golden middle filter, the post request with the post threshold, and the dither asked for. */
  lemma ChainPicture(b: Board, call: Call, s: seq<int>, width: nat, height: nat)
    requires width >= 1 && height >= 1 && Chained(b, call).Some?
    ensures var pre := PrefilterStream(s, width, PreCode(call.pre).value, call.preThresh % 256);
      var mid := GoldenMiddle(call.mid, PreCode(call.pre).value, b.fe[0x45], pre, width);
      Shown(Chained(b, call).value, s, width, height) ==
      Dither.DitherStream(ProcSlot(mid, PointCode(call.post).value, call.postThresh % 256), width, height,
                          DitherFor(call.dither) % 256)
  {
    hide Chained, PreCode, PointCode, IsNone, DitherFor, Selected, PrefilterStream, ProcSlot, GoldenMiddle, Shown;
    CodesKnown(b, call);
    var pre := PrefilterStream(s, width, PreCode(call.pre).value, call.preThresh % 256);
    ChainFrame(b, call, s, width, height);
    if IsNone(call.mid) {
      NoMiddleGolden(b, call, pre, width);
    } else {
      MiddleGolden(b, call, pre, width);
    }
  }

  /** Without a middle filter the pre-filtered stream itself comes through, a row and a column later. */
  lemma NoMiddleDelays(mid: Mid, pc: int, mag: int, pre: seq<int>, width: nat, k: nat)
    requires IsNone(mid) && k < |pre| && forall j :: 0 <= j < |pre| ==> IsPixel(pre[j])
    ensures |GoldenMiddle(mid, pc, mag, pre, width)| == |pre|
    ensures GoldenMiddle(mid, pc, mag, pre, width)[k] == At(pre, k - width - 1)
  {
    hide IsNone, ConvPixel;
    if pc >= 8 {
      UnitKernelIsDelay(pre, width, 3, [0, 0, 0, 0, 1, 0, 0, 0, 0], mag % 2 == 1, 1, 1, k);
    } else {
      DisabledIsDelay(pre, width, [], 0, false, 3, k);
    }
  }

  // ---- what a chain understands --------------------------------------------------------------------------

  /** Names are read without regard to case. */
  lemma LowerReads(s: string)
    ensures Lower("ABCDEFGHIJKLMNOPQRSTUVWXYZ") == "abcdefghijklmnopqrstuvwxyz"
    ensures (forall i :: 0 <= i < |s| ==> !('A' <= s[i] <= 'Z')) ==> Lower(s) == s
  {
    if forall i :: 0 <= i < |s| ==> !('A' <= s[i] <= 'Z') {
      assert Lower(s) == s;
    }
  }

  /** Every name of a point operation, in lower case, with its code; no others. */
  lemma PointNames(s: string)
    ensures PointName("pass") == PointName("none") == PointName("off") == PointName("colour") == PointName("color") == Some(0)
    ensures PointName("invert") == Some(1) && PointName("gray") == PointName("grey") == Some(2) && PointName("bgr") == Some(3)
    ensures PointName("thresh") == PointName("threshold") == PointName("binarize") == PointName("binary") == Some(4)
    ensures PointName("r") == PointName("red") == Some(5) && PointName("g") == PointName("green") == Some(6)
    ensures PointName("b") == PointName("blue") == Some(7)
    ensures PointName(s).Some? ==>
      s in ["pass", "none", "off", "colour", "color", "invert", "gray", "grey", "bgr", "thresh", "threshold", "binarize",
            "binary", "r", "red", "g", "green", "b", "blue"]
  {
  }

  /** The pre-filter understands the same and four names of its two denoisers. */
  lemma PreNames(s: string)
    ensures PreName("gaussian") == PreName("gauss") == Some(8) && PreName("median") == PreName("med") == Some(9)
    ensures s !in ["gaussian", "gauss", "median", "med"] ==> PreName(s) == PointName(s)
    ensures PointName("gaussian").None? && PointName("gauss").None? && PointName("median").None? && PointName("med").None?
  {
  }

  /** Numbers are cut to three bits for the post operation and to four for the pre-filter, nothing is 0. */
  lemma CodesAsNumbers(v: int)
    ensures exists m :: PointCode(Code(v)) == Some(v - 8 * m) && 0 <= v - 8 * m < 8
    ensures exists m :: PreCode(Code(v)) == Some(v - 16 * m) && 0 <= v - 16 * m < 16
    ensures PointCode(Unset) == PreCode(Unset) == Some(0)
  {
    assert v - 8 * (v / 8) == v % 8 && v - 16 * (v / 16) == v % 16;
  }

  /** A 3x3 kernel that is the same in all directions. */
  function Round3(corner: int, edge: int, centre: int): seq<int> {
    [corner, edge, corner, edge, centre, edge, corner, edge, corner]
  }

  /** The named kernels: six are the same in all directions, the Sobel pair are each other's transpose, emboss
      is odd about a centre of one; every other name is refused. */
  lemma KernelTable(name: string)
    ensures KernelNamed("identity") == Some(Kernel(Round3(0, 0, 1), 0))
    ensures KernelNamed("gaussian") == Some(Kernel(Round3(1, 2, 4), 4))
    ensures KernelNamed("sharpen") == Some(Kernel(Round3(0, -1, 5), 0))
    ensures KernelNamed("sharpen_hi") == Some(Kernel(Round3(-1, -1, 9), 0))
    ensures KernelNamed("laplacian") == Some(Kernel(Round3(0, -1, 4), 0))
    ensures KernelNamed("outline") == Some(Kernel(Round3(-1, -1, 8), 0))
    ensures KernelNamed("sobel_x") == Some(Kernel([-1, 0, 1, -2, 0, 2, -1, 0, 1], 0))
    ensures KernelNamed("sobel_y") == Some(Kernel([-1, -2, -1, 0, 0, 0, 1, 2, 1], 0))
    ensures KernelNamed("emboss") == Some(Kernel([-2, -1, 0, -1, 1, 1, 0, 1, 2], 0))
    ensures KernelNamed(name).Some? ==>
      name in ["identity", "gaussian", "sharpen", "sharpen_hi", "laplacian", "outline", "sobel_x", "sobel_y", "emboss"]
  {
  }

  /** A middle filter a chain can configure. */
  predicate Known(mid: Mid) {
    match mid
    case NoMid => true
    case MidName(name) => IsNone(mid) || Lower(name) == "edges" || KernelNamed(name).Some?
    case Edges(_) => true
    case KernelByName(kernel) => KernelNamed(kernel).Some?
    case KernelCustom(_, _) => true
    case DogByName(preset) => preset == "blob" || preset == "unsharp"
    case Blur(_) => true
    case OtherTuple => false
  }

  /** A chain succeeds exactly if both operations and the middle filter are known, on every board. */
  lemma ChainAccepts(b: Board, call: Call)
    ensures Chained(b, call).Some? <==> PreCode(call.pre).Some? && PointCode(call.post).Some? && Known(call.mid)
  {
    hide PreCode, PointCode, KernelNamed, Lower, EdgesBoard, BlurBoard, KernelBoard, DogBoard, Opened, DitherFor;
  }

  /** What a refused chain leaves: the board as it was if an operation is unknown; the four registers in front of
      the middle filter, and nothing else, if that is. */
  lemma RefusedRegisters(b: Board, call: Call)
    requires Chained(b, call).None?
    ensures var r := Refused(b, call);
      if PreCode(call.pre).None? || PointCode(call.post).None? then r == b
      else
        && r.op == b.op && r.fe[0x46] == PreCode(call.pre).value && r.fe[0x47] == call.preThresh % 256
        && r.fe[0x48] == PointCode(call.post).value && r.fe[0x49] == call.postThresh % 256
        && forall i :: 0 <= i < 256 && !InBank(i, 0x46, 4) ==> r.fe[i] == b.fe[i]
  {
    hide PreCode, PointCode, Chained;
  }

  /** What is asked of the ditherer is what its fields say: off for nothing and for 0; otherwise on, the depth
      modulo 8, random for a mode that begins with "rand". */
  lemma DitherAsked(d: FilterChain.Dither)
    ensures var ctrl := DitherFor(d) % 256;
      && (Dither.Enabled(ctrl) <==> d.BitsMode? || (d.Bits? && d.n != 0))
      && (Dither.RandomMode(ctrl) <==> d.BitsMode? && d.mode.Some? && StartsWithRand(d.mode.value))
      && (d.Bits? && d.n != 0 ==> Dither.Depth(ctrl) == d.n % 8)
      && (d.BitsMode? ==> Dither.Depth(ctrl) == d.bits % 8)
  {
    hide DitherByte, StartsWithRand, Dither.Enabled, Dither.RandomMode, Dither.Depth;
    match d
    case NoDither => AskedByte(false, false, 1);
    case Bits(n) => AskedByte(false, false, 1); AskedByte(true, false, n);
    case BitsMode(bits, mode) => AskedByte(true, mode.Some? && StartsWithRand(mode.value), bits);
  }

  lemma AskedByte(enable: bool, random: bool, bits: int)
    ensures var ctrl := DitherByte(enable, random, bits) % 256;
      (Dither.Enabled(ctrl) <==> enable) && (Dither.RandomMode(ctrl) <==> random) && Dither.Depth(ctrl) == bits % 8
  {
    hide DitherByte, Dither.Enabled, Dither.RandomMode, Dither.Depth;
    DitherFields(enable, random, bits);
    SmallCode(DitherByte(enable, random, bits), 256);
  }

  lemma RandomModes()
    ensures StartsWithRand("random") && StartsWithRand("RAND") && !StartsWithRand("ordered") && !StartsWithRand("ran")
  {
    assert Lower("random")[..4] == "rand" && Lower("RAND")[..4] == "rand";
    assert Lower("ordered")[0] == 'o';
  }
}
