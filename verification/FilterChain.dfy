/** The filter-chain configurator: the loaders and `chain`, as a sequence of register writes on one board. */
module FilterChain {
  import opened Options
  import opened ConvolutionLaws
  import opened SeparableLaws
  import Prefilter
  import opened FilterRegisters

  // ---- names ----------------------------------------------------------------------------------

  function Lower(s: string): (r: string)
    ensures |r| == |s|
  {
    seq(|s|, i requires 0 <= i < |s| => if 'A' <= s[i] <= 'Z' then s[i] + 32 as char else s[i])
  }

  /** Point-operation names. */
  function PointName(s: string): Option<int> {
    if s in {"pass", "none", "off", "colour", "color"} then Some(0)
    else if s == "invert" then Some(1)
    else if s in {"gray", "grey"} then Some(2)
    else if s == "bgr" then Some(3)
    else if s in {"thresh", "threshold", "binarize", "binary"} then Some(4)
    else if s in {"r", "red"} then Some(5)
    else if s in {"g", "green"} then Some(6)
    else if s in {"b", "blue"} then Some(7)
    else None
  }

  /** Pre-filter names: the point operations and the two 3x3 denoisers. */
  function PreName(s: string): Option<int> {
    if s in {"gaussian", "gauss"} then Some(8)
    else if s in {"median", "med"} then Some(9)
    else PointName(s)
  }

  datatype OpSpec = Unset | Code(v: int) | Name(s: string)

  function PointCode(spec: OpSpec): (r: Option<int>)
    ensures r.Some? ==> 0 <= r.value < 8
  {
    match spec
    case Unset => Some(0)
    case Code(v) => Some(v % 8)
    case Name(s) => PointName(Lower(s))
  }

  function PreCode(spec: OpSpec): (r: Option<int>)
    ensures r.Some? ==> 0 <= r.value < 16
  {
    match spec
    case Unset => Some(0)
    case Code(v) => Some(v % 16)
    case Name(s) => PreName(Lower(s))
  }

  datatype Kernel = Kernel(coeffs: seq<int>, shift: int)

  const IDENTITY := Kernel([0, 0, 0, 0, 1, 0, 0, 0, 0], 0)
  const GAUSSIAN := Kernel(Prefilter.GAUSS3, 4)
  const SOBEL_X: seq<int> := [-1, 0, 1, -2, 0, 2, -1, 0, 1]
  const SOBEL_Y: seq<int> := [-1, -2, -1, 0, 0, 0, 1, 2, 1]
  const SEP_IDENTITY: seq<int> := [0, 0, 1, 0, 0]

  function KernelNamed(name: string): Option<Kernel> {
    if name == "identity" then Some(IDENTITY)
    else if name == "gaussian" then Some(GAUSSIAN)
    else if name == "sharpen" then Some(Kernel([0, -1, 0, -1, 5, -1, 0, -1, 0], 0))
    else if name == "sharpen_hi" then Some(Kernel([-1, -1, -1, -1, 9, -1, -1, -1, -1], 0))
    else if name == "sobel_x" then Some(Kernel(SOBEL_X, 0))
    else if name == "sobel_y" then Some(Kernel(SOBEL_Y, 0))
    else if name == "laplacian" then Some(Kernel([0, -1, 0, -1, 4, -1, 0, -1, 0], 0))
    else if name == "outline" then Some(Kernel([-1, -1, -1, -1, 8, -1, -1, -1, -1], 0))
    else if name == "emboss" then Some(Kernel([-2, -1, 0, -1, 1, 1, 0, 1, 2], 0))
    else None
  }

  datatype DogPreset = DogPreset(small: Kernel, alpha: int, beta: int, shift: int, offset: int, mode: int)

  function DogNamed(name: string): Option<DogPreset> {
    if name == "blob" then Some(DogPreset(GAUSSIAN, 1, 1, 0, 128, 2))
    else if name == "unsharp" then Some(DogPreset(IDENTITY, 2, 1, 0, 0, 2))
    else None
  }

  /** The middle filter of a chain. */
  datatype Mid =
    | NoMid
    | MidName(name: string)
    | Edges(edgeShift: Option<int>)
    | KernelByName(kernel: string)
    | KernelCustom(coeffs: seq<int>, shift: Option<int>)
    | DogByName(preset: string)
    | Blur(size: int)
    | OtherTuple

  predicate IsNone(mid: Mid) {
    mid.NoMid? || (mid.MidName? && Lower(mid.name) in {"none", "off", ""})
  }

  datatype Dither = NoDither | Bits(n: int) | BitsMode(bits: int, mode: Option<string>)

  predicate StartsWithRand(mode: string) { |mode| >= 4 && Lower(mode)[..4] == "rand" }

  function DitherByte(enable: bool, random: bool, bits: int): int {
    (if enable then 1 else 0) + (if random then 2 else 0) + bits % 8 * 4
  }

  /** What `chain` leaves in the dither register. */
  function DitherFor(d: Dither): int {
    match d
    case NoDither => DitherByte(false, false, 1)
    case Bits(n) => if n == 0 then DitherByte(false, false, 1) else DitherByte(true, false, n)
    case BitsMode(bits, mode) => DitherByte(true, mode.Some? && StartsWithRand(mode.value), bits)
  }

  datatype Call = Call(pre: OpSpec, mid: Mid, post: OpSpec, preThresh: int, postThresh: int, dither: Dither)

  // ---- the effect of each helper on the board ---------------------------------------------------

  function DogBoard(b: Board, small: Kernel, large: Kernel, p: DogPreset): Board {
    var fe := Conv5Loaded(ConvLoaded(b.fe, small.coeffs, small.shift), large.coeffs, large.shift);
    Board(DogLoaded(fe, p.mode, p.alpha, p.beta, p.shift, p.offset), 12)
  }

  function BlurBoard(b: Board, size: int): Board {
    var s1 := Conv5Loaded(b.fe, GEN25, 8);
    var s2 := if size >= 9 then SepLoaded(s1, 2, G5, G5, 4, 4) else SepLoaded(s1, 2, SEP_IDENTITY, SEP_IDENTITY, 0, 0);
    var s3 := if size >= 13 then SepLoaded(s2, 3, G5, G5, 4, 4) else SepLoaded(s2, 3, SEP_IDENTITY, SEP_IDENTITY, 0, 0);
    Board(s3, if size < 9 then 13 else if size < 13 then 14 else 15)
  }

  function EdgesBoard(b: Board, shift: int, csh: int): Board {
    var fe := Conv5Loaded(ConvLoaded(b.fe, SOBEL_X, shift), Embedded(SOBEL_Y), shift);
    Board(Load(DogLoaded(fe, 3, 1, 1, csh, 0), 0x45, [3]), 12)
  }

  function KernelBoard(b: Board, k: Kernel): Board { Board(ConvLoaded(b.fe, k.coeffs, k.shift), 8) }

  /** The board after configuring a middle filter, or nothing if the filter is unknown. */
  function MidBoard(b: Board, mid: Mid): Option<Board> {
    match mid
    case NoMid => None
    case MidName(name) =>
      if Lower(name) == "edges" then Some(EdgesBoard(b, 2, 0))
      else if KernelNamed(name).Some? then Some(KernelBoard(b, KernelNamed(name).value))
      else None
    case Edges(shift) => Some(EdgesBoard(b, if shift.Some? then shift.value else 2, 0))
    case KernelByName(kernel) =>
      if KernelNamed(kernel).Some? then Some(KernelBoard(b, KernelNamed(kernel).value)) else None
    case KernelCustom(coeffs, shift) => Some(KernelBoard(b, Kernel(coeffs, if shift.Some? then shift.value else 0)))
    case DogByName(preset) =>
      if DogNamed(preset).Some? then
        Some(DogBoard(b, DogNamed(preset).value.small, Kernel(GEN25, 8), DogNamed(preset).value))
      else None
    case Blur(size) => Some(BlurBoard(b, size))
    case OtherTuple => None
  }

  function Put(b: Board, lo: nat, v: int): Board
    requires lo < 256
  {
    b.(fe := b.fe[lo := v % 256])
  }

  /** The board after the threshold and post writes every chain starts with. */
  function Opened(b: Board, c: Call, qc: int): Board {
    Put(Put(Put(b, 0x47, c.preThresh), 0x49, c.postThresh), 0x48, qc)
  }

  /** The pre-filter and the middle filter of a chain whose codes are known. */
  function Middle(b: Board, c: Call, pc: int): Option<Board> {
    if IsNone(c.mid) then
      if pc >= 8 then Some(KernelBoard(Put(b, 0x46, pc), IDENTITY)) else Some(Put(b, 0x46, 0).(op := pc % 16))
    else MidBoard(Put(b, 0x46, pc), c.mid)
  }

  /** What `chain` promises when it does not raise: all of the board it leaves. */
  function Chained(b: Board, c: Call): Option<Board> {
    var pc, qc := PreCode(c.pre), PointCode(c.post);
    if pc.None? || qc.None? then None
    else
      match Middle(Opened(b, c, qc.value), c, pc.value)
      case None => None
      case Some(m) => Some(Put(m, 0x4A, DitherFor(c.dither)))
  }

  /** The board a raising chain leaves behind: untouched for an unknown operation, half configured for an
      unknown middle filter. */
  function Refused(b: Board, c: Call): Board {
    var pc, qc := PreCode(c.pre), PointCode(c.post);
    if pc.None? || qc.None? then b else Put(Opened(b, c, qc.value), 0x46, pc.value)
  }

  /** The two one-dimensional kernels of a separable cascade stage. */
  datatype Passes = Passes(h: seq<int>, v: seq<int>, hshift: int, vshift: int)

  function StageLoaded(fe: Page, stage: int, k: Option<Passes>): Page {
    if k.None? then fe else SepLoaded(fe, stage, k.value.h, k.value.v, k.value.hshift, k.value.vshift)
  }

  function CascadeBoard(b: Board, s1: Option<Kernel>, s2: Option<Passes>, s3: Option<Passes>, out: int): Board {
    var f1 := if s1.None? then b.fe else Conv5Loaded(b.fe, s1.value.coeffs, s1.value.shift);
    Board(StageLoaded(StageLoaded(f1, 2, s2), 3, s3), out % 16)
  }

  // ---- the driver ---------------------------------------------------------------------------------

  /** The driver's view of the fabric: every helper is a sequence of writes. */
  class Cam {
    var fe: Page
    var op: int

    ghost function State(): Board reads this { Board(fe, op) }

    constructor (fe: Page, op: int)
      ensures State() == Board(fe, op)
    {
      this.fe, this.op := fe, op;
    }

    method FeWrite(lo: int, value: int)
      modifies this
      ensures State() == Put(old(State()), lo % 256, value)
    {
      fe := fe[lo % 256 := value % 256];
    }

    method SetProcOp(op: int)
      modifies this
      ensures State() == old(State()).(op := op % 16)
    {
      this.op := op % 16;
    }

    /** A bank written register by register. */
    method LoadBank(base: nat, vals: seq<int>)
      requires base + |vals| <= 256
      modifies this
      ensures fe == Load(old(fe), base, vals) && op == old(op)
    {
      hide Load;
      LoadNothing(fe, base);
      assert vals[..0] == [];
      for i := 0 to |vals|
        invariant fe == Load(old(fe), base, vals[..i]) && op == old(op)
      {
        LoadNext(old(fe), base, vals, i);
        FeWrite(base + i, vals[i]);
      }
      assert vals[..|vals|] == vals;
    }

    method SetConvKernel(coeffs: seq<int>, shift: int)
      modifies this
      ensures fe == ConvLoaded(old(fe), coeffs, shift) && op == old(op)
    {
      hide Load, Fit;
      LoadBank(0, Fit(coeffs, 9));
      LoadBank(9, [shift % 16]);
    }

    method SetConv5Kernel(coeffs: seq<int>, shift: int)
      modifies this
      ensures fe == Conv5Loaded(old(fe), coeffs, shift) && op == old(op)
    {
      hide Load, Fit;
      LoadBank(0x20, Fit(coeffs, 25));
      LoadBank(0x39, [shift % 16]);
    }

    method SetDogParams(mode: int, alpha: int, beta: int, shift: int, offset: int)
      modifies this
      ensures fe == DogLoaded(old(fe), mode, alpha, beta, shift, offset) && op == old(op)
    {
      hide Load;
      LoadBank(0x40, [mode % 4, alpha, beta, shift % 16, offset]);
    }

    method SetDog(small: Kernel, large: Kernel, p: DogPreset)
      modifies this
      ensures State() == DogBoard(old(State()), small, large, p)
    {
      hide ConvLoaded, Conv5Loaded, DogLoaded;
      SetConvKernel(small.coeffs, small.shift);
      SetConv5Kernel(large.coeffs, large.shift);
      SetDogParams(p.mode, p.alpha, p.beta, p.shift, p.offset);
      SetProcOp(12);
    }

    method SetSepKernel(stage: int, h: seq<int>, v: seq<int>, hshift: int, vshift: int)
      modifies this
      ensures fe == SepLoaded(old(fe), stage, h, v, hshift, vshift) && op == old(op)
    {
      hide Load, Fit;
      LoadBank(SepBase(stage), Fit(h, 5) + [hshift % 16] + Fit(v, 5) + [vshift % 16]);
    }

    method SetBlur(size: int)
      modifies this
      ensures State() == BlurBoard(old(State()), size)
    {
      hide Conv5Loaded, SepLoaded;
      SetConv5Kernel(GEN25, 8);
      if size >= 9 {
        SetSepKernel(2, G5, G5, 4, 4);
      } else {
        SetSepKernel(2, SEP_IDENTITY, SEP_IDENTITY, 0, 0);
      }
      if size >= 13 {
        SetSepKernel(3, G5, G5, 4, 4);
      } else {
        SetSepKernel(3, SEP_IDENTITY, SEP_IDENTITY, 0, 0);
      }
      SetProcOp(if size < 9 then 13 else if size < 13 then 14 else 15);
    }

    method SetEdges(shift: int, csh: int)
      modifies this
      ensures State() == EdgesBoard(old(State()), shift, csh)
    {
      hide ConvLoaded, Conv5Loaded, DogLoaded, Embedded;
      var s5 := K3To5(SOBEL_Y);
      SetConvKernel(SOBEL_X, shift);
      SetConv5Kernel(s5, shift);
      SetDogParams(3, 1, 1, csh, 0);
      ghost var before := fe;
      FeWrite(0x45, 0x3);
      OneRegister(before, 0x45, 3);
      SetProcOp(12);
    }

    method SetDither(enable: bool, random: bool, bits: int)
      modifies this
      ensures State() == Put(old(State()), 0x4A, DitherByte(enable, random, bits))
    {
      FeWrite(0x4A, DitherByte(enable, random, bits));
    }

    /** The middle filter and its select; false when the filter is unknown. */
    method ApplyMid(mid: Mid) returns (known: bool)
      modifies this
      ensures var m := MidBoard(old(State()), mid);
        known == m.Some? && State() == if known then m.value else old(State())
    {
      hide EdgesBoard, ConvLoaded, BlurBoard, DogBoard, KernelNamed, DogNamed, Lower;
      known := true;
      match mid
      case MidName(name) =>
        if Lower(name) == "edges" {
          SetEdges(2, 0);
        } else {
          known := ApplyNamed(name);
        }
      case Edges(shift) =>
        SetEdges(if shift.Some? then shift.value else 2, 0);
      case KernelByName(kernel) =>
        known := ApplyNamed(kernel);
      case KernelCustom(coeffs, shift) =>
        SetConvKernel(coeffs, if shift.Some? then shift.value else 0);
        SetProcOp(8);
      case DogByName(preset) =>
        if DogNamed(preset).None? {
          known := false;
        } else {
          SetDog(DogNamed(preset).value.small, Kernel(GEN25, 8), DogNamed(preset).value);
        }
      case Blur(size) =>
        SetBlur(size);
      case _ =>
        known := false;
    }

    method ApplyNamed(name: string) returns (known: bool)
      modifies this
      ensures known == KernelNamed(name).Some?
      ensures State() == if known then KernelBoard(old(State()), KernelNamed(name).value) else old(State())
    {
      hide ConvLoaded, KernelNamed;
      known := KernelNamed(name).Some?;
      if known {
        var k := KernelNamed(name).value;
        SetConvKernel(k.coeffs, k.shift);
        SetProcOp(8);
      }
    }

    /** A whole chain; false where the source raises. */
    method Chain(c: Call) returns (ok: bool)
      modifies this
      ensures ok == Chained(old(State()), c).Some?
      ensures State() == if ok then Chained(old(State()), c).value else Refused(old(State()), c)
    {
      hide PreCode, PointCode, MidBoard, IsNone, ConvLoaded, DitherByte, StartsWithRand;
      var pc, qc := PreCode(c.pre), PointCode(c.post);
      if pc.None? || qc.None? {
        return false;
      }
      FeWrite(0x47, c.preThresh);
      FeWrite(0x49, c.postThresh);
      FeWrite(0x48, qc.value);
      if IsNone(c.mid) {
        if pc.value >= 8 {
          FeWrite(0x46, pc.value);
          SetConvKernel(IDENTITY.coeffs, IDENTITY.shift);
          SetProcOp(8);
        } else {
          FeWrite(0x46, 0);
          SetProcOp(pc.value);
        }
      } else {
        FeWrite(0x46, pc.value);
        ok := ApplyMid(c.mid);
        if !ok {
          return;
        }
      }
      ok := true;
      match c.dither
      case NoDither => SetDither(false, false, 1);
      case Bits(n) => if n == 0 { SetDither(false, false, 1); } else { SetDither(true, false, n); }
      case BitsMode(bits, mode) => SetDither(true, mode.Some? && StartsWithRand(mode.value), bits);
    }

    method Cascade(s1: Option<Kernel>, s2: Option<Passes>, s3: Option<Passes>, out: int)
      modifies this
      ensures State() == CascadeBoard(old(State()), s1, s2, s3, out)
    {
      hide Conv5Loaded, SepLoaded;
      if s1.Some? {
        SetConv5Kernel(s1.value.coeffs, s1.value.shift);
      }
      if s2.Some? {
        SetSepKernel(2, s2.value.h, s2.value.v, s2.value.hshift, s2.value.vshift);
      }
      if s3.Some? {
        SetSepKernel(3, s3.value.h, s3.value.v, s3.value.hshift, s3.value.vshift);
      }
      SetProcOp(out);
    }
  }

  lemma OneRegister(fe: Page, i: nat, v: int)
    requires i < 256
    ensures fe[i := v % 256] == Load(fe, i, [v])
  {
  }
}
