/** What a chain call decides, what it leaves over from before, and what the shipped filters show. */
module FilterChainLaws {
  import opened Options
  import opened ConvolutionLaws
  import opened SeparableLaws
  import opened FilterRegisters
  import opened FilterChain

  /** Two pages rewritten alike: the bank agrees, everything else is as it was on either side. */
  ghost predicate Decides(f: Page, g: Page, f': Page, g': Page, base: int, n: int) {
    forall i :: 0 <= i < 256 ==> if InBank(i, base, n) then f'[i] == g'[i] else f'[i] == f[i] && g'[i] == g[i]
  }

  lemma LoadDecides(f: Page, g: Page, base: nat, vals: seq<int>)
    requires base + |vals| <= 256
    ensures Decides(f, g, Load(f, base, vals), Load(g, base, vals), base, |vals|)
  {
  }

  lemma ConvDecides(f: Page, g: Page, c: seq<int>, shift: int)
    ensures Decides(f, g, ConvLoaded(f, c, shift), ConvLoaded(g, c, shift), 0, 10)
  {
    hide Load, Fit;
    var f1, g1 := Load(f, 0, Fit(c, 9)), Load(g, 0, Fit(c, 9));
    LoadDecides(f, g, 0, Fit(c, 9));
    LoadDecides(f1, g1, 9, [shift % 16]);
  }

  lemma Conv5Decides(f: Page, g: Page, c: seq<int>, shift: int)
    ensures Decides(f, g, Conv5Loaded(f, c, shift), Conv5Loaded(g, c, shift), 0x20, 26)
  {
    hide Load, Fit;
    var f1, g1 := Load(f, 0x20, Fit(c, 25)), Load(g, 0x20, Fit(c, 25));
    LoadDecides(f, g, 0x20, Fit(c, 25));
    LoadDecides(f1, g1, 0x39, [shift % 16]);
  }

  lemma DogDecides(f: Page, g: Page, mode: int, alpha: int, beta: int, shift: int, offset: int)
    ensures Decides(f, g, DogLoaded(f, mode, alpha, beta, shift, offset),
                    DogLoaded(g, mode, alpha, beta, shift, offset), 0x40, 5)
  {
    hide Load;
    LoadDecides(f, g, 0x40, [mode % 4, alpha, beta, shift % 16, offset]);
  }

  lemma SepDecides(f: Page, g: Page, stage: int, h: seq<int>, v: seq<int>, hs: int, vs: int)
    ensures Decides(f, g, SepLoaded(f, stage, h, v, hs, vs), SepLoaded(g, stage, h, v, hs, vs), SepBase(stage), 12)
  {
    hide Load, Fit;
    LoadDecides(f, g, SepBase(stage), Fit(h, 5) + [hs % 16] + Fit(v, 5) + [vs % 16]);
  }

  predicate SelectsEdges(mid: Mid) {
    mid.Edges? || (mid.MidName? && Lower(mid.name) == "edges")
  }

  /** Two boards a middle filter was applied to: same select, same registers for it; every register from
      0x46 to 0x4A as before, and the magnitude register set only by edges. */
  ghost predicate MidAgrees(b: Board, c: Board, b': Board, c': Board, edges: bool) {
    && b'.op == c'.op && 8 <= b'.op < 16
    && (forall i :: 0 <= i < 256 && Reads(b'.op, i) && !InBank(i, 0x46, 5) ==> b'.fe[i] == c'.fe[i])
    && (forall i :: InBank(i, 0x46, 5) ==> b'.fe[i] == b.fe[i] && c'.fe[i] == c.fe[i])
    && b'.fe[0x45] == (if edges then 3 else b.fe[0x45]) && c'.fe[0x45] == (if edges then 3 else c.fe[0x45])
  }

  lemma KernelAgrees(b: Board, c: Board, k: Kernel)
    ensures MidAgrees(b, c, KernelBoard(b, k), KernelBoard(c, k), false)
  {
    hide ConvLoaded;
    ConvDecides(b.fe, c.fe, k.coeffs, k.shift);
  }

  lemma DogAgrees(b: Board, c: Board, small: Kernel, large: Kernel, p: DogPreset)
    ensures MidAgrees(b, c, DogBoard(b, small, large, p), DogBoard(c, small, large, p), false)
  {
    hide ConvLoaded, Conv5Loaded, DogLoaded;
    var f1, g1 := ConvLoaded(b.fe, small.coeffs, small.shift), ConvLoaded(c.fe, small.coeffs, small.shift);
    var f2, g2 := Conv5Loaded(f1, large.coeffs, large.shift), Conv5Loaded(g1, large.coeffs, large.shift);
    ConvDecides(b.fe, c.fe, small.coeffs, small.shift);
    Conv5Decides(f1, g1, large.coeffs, large.shift);
    DogDecides(f2, g2, p.mode, p.alpha, p.beta, p.shift, p.offset);
  }

  lemma EdgesAgree(b: Board, c: Board, shift: int, csh: int)
    ensures MidAgrees(b, c, EdgesBoard(b, shift, csh), EdgesBoard(c, shift, csh), true)
  {
    hide ConvLoaded, Conv5Loaded, DogLoaded, Load, Embedded;
    var k := Embedded(SOBEL_Y);
    var f1, g1 := ConvLoaded(b.fe, SOBEL_X, shift), ConvLoaded(c.fe, SOBEL_X, shift);
    var f2, g2 := Conv5Loaded(f1, k, shift), Conv5Loaded(g1, k, shift);
    var f3, g3 := DogLoaded(f2, 3, 1, 1, csh, 0), DogLoaded(g2, 3, 1, 1, csh, 0);
    ConvDecides(b.fe, c.fe, SOBEL_X, shift);
    Conv5Decides(f1, g1, k, shift);
    DogDecides(f2, g2, 3, 1, 1, csh, 0);
    LoadDecides(f3, g3, 0x45, [3]);
    LoadAt(f3, 0x45, [3], 0x45);
    LoadAt(g3, 0x45, [3], 0x45);
  }

  lemma BlurAgrees(b: Board, c: Board, size: int)
    ensures MidAgrees(b, c, BlurBoard(b, size), BlurBoard(c, size), false)
  {
    hide Conv5Loaded, SepLoaded;
    var f1, g1 := Conv5Loaded(b.fe, GEN25, 8), Conv5Loaded(c.fe, GEN25, 8);
    var k2, k3 := if size >= 9 then G5 else SEP_IDENTITY, if size >= 13 then G5 else SEP_IDENTITY;
    var s2, s3 := if size >= 9 then 4 else 0, if size >= 13 then 4 else 0;
    var f2, g2 := SepLoaded(f1, 2, k2, k2, s2, s2), SepLoaded(g1, 2, k2, k2, s2, s2);
    Conv5Decides(b.fe, c.fe, GEN25, 8);
    SepDecides(f1, g1, 2, k2, k2, s2, s2);
    SepDecides(f2, g2, 3, k3, k3, s3, s3);
  }

  lemma MiddlesAgree(b: Board, c: Board, mid: Mid)
    ensures MidBoard(b, mid).Some? == MidBoard(c, mid).Some?
    ensures MidBoard(b, mid).Some? ==>
              MidAgrees(b, c, MidBoard(b, mid).value, MidBoard(c, mid).value, SelectsEdges(mid))
  {
    hide KernelBoard, DogBoard, EdgesBoard, BlurBoard, KernelNamed, DogNamed, Lower, MidAgrees;
    match mid
    case NoMid =>
    case MidName(name) =>
      EdgesAgree(b, c, 2, 0);
      if KernelNamed(name).Some? { KernelAgrees(b, c, KernelNamed(name).value); }
    case Edges(shift) => EdgesAgree(b, c, if shift.Some? then shift.value else 2, 0);
    case KernelByName(kernel) =>
      if KernelNamed(kernel).Some? { KernelAgrees(b, c, KernelNamed(kernel).value); }
    case KernelCustom(coeffs, shift) => KernelAgrees(b, c, Kernel(coeffs, if shift.Some? then shift.value else 0));
    case DogByName(preset) =>
      if DogNamed(preset).Some? {
        DogAgrees(b, c, DogNamed(preset).value.small, Kernel(GEN25, 8), DogNamed(preset).value);
      }
    case Blur(size) => BlurAgrees(b, c, size);
    case OtherTuple =>
  }

  lemma IsNoneIsNotEdges(mid: Mid)
    requires IsNone(mid)
    ensures !SelectsEdges(mid)
  {
    if mid.MidName? {
      assert Lower(mid.name) != "edges";
    }
  }

  /** What every chain call settles, whatever was on the board: whether it succeeds, the select, every
      register that select reads, and the pre, post and dither registers. Only the magnitude register
      stays as it was, unless the chain is an edge filter. */
  lemma ChainDecides(b: Board, c: Board, call: Call)
    ensures Chained(b, call).Some? == Chained(c, call).Some?
    ensures Chained(b, call).Some? ==>
      var b', c' := Chained(b, call).value, Chained(c, call).value;
      && b'.op == c'.op && 0 <= b'.op < 16 && SameRegisters(b'.op, b'.fe, c'.fe)
      && (forall i :: InBank(i, 0x46, 5) ==> b'.fe[i] == c'.fe[i])
      && b'.fe[0x45] == (if SelectsEdges(call.mid) then 3 else b.fe[0x45])
      && c'.fe[0x45] == (if SelectsEdges(call.mid) then 3 else c.fe[0x45])
  {
    hide MidBoard, KernelBoard, PreCode, PointCode, IsNone, SelectsEdges, DitherFor;
    var pc, qc := PreCode(call.pre), PointCode(call.post);
    if pc.Some? && qc.Some? {
      var p := if IsNone(call.mid) && pc.value < 8 then 0 else pc.value;
      var ob, oc := Put(Opened(b, call, qc.value), 0x46, p), Put(Opened(c, call, qc.value), 0x46, p);
      if IsNone(call.mid) {
        IsNoneIsNotEdges(call.mid);
        KernelAgrees(ob, oc, IDENTITY);
      } else {
        MiddlesAgree(ob, oc, call.mid);
      }
    }
  }
}
