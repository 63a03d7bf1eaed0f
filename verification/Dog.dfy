/** The dual-kernel combiner and the composed difference-of-Gaussians chain. */
module Dog {
  import opened Arithmetic
  import opened Pixels
  import opened Convolution
  import opened ConvolutionLaws

  function DogChannel(av: int, bv: int, mode: int, alpha: int, beta: int, shift: nat, offset: int): (o: int)
    ensures IsByte(av) && IsByte(bv) ==> IsByte(o)
  {
    if mode == 0 then av
    else if mode == 1 then bv
    else
      var sum := if mode == 3 then alpha * av + beta * bv else alpha * av - beta * bv;
      Clamp8(Shr(sum, shift) + offset)
  }

  function DogPixel(a: int, b: int, mode: int, alpha: int, beta: int, shift: nat, offset: int): int {
    Rgb(DogChannel(Ch(a, 2), Ch(b, 2), mode, alpha, beta, shift, offset),
        DogChannel(Ch(a, 1), Ch(b, 1), mode, alpha, beta, shift, offset),
        DogChannel(Ch(a, 0), Ch(b, 0), mode, alpha, beta, shift, offset))
  }

  /** Ordinal pairing: beat k of the one branch with beat k of the other, as long as both have one. */
  function DogStream(a: seq<int>, b: seq<int>, mode: int, alpha: int, beta: int, shift: nat, offset: int)
    : (out: seq<int>)
    ensures |out| == if |a| <= |b| then |a| else |b|
    ensures forall k :: 0 <= k < |out| ==> out[k] == DogPixel(a[k], b[k], mode, alpha, beta, shift, offset)
  {
    seq(if |a| <= |b| then |a| else |b|,
        k requires 0 <= k < |a| && k < |b| => DogPixel(a[k], b[k], mode, alpha, beta, shift, offset))
  }

  /** The per-pair body of the combiner loop. */
  method DogBeat(a: int, b: int, mode: int, alpha: int, beta: int, shift: nat, offset: int) returns (px: int)
    ensures px == DogPixel(a, b, mode, alpha, beta, shift, offset)
  {
    hide Ch, Shr;
    px := 0;
    for i := 0 to 3
      invariant px == Lanes(i, DogChannel(Ch(a, 2), Ch(b, 2), mode, alpha, beta, shift, offset),
                            DogChannel(Ch(a, 1), Ch(b, 1), mode, alpha, beta, shift, offset),
                            DogChannel(Ch(a, 0), Ch(b, 0), mode, alpha, beta, shift, offset))
    {
      var av, bv := Ch(a, 2 - i), Ch(b, 2 - i);
      var o;
      if mode == 0 {
        o := av;
      } else if mode == 1 {
        o := bv;
      } else {
        var pa, pb := alpha * av, beta * bv;
        var sum := if mode == 3 then pa + pb else pa - pb;
        var v := Shr(sum, shift) + offset;
        o := if v < 0 then 0 else if v > 255 then 255 else v;
      }
      px := px * 256 + o;
    }
  }

  method DogCombineGolden(a: seq<int>, b: seq<int>, mode: int, alpha: int, beta: int, shift: nat, offset: int)
    returns (out: seq<int>)
    ensures out == DogStream(a, b, mode, alpha, beta, shift, offset)
  {
    out := [];
    var n := if |a| <= |b| then |a| else |b|;
    for k := 0 to n
      invariant |out| == k
      invariant forall j :: 0 <= j < k ==> out[j] == DogPixel(a[j], b[j], mode, alpha, beta, shift, offset)
    {
      var px := DogBeat(a[k], b[k], mode, alpha, beta, shift, offset);
      out := out + [px];
    }
  }

  /** conv3x3 (A) and conv5x5 (B) on the same stream, combined. */
  function DogChain(s: seq<int>, width: int, ka: seq<int>, sa: nat, kb: seq<int>, sb: nat,
                    mode: int, alpha: int, beta: int, shift: nat, offset: int): (out: seq<int>)
    requires |ka| >= 9 && |kb| >= 25
    ensures |out| == |s|
  {
    DogStream(ConvStream(s, width, ka, sa, false, true, 3), ConvStream(s, width, kb, sb, false, true, 5),
              mode, alpha, beta, shift, offset)
  }

  method DogChainGolden(pixels: seq<int>, width: int, ka: seq<int>, sa: nat, kb: seq<int>, sb: nat,
                        mode: int, alpha: int, beta: int, shift: nat, offset: int) returns (out: seq<int>)
    requires width >= 1 && |ka| >= 9 && |kb| >= 25
    ensures out == DogChain(pixels, width, ka, sa, kb, sb, mode, alpha, beta, shift, offset)
  {
    var a := ConvGolden(pixels, width, ka, sa, false, true, 3);
    var b := ConvGolden(pixels, width, kb, sb, false, true, 5);
    out := DogCombineGolden(a, b, mode, alpha, beta, shift, offset);
  }

  lemma DogLanes(a: int, b: int, mode: int, alpha: int, beta: int, shift: nat, offset: int)
    ensures forall sel: nat :: sel < 3 ==>
      Ch(DogPixel(a, b, mode, alpha, beta, shift, offset), sel) ==
      DogChannel(Ch(a, sel), Ch(b, sel), mode, alpha, beta, shift, offset)
  {
    hide Ch, DogChannel;
    RgbLanes(DogChannel(Ch(a, 2), Ch(b, 2), mode, alpha, beta, shift, offset),
             DogChannel(Ch(a, 1), Ch(b, 1), mode, alpha, beta, shift, offset),
             DogChannel(Ch(a, 0), Ch(b, 0), mode, alpha, beta, shift, offset));
  }

  /** The passthrough modes show one branch; the sum forgets which branch is which when the weights agree. */
  lemma DogModes(a: int, b: int, alpha: int, beta: int, shift: nat, offset: int)
    requires IsPixel(a) && IsPixel(b)
    ensures DogPixel(a, b, 0, alpha, beta, shift, offset) == a
    ensures DogPixel(a, b, 1, alpha, beta, shift, offset) == b
    ensures DogPixel(a, b, 3, alpha, alpha, shift, offset) == DogPixel(b, a, 3, alpha, alpha, shift, offset)
  {
    hide Ch;
    LanesRebuild(a);
    LanesRebuild(b);
  }

  /** The ordinal pairing is not a spatial one. When both branches run the same 3x3 filter (the 5x5
      through an embedded kernel) the chain subtracts the filter's output one row and one column
      earlier, so with a gain of one it reads `offset` exactly where those two agree. */
  lemma PairingIsShifted(s: seq<int>, width: nat, k9: seq<int>, sh: nat, offset: int, k: nat, sel: nat)
    requires |k9| >= 9 && k < |s| && sel < 3 && 0 < offset < 255
    ensures var a := ConvStream(s, width, k9, sh, false, true, 3);
      var o := Ch(DogChain(s, width, k9, sh, Embedded(k9), sh, 2, 1, 1, 0, offset)[k], sel);
      && o == Clamp8(Ch(a[k], sel) - Ch(At(a, k - (width + 1)), sel) + offset)
      && (o == offset <==> Ch(a[k], sel) == Ch(At(a, k - (width + 1)), sel))
  {
    hide ConvPixel, Ch;
    var a := ConvStream(s, width, k9, sh, false, true, 3);
    EmbeddingIsPureDelay(s, width, k9, sh, false, k);
    DogLanes(a[k], At(a, k - (width + 1)), 2, 1, 1, 0, offset);
  }
}
