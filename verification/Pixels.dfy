/** Pixels, pixel streams and the per-channel arithmetic of the golden models. */
module Pixels {
  import opened Arithmetic

  /** Byte lane `sel` of a pixel: 2 is red, 1 green, 0 blue. */
  function Ch(p: int, sel: nat): (b: int)
    ensures 0 <= b < 256
  {
    Shr(p, 8 * sel) % 256
  }

  /** Three byte lanes packed by `px = (px << 8) | b`, red first. */
  function Rgb(r: int, g: int, b: int): int {
    (r * 256 + g) * 256 + b
  }

  /** A byte read as a two's complement number. */
  function Signed(b: int): int { if b >= 128 then b - 256 else b }

  predicate IsByte(b: int) { 0 <= b < 256 }

  predicate IsPixel(p: int) { 0 <= p < 0x100_0000 }

  lemma LanesOf(p: int)
    ensures Ch(p, 0) == p % 256
    ensures Ch(p, 1) == p / 256 % 256
    ensures Ch(p, 2) == p / 65536 % 256
  {
    assert Pow2(8) == 256 by { assert Pow2(3) == 8; }
    Pow2Sum(8, 8);
    assert Pow2(16) == 65536;
    assert Pow2(0) == 1;
  }

  lemma RgbLanes(r: int, g: int, b: int)
    requires IsByte(r) && IsByte(g) && IsByte(b)
    ensures Ch(Rgb(r, g, b), 2) == r
    ensures Ch(Rgb(r, g, b), 1) == g
    ensures Ch(Rgb(r, g, b), 0) == b
    ensures IsPixel(Rgb(r, g, b))
  {
    hide Ch;
    LanesOf(Rgb(r, g, b));
  }

  /** Three base-256 digits of an integer. */
  lemma ThreeDigits(p: int)
    ensures (p / 65536 % 256 * 256 + p / 256 % 256) * 256 + p % 256 == p % 0x100_0000
  {
    var a := p / 256;
    var b := a / 256;
    assert p / 65536 == b;
    assert p == (b * 256 + a % 256) * 256 + p % 256;
    assert b == b / 256 * 256 + b % 256;
    RemainderIs(p, b / 256, (b % 256 * 256 + a % 256) * 256 + p % 256, 0x100_0000);
  }

  lemma LanesRebuild(p: int)
    ensures Rgb(Ch(p, 2), Ch(p, 1), Ch(p, 0)) == p % 0x100_0000
    ensures IsPixel(p) ==> Rgb(Ch(p, 2), Ch(p, 1), Ch(p, 0)) == p
  {
    hide Ch;
    LanesOf(p);
    ThreeDigits(p);
  }

  function Clamp8(v: int): (c: int)
    ensures IsByte(c)
    ensures IsByte(v) ==> c == v
  {
    if v < 0 then 0 else if v > 255 then 255 else v
  }

  function Clamp12(v: int): (c: int)
    ensures -2048 <= c <= 2047
    ensures -2048 <= v <= 2047 ==> c == v
  {
    if v < -2048 then -2048 else if v > 2047 then 2047 else v
  }

  /** Beat j of a stream; the state before the first beat is all zero. */
  function At(s: seq<int>, j: int): int {
    if 0 <= j < |s| then s[j] else 0
  }

  lemma ZeroLanes(sel: nat)
    ensures Ch(0, sel) == 0
  {
  }

  /** sum of a[i] * b[i], the accumulator of one tap row */
  function Dot(a: seq<int>, b: seq<int>): int
    requires |a| == |b|
  {
    if a == [] then 0
    else Dot(a[..|a| - 1], b[..|b| - 1]) + a[|a| - 1] * b[|b| - 1]
  }

  lemma DotStep(a: seq<int>, b: seq<int>, n: nat)
    requires n < |a| == |b|
    ensures Dot(a[..n + 1], b[..n + 1]) == Dot(a[..n], b[..n]) + a[n] * b[n]
  {
    assert a[..n + 1][..n] == a[..n] && b[..n + 1][..n] == b[..n];
  }

  lemma Dot3(a: seq<int>, b: seq<int>)
    requires |a| == |b| == 3
    ensures Dot(a, b) == a[0] * b[0] + a[1] * b[1] + a[2] * b[2]
  {
    assert a[..3] == a && b[..3] == b;
    DotStep(a, b, 2); DotStep(a, b, 1); DotStep(a, b, 0);
  }

  lemma Dot5(a: seq<int>, b: seq<int>)
    requires |a| == |b| == 5
    ensures Dot(a, b) == a[0] * b[0] + a[1] * b[1] + a[2] * b[2] + a[3] * b[3] + a[4] * b[4]
  {
    assert a[..5] == a && b[..5] == b;
    DotStep(a, b, 4); DotStep(a, b, 3); DotStep(a, b, 2); DotStep(a, b, 1); DotStep(a, b, 0);
  }

  function Scaled(k: int, a: seq<int>): (r: seq<int>)
    ensures |r| == |a|
    ensures forall i :: 0 <= i < |a| ==> r[i] == k * a[i]
  {
    seq(|a|, i requires 0 <= i < |a| => k * a[i])
  }

  lemma {:induction false} DotScaled(k: int, a: seq<int>, b: seq<int>)
    requires |a| == |b|
    ensures Dot(Scaled(k, a), b) == k * Dot(a, b)
  {
    if a != [] {
      var n := |a| - 1;
      DotScaled(k, a[..n], b[..n]);
      assert Scaled(k, a)[..n] == Scaled(k, a[..n]);
      assert (k * a[n]) * b[n] == k * (a[n] * b[n]);
    }
  }

  /** Sum of the positive taps and, as a nonnegative number, of the negative ones. */
  function PosSum(a: seq<int>): (p: nat) {
    if a == [] then 0 else PosSum(a[..|a| - 1]) + if a[|a| - 1] > 0 then a[|a| - 1] else 0
  }

  function NegSum(a: seq<int>): (p: nat) {
    if a == [] then 0 else NegSum(a[..|a| - 1]) + if a[|a| - 1] < 0 then -a[|a| - 1] else 0
  }

  lemma ProductBounds(a: int, x: int, m: int)
    requires 0 <= x <= m
    ensures -((if a < 0 then -a else 0) * m) <= a * x <= (if a > 0 then a else 0) * m
  {
    if a > 0 {
      MulMonotone(0, x, a);
      MulMonotone(x, m, a);
    } else {
      MulMonotone(0, x, -a);
      MulMonotone(x, m, -a);
    }
  }

  lemma Distribute(a: int, b: int, m: int)
    ensures (a + b) * m == a * m + b * m
  {
  }

  /** Tap values between 0 and m keep the accumulator between the signed gains. */
  lemma {:induction false} DotBounds(a: seq<int>, b: seq<int>, m: nat)
    requires |a| == |b|
    requires forall i :: 0 <= i < |b| ==> 0 <= b[i] <= m
    ensures -(NegSum(a) * m) <= Dot(a, b) <= PosSum(a) * m
  {
    if a != [] {
      var n := |a| - 1;
      var up, down := if a[n] > 0 then a[n] else 0, if a[n] < 0 then -a[n] else 0;
      DotBounds(a[..n], b[..n], m);
      ProductBounds(a[n], b[n], m);
      Distribute(PosSum(a[..n]), up, m);
      Distribute(NegSum(a[..n]), down, m);
    }
  }

  predicate NonNegative(a: seq<int>) { forall i :: 0 <= i < |a| ==> a[i] >= 0 }

  lemma {:induction false} NonNegativeHasNoNegSum(a: seq<int>)
    requires NonNegative(a)
    ensures NegSum(a) == 0
  {
    if a != [] {
      NonNegativeHasNoNegSum(a[..|a| - 1]);
    }
  }

  /** Nonnegative taps keep the accumulator between gain*lo and gain*hi. */
  lemma {:induction false} DotRange(a: seq<int>, b: seq<int>, lo: int, hi: int)
    requires |a| == |b| && NonNegative(a)
    requires forall i :: 0 <= i < |b| ==> lo <= b[i] <= hi
    ensures PosSum(a) * lo <= Dot(a, b) <= PosSum(a) * hi
  {
    if a != [] {
      var n := |a| - 1;
      DotRange(a[..n], b[..n], lo, hi);
      MulMonotone(lo, b[n], a[n]); MulMonotone(b[n], hi, a[n]);
    }
  }

  /** The newest n channel values ending at beat j, oldest first: one row of a window. */
  function Tail(s: seq<int>, sel: nat, n: nat, j: int): (row: seq<int>)
    ensures |row| == n
    ensures forall i :: 0 <= i < n ==> row[i] == Ch(At(s, j - (n - 1 - i)), sel)
  {
    seq(n, i requires 0 <= i < n => Ch(At(s, j - (n - 1 - i)), sel))
  }
}
