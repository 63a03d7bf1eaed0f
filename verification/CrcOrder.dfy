/** Powers of the shift, computed by squaring, and the least period of a single bit: 32767. */
module CrcOrder {
  import opened Arithmetic
  import opened Orbits
  import opened Crc
  import opened CrcDetection
  import opened CrcDoubleErrors

  /** One Horner step of a multiplication. */
  function Horner(b: bool, s: Reg, t: Reg): Reg { Xor(Part(b, s), Shift(t)) }

  function Horner4(d: bool, c: bool, b: bool, a: bool, s: Reg, t: Reg): Reg {
    Horner(d, s, Horner(c, s, Horner(b, s, Horner(a, s, t))))
  }

  lemma ApplyHorner(d: bool, c: bool, b: bool, a: bool, k: Poly, s: Reg)
    ensures Apply(Cons4(d, c, b, a, k), s) == Horner4(d, c, b, a, s, Apply(k, s))
  {
    hide Apply, Xor, Shift;
    ApplyStep(a, k, s);
    ApplyStep(b, Cons(a, k), s);
    ApplyStep(c, Cons(b, Cons(a, k)), s);
    ApplyStep(d, Cons(c, Cons(b, Cons(a, k))), s);
  }

  // ---- the same on 16-bit words ------------------------------------------------------------

  /** The shift of the update loop without data. */
  function ShiftWord(w: bv16): bv16 { if w & 1 == 1 then (w >> 1) ^ 0x8408 else w >> 1 }

  function HornerWord(b: bool, s: bv16, t: bv16): bv16 { (if b then s else 0) ^ ShiftWord(t) }

  function HornerWord4(d: bool, c: bool, b: bool, a: bool, s: bv16, t: bv16): bv16 {
    HornerWord(d, s, HornerWord(c, s, HornerWord(b, s, HornerWord(a, s, t))))
  }

  function Word1(v: Reg, s: bv16): bv16 { HornerWord4(v.b3, v.b2, v.b1, v.b0, s, 0) }

  function Word2(v: Reg, s: bv16): bv16 { HornerWord4(v.b7, v.b6, v.b5, v.b4, s, Word1(v, s)) }

  function Word3(v: Reg, s: bv16): bv16 { HornerWord4(v.b11, v.b10, v.b9, v.b8, s, Word2(v, s)) }

  function Word4(v: Reg, s: bv16): bv16 { HornerWord4(v.b15, v.b14, v.b13, v.b12, s, Word3(v, s)) }

  /** The multiplication on words, from the highest coefficient down. */
  function MulWord(c: bv16, s: bv16): bv16 { Word4(View(c), s) }

  /** A single bit of an exclusive or. */
  lemma XorBit(a: bv16, b: bv16, m: bv16)
    requires m & (m - 1) == 0
    ensures BitOf(a ^ b, m) == (BitOf(a, m) != BitOf(b, m))
  {
  }

  lemma ViewXor(a: bv16, b: bv16)
    ensures View(a ^ b) == Xor(View(a), View(b))
  {
    hide BitOf;
    XorBit(a, b, 1); XorBit(a, b, 2); XorBit(a, b, 4); XorBit(a, b, 8);
    XorBit(a, b, 0x10); XorBit(a, b, 0x20); XorBit(a, b, 0x40); XorBit(a, b, 0x80);
    XorBit(a, b, 0x100); XorBit(a, b, 0x200); XorBit(a, b, 0x400); XorBit(a, b, 0x800);
    XorBit(a, b, 0x1000); XorBit(a, b, 0x2000); XorBit(a, b, 0x4000); XorBit(a, b, 0x8000);
  }

  lemma ViewShift(w: bv16)
    ensures View(ShiftWord(w)) == Shift(View(w))
  {
    hide View, Shift, Step;
    LoopTurn(w, false);
    QuietStep(View(w));
  }

  lemma ViewZero()
    ensures View(0) == ZERO
  {
  }

  lemma ViewHorner(b: bool, s: bv16, t: bv16)
    ensures View(HornerWord(b, s, t)) == Horner(b, View(s), View(t))
  {
    hide View, Shift, Xor, ShiftWord;
    ViewShift(t);
    if b {
      ViewXor(s, ShiftWord(t));
    } else {
      ViewZero();
      ViewXor(0, ShiftWord(t));
    }
  }

  lemma ViewHorner4(d: bool, c: bool, b: bool, a: bool, s: bv16, t: bv16)
    ensures View(HornerWord4(d, c, b, a, s, t)) == Horner4(d, c, b, a, View(s), View(t))
  {
    hide View, Horner, HornerWord;
    var t1 := HornerWord(a, s, t);
    var t2 := HornerWord(b, s, t1);
    ViewHorner(a, s, t);
    ViewHorner(b, s, t1);
    ViewHorner(c, s, t2);
    ViewHorner(d, s, HornerWord(c, s, t2));
  }

  /** Words multiply as their registers do: both evaluate the sixteen coefficients from the highest down. */
  lemma ViewMul(c: bv16, s: bv16)
    ensures View(MulWord(c, s)) == Mul(View(c), View(s))
  {
    hide View, Horner4, HornerWord4, Apply, Cons4, Mul;
    var v, r := View(c), View(s);
    assert View(Word1(v, s)) == Apply(Low4(v), r) by {
      ViewZero();
      NilApply(r);
      ViewHorner4(v.b3, v.b2, v.b1, v.b0, s, 0);
      ApplyHorner(v.b3, v.b2, v.b1, v.b0, Nil, r);
    }
    hide Word1, Low4;
    assert View(Word2(v, s)) == Apply(Low8(v), r) by {
      ViewHorner4(v.b7, v.b6, v.b5, v.b4, s, Word1(v, s));
      ApplyHorner(v.b7, v.b6, v.b5, v.b4, Low4(v), r);
    }
    hide Word2, Low8;
    assert View(Word3(v, s)) == Apply(Low12(v), r) by {
      ViewHorner4(v.b11, v.b10, v.b9, v.b8, s, Word2(v, s));
      ApplyHorner(v.b11, v.b10, v.b9, v.b8, Low8(v), r);
    }
    hide Word3, Low12;
    ViewHorner4(v.b15, v.b14, v.b13, v.b12, s, Word3(v, s));
    ApplyHorner(v.b15, v.b14, v.b13, v.b12, Low12(v), r);
    MulIsApply(v, r);
  }

  lemma MulIsApply(v: Reg, r: Reg)
    ensures Mul(v, r) == Apply(Cons4(v.b15, v.b14, v.b13, v.b12, Low12(v)), r)
  {
    hide Apply, Cons4, Low12;
  }

  /** Powers of the shift multiply as words. */
  lemma Product(a: nat, b: nat, wa: bv16, wb: bv16, w: bv16)
    requires After(a) == View(wa) && After(b) == View(wb) && MulWord(wa, wb) == w
    ensures After(a + b) == View(w)
  {
    hide After, View, Mul, MulWord;
    AfterSum(a, b);
    ViewMul(wa, wb);
  }

  lemma After16()
    ensures After(16) == View(0x8408)
  {
    assert MulWord(0x0080, 0x0080) == 0x8408;
    hide After, View, MulWord;
    FirstAfters();
    Product(8, 8, 0x0080, 0x0080, 0x8408);
  }

  lemma After32()
    ensures After(32) == View(0x0CEC)
  {
    assert MulWord(0x8408, 0x8408) == 0x0CEC;
    hide After, View, MulWord;
    After16();
    Product(16, 16, 0x8408, 0x8408, 0x0CEC);
  }

  lemma After64()
    ensures After(64) == View(0x861D)
  {
    assert MulWord(0x0CEC, 0x0CEC) == 0x861D;
    hide After, View, MulWord;
    After32();
    Product(32, 32, 0x0CEC, 0x0CEC, 0x861D);
  }

  lemma After128()
    ensures After(128) == View(0x3F75)
  {
    assert MulWord(0x861D, 0x861D) == 0x3F75;
    hide After, View, MulWord;
    After64();
    Product(64, 64, 0x861D, 0x861D, 0x3F75);
  }

  lemma After256()
    ensures After(256) == View(0x9471)
  {
    assert MulWord(0x3F75, 0x3F75) == 0x9471;
    hide After, View, MulWord;
    After128();
    Product(128, 128, 0x3F75, 0x3F75, 0x9471);
  }

  lemma After512()
    ensures After(512) == View(0x3FC8)
  {
    assert MulWord(0x9471, 0x9471) == 0x3FC8;
    hide After, View, MulWord;
    After256();
    Product(256, 256, 0x9471, 0x9471, 0x3FC8);
  }

  lemma After1024()
    ensures After(1024) == View(0x236C)
  {
    assert MulWord(0x3FC8, 0x3FC8) == 0x236C;
    hide After, View, MulWord;
    After512();
    Product(512, 512, 0x3FC8, 0x3FC8, 0x236C);
  }

  lemma After2048()
    ensures After(2048) == View(0x0ABF)
  {
    assert MulWord(0x236C, 0x236C) == 0x0ABF;
    hide After, View, MulWord;
    After1024();
    Product(1024, 1024, 0x236C, 0x236C, 0x0ABF);
  }

  lemma After4096()
    ensures After(4096) == View(0x7955)
  {
    assert MulWord(0x0ABF, 0x0ABF) == 0x7955;
    hide After, View, MulWord;
    After2048();
    Product(2048, 2048, 0x0ABF, 0x0ABF, 0x7955);
  }

  lemma After8192()
    ensures After(8192) == View(0x3811)
  {
    assert MulWord(0x7955, 0x7955) == 0x3811;
    hide After, View, MulWord;
    After4096();
    Product(4096, 4096, 0x7955, 0x7955, 0x3811);
  }

  lemma After16384()
    ensures After(16384) == View(0x1A22)
  {
    assert MulWord(0x3811, 0x3811) == 0x1A22;
    hide After, View, MulWord;
    After8192();
    Product(8192, 8192, 0x3811, 0x3811, 0x1A22);
  }

  lemma After32768()
    ensures After(32768) == View(0x4000)
  {
    assert MulWord(0x1A22, 0x1A22) == 0x4000;
    hide After, View, MulWord;
    After16384();
    Product(16384, 16384, 0x1A22, 0x1A22, 0x4000);
  }

  lemma After192()
    ensures After(192) == View(0xD0A6)
  {
    assert MulWord(0x3F75, 0x861D) == 0xD0A6;
    hide After, View, MulWord;
    After128();
    After64();
    Product(128, 64, 0x3F75, 0x861D, 0xD0A6);
  }

  lemma After208()
    ensures After(208) == View(0x2DA2)
  {
    assert MulWord(0xD0A6, 0x8408) == 0x2DA2;
    hide After, View, MulWord;
    After192();
    After16();
    Product(192, 16, 0xD0A6, 0x8408, 0x2DA2);
  }

  lemma After216()
    ensures After(216) == View(0x8635)
  {
    assert MulWord(0x2DA2, 0x0080) == 0x8635;
    hide After, View, MulWord;
    After208();
    FirstAfters();
    Product(208, 8, 0x2DA2, 0x0080, 0x8635);
  }

  lemma After1056()
    ensures After(1056) == View(0xE28F)
  {
    assert MulWord(0x236C, 0x0CEC) == 0xE28F;
    hide After, View, MulWord;
    After1024();
    After32();
    Product(1024, 32, 0x236C, 0x0CEC, 0xE28F);
  }

  lemma After4608()
    ensures After(4608) == View(0x052A)
  {
    assert MulWord(0x7955, 0x3FC8) == 0x052A;
    hide After, View, MulWord;
    After4096();
    After512();
    Product(4096, 512, 0x7955, 0x3FC8, 0x052A);
  }

  lemma After4672()
    ensures After(4672) == View(0x6080)
  {
    assert MulWord(0x052A, 0x861D) == 0x6080;
    hide After, View, MulWord;
    After4608();
    After64();
    Product(4608, 64, 0x052A, 0x861D, 0x6080);
  }

  lemma After4680()
    ensures After(4680) == View(0x8468)
  {
    assert MulWord(0x6080, 0x0080) == 0x8468;
    hide After, View, MulWord;
    After4672();
    FirstAfters();
    Product(4672, 8, 0x6080, 0x0080, 0x8468);
  }

  // ---- the least period ------------------------------------------------------------------

  lemma ShiftIsInjective()
    ensures Injective(Shift)
  {
  }

  lemma AfterStep(n: nat)
    ensures After(n + 1) == Shift(After(n))
  {
    hide Shift;
  }

  lemma FirstAfters()
    ensures After(0) == TOP && After(8) == View(0x0080) && After(1) == Shift(TOP)
  {
    assert Iterate(Shift, 0, TOP) == TOP;
    TopShifts();
    hide Shift4, Shift, Iterate;
    IterateFour(0, TOP);
    IterateFour(4, TOP);
    AfterStep(0);
  }

  lemma NotAfter217()
    ensures After(217) != TOP
  {
    assert After(216) == View(0x8635) by {
      hide After, View;
      After216();
    }
    hide After;
    AfterStep(216);
  }

  lemma NotAfter1057()
    ensures After(1057) != TOP
  {
    assert After(1056) == View(0xE28F) by {
      hide After, View;
      After1056();
    }
    hide After;
    AfterStep(1056);
  }

  lemma NotAfter4681()
    ensures After(4681) != TOP
  {
    assert After(4680) == View(0x8468) by {
      hide After, View;
      After4680();
    }
    hide After;
    AfterStep(4680);
  }

  lemma BackAfter32767()
    ensures After(32767) == TOP
  {
    assert Shift(TOP) == View(0x4000) by { TopShifts(); }
    hide After, Shift, View, Injective;
    After32768();
    AfterStep(32767);
    ShiftIsInjective();
    SameShift(After(32767), TOP);
  }

  lemma SameShift(a: Reg, b: Reg)
    requires Shift(a) == Shift(b)
    ensures a == b
  {
  }

  // ---- 32767 = 7 * 31 * 151 ----------------------------------------------------------------

  ghost predicate Prime(p: nat) { p > 1 && forall d :: 1 < d < p ==> p % d != 0 }

  lemma SevenIsPrime()
    ensures Prime(7)
  {
  }

  lemma ThirtyOneIsPrime()
    ensures Prime(31)
  {
    forall d | 1 < d < 31
      ensures 31 % d != 0
    {
      var q := 31 / d;
      if q * d == 31 {
        if d <= 5 {
          SmallFactor31(d, q);
        } else {
          SmallCofactor(31, q, d, 5);
          SmallFactor31(q, d);
        }
      }
    }
  }

  lemma SmallFactor31(g: nat, q: nat)
    requires g * q == 31 && g <= 5
    ensures g == 1
  {
    assert g == 0 || g == 1 || g == 2 || g == 3 || g == 4 || g == 5;
  }

  /** Of two factors of n below (m + 1)^2, the second of which exceeds m, the first is at most m. */
  lemma SmallCofactor(n: nat, q: int, d: nat, m: nat)
    requires q * d == n && d > m && n < (m + 1) * (m + 1)
    ensures q <= m
  {
    if q > m {
      MulMonotone(m + 1, q, m + 1);
      MulMonotone(m + 1, d, q);
    }
  }

  lemma Cofactor151(g: nat, q: nat)
    requires g * q == 151
    ensures g == 1 || q == 1
  {
    if g > 12 {
      SmallCofactor(151, q, g, 12);
      SmallFactor151(q, g);
    } else {
      SmallFactor151(g, q);
    }
  }

  lemma SmallFactor151(g: nat, q: nat)
    requires g * q == 151 && g <= 12
    ensures g == 1
  {
    assert g == 0 || g == 1 || g == 2 || g == 3 || g == 4 || g == 5 || g == 6 || g == 7 || g == 8
        || g == 9 || g == 10 || g == 11 || g == 12;
  }

  /** A prime dividing a product, and not the reduced first factor, divides the second. */
  lemma {:induction false} PrimeResidue(p: nat, r: nat, b: nat)
    requires Prime(p) && 0 < r < p && r * b % p == 0
    ensures b % p == 0
    decreases r
  {
    if r > 1 {
      var t := p % r;
      assert t * b == b * p + (-(p / r * (r * b / p))) * p by {
        assert p == p / r * r + t;
        assert r * b == r * b / p * p;
        Distributed(p, p / r, r, t, b, r * b / p);
      }
      RemainderShift(0, b + -(p / r * (r * b / p)), p);
      assert (b + -(p / r * (r * b / p))) * p == t * b;
      PrimeResidue(p, t, b);
    }
  }

  lemma Distributed(p: int, q: int, r: int, t: int, b: int, m: int)
    requires p == q * r + t && r * b == m * p
    ensures t * b == b * p + (-(q * m)) * p
  {
    assert b * p == q * (r * b) + t * b;
    assert q * (m * p) == (q * m) * p;
  }

  lemma PrimeDivides(p: nat, a: nat, b: nat)
    requires Prime(p) && a * b % p == 0
    ensures a % p == 0 || b % p == 0
  {
    var r := a % p;
    assert a * b == a / p * b * p + r * b by { assert a == a / p * p + r; }
    RemainderShift(r * b, a / p * b, p);
    if r != 0 {
      PrimeResidue(p, r, b);
    }
  }

  lemma DividesProduct(g: nat, q: nat, n: nat)
    requires g > 0 && g * q == n
    ensures n % g == 0
  {
    RemainderIs(n, q, 0, g);
  }

  lemma WholeQuotient(q: nat, p: nat)
    requires p > 0 && q % p == 0
    ensures q == q / p * p
  {
  }

  lemma ProperDivisor(g: nat)
    requires 0 < g < 32767 && 32767 % g == 0
    ensures 4681 % g == 0 || 1057 % g == 0 || 217 % g == 0
  {
    hide Prime;
    var q := 32767 / g;
    assert g * q == 32767;
    SevenIsPrime();
    PrimeDivides(7, g, q);
    if q % 7 == 0 {
      WholeQuotient(q, 7);
      DividesProduct(g, q / 7, 4681) by { assert 7 * (g * (q / 7)) == g * q; }
    } else {
      ThirtyOneIsPrime();
      PrimeDivides(31, g, q);
      if q % 31 == 0 {
        WholeQuotient(q, 31);
        DividesProduct(g, q / 31, 1057) by { assert 31 * (g * (q / 31)) == g * q; }
      } else {
        WithoutBoth(g, q);
      }
    }
  }

  lemma WithoutBoth(g: nat, q: nat)
    requires 0 < g < 32767 && g * q == 32767 && g % 7 == 0 && g % 31 == 0
    ensures g == 217
  {
    hide Prime;
    var a := g / 7;
    ThirtyOneIsPrime();
    assert 7 * a % 31 == 0;
    PrimeDivides(31, 7, a);
    var h := a / 31;
    assert g == 217 * h;
    assert 217 * (h * q) == g * q;
    Cofactor151(h, q);
  }

  lemma ProperDivisorsOf32767()
    ensures DivisorsCovered(32767, 4681, 1057, 217)
  {
    forall g: nat | 0 < g < 32767 && 32767 % g == 0
      ensures 4681 % g == 0 || 1057 % g == 0 || 217 % g == 0
    {
      ProperDivisor(g);
    }
  }

  /** The register with a single bit set comes back after d quiet steps exactly when 32767 divides d. */
  lemma TopPeriod(d: nat)
    ensures After(d) == TOP <==> d % 32767 == 0
  {
    hide Iterate, Injective, DivisorsCovered, Shift, TOP;
    ShiftIsInjective();
    BackAfter32767();
    NotAfter217();
    NotAfter1057();
    NotAfter4681();
    ProperDivisorsOf32767();
    LeastPeriod(Shift, TOP, 32767, 4681, 1057, 217, d);
  }

  // ---- two wrong bits ------------------------------------------------------------------------

  lemma QuietStep(c: Reg)
    ensures Step(c, false) == Shift(c)
  {
  }

  lemma ErrorStep(c: Reg)
    ensures Step(c, true) == Xor(Shift(c), View(0x8408))
  {
  }

  lemma {:induction false} QuietRunIsShifts(c: Reg, bits: seq<bool>)
    requires Quiet(bits)
    ensures Run(c, bits) == Iterate(Shift, |bits|, c)
  {
    hide Step, Shift;
    if bits != [] {
      QuietRunIsShifts(c, bits[..|bits| - 1]);
      QuietStep(Run(c, bits[..|bits| - 1]));
    }
  }

  /** Exactly the bits i and j are set. */
  predicate OnlyAt(d: seq<bool>, i: nat, j: nat) {
    i < j < |d| && forall k :: 0 <= k < |d| ==> (d[k] <==> k == i || k == j)
  }

  /** The register right after a lone wrong bit, and its return. */
  const ALONE: Reg := View(0x8408)

  lemma FirstErrorLeaves(bits: seq<bool>)
    requires Quiet(bits)
    ensures Step(Run(ZERO, bits), true) == ALONE
  {
    hide Run;
    QuietRun(ZERO, bits);
  }

  lemma AloneReturns(n: nat)
    ensures Iterate(Shift, n, ALONE) == ALONE <==> n % 32767 == 0
  {
    hide Iterate, Injective, Shift;
    TopOrbit();
    ShiftIsInjective();
    IterateSum(Shift, n, 16, TOP);
    MeetingIsReturn(Shift, 16, n + 16, TOP);
    TopPeriod(n);
  }

  lemma SecondErrorLeaves(c: Reg, n: nat)
    requires c == Iterate(Shift, n, ALONE)
    ensures Step(c, true) == Xor(Iterate(Shift, n + 1, ALONE), ALONE)
  {
    hide Step, Xor, Shift;
    ErrorStep(c);
  }

  lemma OnlyAtParts(d: seq<bool>, i: nat, j: nat)
    requires OnlyAt(d, i, j)
    ensures Quiet(d[..i]) && d[i] && Quiet(d[i + 1..j]) && d[j] && Quiet(d[j + 1..])
  {
  }

  /** Two wrong bits leave no trace exactly when they are a multiple of 32767 bits apart. */
  lemma TwoErrorRun(d: seq<bool>, i: nat, j: nat)
    requires i < j < |d| && OnlyAt(d, i, j)
    ensures Run(ZERO, d) == ZERO <==> (j - i) % 32767 == 0
  {
    hide Step, Run, Quiet, Iterate, OnlyAt, Shift, Xor;
    OnlyAtParts(d, i, j);
    var mid := Run(ALONE, d[i + 1..j]);
    FirstErrorLeaves(d[..i]);
    RunStep(ZERO, d, i);
    RunAppend(ZERO, d[..i + 1], d[i + 1..j]);
    assert d[..i + 1] + d[i + 1..j] == d[..j];
    QuietRunIsShifts(ALONE, d[i + 1..j]);
    SecondErrorLeaves(mid, j - i - 1);
    RunStep(ZERO, d, j);
    RunAppend(ZERO, d[..j + 1], d[j + 1..]);
    assert d[..j + 1] + d[j + 1..] == d;
    QuietRun(Step(mid, true), d[j + 1..]);
    XorIsZero(Iterate(Shift, j - i, ALONE), ALONE);
    AloneReturns(j - i);
  }

  /** Two packets that differ in exactly two transmitted bits share a checksum exactly when those bits are
      a multiple of 32767 apart. */
  lemma DoubleErrors(p: seq<bv8>, q: seq<bv8>, i: nat, j: nat)
    requires |p| == |q| && OnlyAt(Difference(p, q), i, j)
    ensures Crc16(p) == Crc16(q) <==> (j - i) % 32767 == 0
  {
    hide Crc16, Difference, Run;
    SameCrcIffZeroDifference(p, q);
    TwoErrorRun(Difference(p, q), i, j);
  }

  /** So no two wrong bits go unnoticed in up to 4095 bytes; a 640-pixel YUV422 line with its footer has 1282. */
  lemma ShortPacketsSafe(p: seq<bv8>, q: seq<bv8>, i: nat, j: nat)
    requires |p| == |q| <= 4095 && OnlyAt(Difference(p, q), i, j)
    ensures Crc16(p) != Crc16(q)
  {
    hide Crc16, Difference;
    DoubleErrors(p, q, i, j);
  }

  /** What the transmitted 16-bit footers tell apart: two packets of one length with checksum words cp and cq
      have different words when they differ in a burst or in an odd number of bits, and when they differ in
      two bits, exactly unless those are a multiple of 32767 apart. */
  lemma ChecksumWordsDiffer(p: seq<bv8>, q: seq<bv8>, cp: bv16, cq: bv16, i: nat, j: nat)
    requires |p| == |q| && View(cp) == Crc16(p) && View(cq) == Crc16(q)
    ensures p != q && BurstAt(Difference(p, q), i) ==> cp != cq
    ensures Parity(Difference(p, q)) ==> cp != cq
    ensures OnlyAt(Difference(p, q), i, j) ==> (cp == cq <==> (j - i) % 32767 == 0)
  {
    hide View, Crc16, Difference, BurstAt, Parity, OnlyAt;
    ViewIsInjective(cp, cq);
    if p != q && BurstAt(Difference(p, q), i) { BurstsAreDetected(p, q, i); }
    if Parity(Difference(p, q)) { OddErrorsAreDetected(p, q); }
    if OnlyAt(Difference(p, q), i, j) { DoubleErrors(p, q, i, j); }
  }
}
