/** Two wrong bits: the checksum misses them exactly when they are a multiple of 32767 bits apart. */
module CrcDoubleErrors {
  import opened Orbits
  import opened Crc
  import opened CrcDetection

  // ---- the register as polynomials in the shift --------------------------------------

  /** Coefficients of a polynomial in the shift, constant term first. */
  datatype Poly = Nil | Cons(b: bool, tail: Poly)

  const TOP: Reg := View(0x8000)

  const ONE: Reg := View(0x0001)

  function Part(b: bool, s: Reg): Reg { if b then s else ZERO }

  /** The polynomial applied to a register: sum of b[i] * Shift^i(s). */
  function Apply(k: Poly, s: Reg): Reg {
    match k
    case Nil => ZERO
    case Cons(b, tail) => Xor(Part(b, s), Shift(Apply(tail, s)))
  }

  lemma ShiftIsLinear(a: Reg, b: Reg)
    ensures Shift(Xor(a, b)) == Xor(Shift(a), Shift(b))
  {
  }

  lemma XorZero(a: Reg)
    ensures Xor(a, ZERO) == a && Xor(ZERO, a) == a
  {
  }

  lemma XorSelf(a: Reg)
    ensures Xor(a, a) == ZERO
  {
  }

  lemma XorCommutes(a: Reg, b: Reg)
    ensures Xor(a, b) == Xor(b, a)
  {
  }

  lemma ShiftZero()
    ensures Shift(ZERO) == ZERO
  {
  }

  lemma XorAssociates(a: Reg, b: Reg, c: Reg)
    ensures Xor(Xor(a, b), c) == Xor(a, Xor(b, c))
  {
  }

  lemma XorSwap(a: Reg, b: Reg, c: Reg, d: Reg)
    ensures Xor(Xor(a, b), Xor(c, d)) == Xor(Xor(a, c), Xor(b, d))
  {
    hide Xor;
    XorAssociates(a, b, Xor(c, d));
    XorAssociates(b, c, d);
    XorCommutes(b, c);
    XorAssociates(c, b, d);
    XorAssociates(a, c, Xor(b, d));
  }

  lemma {:induction false} ApplyShifted(k: Poly, s: Reg)
    ensures Apply(k, Shift(s)) == Shift(Apply(k, s))
  {
    hide Xor, Shift;
    XorZero(ZERO);
    ShiftZero();
    match k
    case Nil =>
    case Cons(b, tail) =>
      ApplyShifted(tail, s);
      ShiftIsLinear(Part(b, s), Shift(Apply(tail, s)));
  }

  lemma {:induction false} ApplyIterated(k: Poly, n: nat, s: Reg)
    ensures Apply(k, Iterate(Shift, n, s)) == Iterate(Shift, n, Apply(k, s))
  {
    hide Apply, Shift;
    if n > 0 {
      ApplyIterated(k, n - 1, s);
      ApplyShifted(k, Iterate(Shift, n - 1, s));
    }
  }

  lemma PartOfXor(b: bool, s: Reg, t: Reg)
    ensures Part(b, Xor(s, t)) == Xor(Part(b, s), Part(b, t))
  {
    hide Xor;
    XorZero(ZERO);
    ShiftZero();
  }

  lemma {:induction false} ApplyToXor(k: Poly, s: Reg, t: Reg)
    ensures Apply(k, Xor(s, t)) == Xor(Apply(k, s), Apply(k, t))
  {
    hide Xor, Shift, Part;
    XorZero(ZERO);
    ShiftZero();
    match k
    case Nil =>
    case Cons(b, tail) =>
      ApplyToXor(tail, s, t);
      PartOfXor(b, s, t);
      ShiftIsLinear(Apply(tail, s), Apply(tail, t));
      XorSwap(Part(b, s), Part(b, t), Shift(Apply(tail, s)), Shift(Apply(tail, t)));
  }

  /** The polynomial with one more, highest, coefficient. */
  function Snoc(k: Poly, b: bool): Poly {
    match k
    case Nil => Cons(b, Nil)
    case Cons(c, tail) => Cons(c, Snoc(tail, b))
  }

  function Length(k: Poly): nat {
    match k
    case Nil => 0
    case Cons(_, tail) => 1 + Length(tail)
  }

  lemma {:induction false} ApplySnoc(k: Poly, b: bool, s: Reg)
    ensures Apply(Snoc(k, b), s) == Xor(Apply(k, s), Part(b, Iterate(Shift, Length(k), s)))
  {
    hide Xor, Shift;
    match k
    case Nil =>
      XorZero(Part(b, s));
      ShiftZero();
      assert Iterate(Shift, 0, s) == s;
    case Cons(c, tail) =>
      var high := Iterate(Shift, Length(tail), s);
      ApplySnoc(tail, b, s);
      ShiftIsLinear(Apply(tail, s), Part(b, high));
      XorZero(ZERO);
    ShiftZero();
      XorAssociates(Part(c, s), Shift(Apply(tail, s)), Shift(Part(b, high)));
  }

  /** Coefficientwise difference of polynomials of equal length. */
  function XorPoly(k: Poly, l: Poly): Poly
    requires Length(k) == Length(l)
  {
    match k
    case Nil => Nil
    case Cons(b, tail) => Cons(b != l.b, XorPoly(tail, l.tail))
  }

  lemma PartOfXorBit(a: bool, b: bool, s: Reg)
    ensures Part(a != b, s) == Xor(Part(a, s), Part(b, s))
  {
    hide Xor;
    XorZero(s);
    XorZero(ZERO);
    XorSelf(s);
  }

  lemma {:induction false} ApplyXorPoly(k: Poly, l: Poly, s: Reg)
    requires Length(k) == Length(l)
    ensures Apply(XorPoly(k, l), s) == Xor(Apply(k, s), Apply(l, s))
  {
    hide Xor, Shift, Part;
    match k
    case Nil =>
      XorZero(ZERO);
    ShiftZero();
    case Cons(b, tail) =>
      ApplyXorPoly(tail, l.tail, s);
      PartOfXorBit(b, l.b, s);
      ShiftIsLinear(Apply(tail, s), Apply(l.tail, s));
      XorSwap(Part(b, s), Part(l.b, s), Shift(Apply(tail, s)), Shift(Apply(l.tail, s)));
  }

  // ---- every register is a polynomial applied to TOP ------------------------------------

  function Cons4(d: bool, c: bool, b: bool, a: bool, k: Poly): Poly { Cons(d, Cons(c, Cons(b, Cons(a, k)))) }

  function Low4(c: Reg): Poly { Cons4(c.b3, c.b2, c.b1, c.b0, Nil) }

  function Low8(c: Reg): Poly { Cons4(c.b7, c.b6, c.b5, c.b4, Low4(c)) }

  function Low12(c: Reg): Poly { Cons4(c.b11, c.b10, c.b9, c.b8, Low8(c)) }

  /** The polynomial a register stands for: bit 15-i is the coefficient of Shift^i. */
  function PolyOf(c: Reg): Poly { Cons4(c.b15, c.b14, c.b13, c.b12, Low12(c)) }

  lemma ApplyStep(b: bool, tail: Poly, s: Reg)
    ensures Apply(Cons(b, tail), s) == Xor(Part(b, s), Shift(Apply(tail, s)))
  {
  }

  /** The register moved down one place with b on top. */
  function Pushed(t: Reg, b: bool): Reg {
    Reg(t.b1, t.b2, t.b3, t.b4, t.b5, t.b6, t.b7, t.b8, t.b9, t.b10, t.b11, t.b12, t.b13, t.b14, t.b15, b)
  }

  lemma PushTop(b: bool, t: Reg)
    requires !t.b0
    ensures Xor(Part(b, TOP), Shift(t)) == Pushed(t, b)
  {
  }

  lemma ApplyPush(b: bool, tail: Poly)
    requires !Apply(tail, TOP).b0
    ensures Apply(Cons(b, tail), TOP) == Pushed(Apply(tail, TOP), b)
  {
    hide Xor, Shift, Pushed;
    ApplyStep(b, tail, TOP);
    PushTop(b, Apply(tail, TOP));
  }

  /** Moved down four places with a, b, c, d on top, d uppermost. */
  function Filled4(d: bool, c: bool, b: bool, a: bool, t: Reg): Reg {
    Reg(t.b4, t.b5, t.b6, t.b7, t.b8, t.b9, t.b10, t.b11, t.b12, t.b13, t.b14, t.b15, a, b, c, d)
  }

  lemma PushFour(d: bool, c: bool, b: bool, a: bool, t: Reg)
    ensures Pushed(Pushed(Pushed(Pushed(t, a), b), c), d) == Filled4(d, c, b, a, t)
  {
  }

  lemma LowBits(a: bool, b: bool, c: bool, t: Reg)
    ensures Pushed(t, a).b0 == t.b1 && Pushed(Pushed(t, a), b).b0 == t.b2
    ensures Pushed(Pushed(Pushed(t, a), b), c).b0 == t.b3
  {
  }

  lemma BuildFour(d: bool, c: bool, b: bool, a: bool, k: Poly)
    requires var t := Apply(k, TOP); !t.b0 && !t.b1 && !t.b2 && !t.b3
    ensures Apply(Cons4(d, c, b, a, k), TOP) == Filled4(d, c, b, a, Apply(k, TOP))
  {
    hide Apply, Pushed, Filled4;
    LowBits(a, b, c, Apply(k, TOP));
    ApplyPush(a, k);
    ApplyPush(b, Cons(a, k));
    ApplyPush(c, Cons(b, Cons(a, k)));
    ApplyPush(d, Cons(c, Cons(b, Cons(a, k))));
    PushFour(d, c, b, a, Apply(k, TOP));
  }

  /** The top n bits of the register hold c's low n bits. */
  function Quarter1(c: Reg): Reg {
    Reg(false, false, false, false, false, false, false, false, false, false, false, false, c.b0, c.b1, c.b2, c.b3)
  }

  function Quarter2(c: Reg): Reg {
    Reg(false, false, false, false, false, false, false, false, c.b0, c.b1, c.b2, c.b3, c.b4, c.b5, c.b6, c.b7)
  }

  function Quarter3(c: Reg): Reg {
    Reg(false, false, false, false, c.b0, c.b1, c.b2, c.b3, c.b4, c.b5, c.b6, c.b7, c.b8, c.b9, c.b10, c.b11)
  }

  lemma Fill1(c: Reg)
    ensures Filled4(c.b3, c.b2, c.b1, c.b0, ZERO) == Quarter1(c)
  {
  }

  lemma Fill2(c: Reg)
    ensures Filled4(c.b7, c.b6, c.b5, c.b4, Quarter1(c)) == Quarter2(c)
  {
  }

  lemma Fill3(c: Reg)
    ensures Filled4(c.b11, c.b10, c.b9, c.b8, Quarter2(c)) == Quarter3(c)
  {
  }

  lemma Fill4(c: Reg)
    ensures Filled4(c.b15, c.b14, c.b13, c.b12, Quarter3(c)) == c
  {
  }

  predicate LowClear(t: Reg) { !t.b0 && !t.b1 && !t.b2 && !t.b3 }

  lemma QuartersClear(c: Reg)
    ensures LowClear(ZERO) && LowClear(Quarter1(c)) && LowClear(Quarter2(c)) && LowClear(Quarter3(c))
  {
  }

  lemma BuildOn(d: bool, c: bool, b: bool, a: bool, k: Poly, t: Reg, u: Reg)
    requires Apply(k, TOP) == t && LowClear(t) && Filled4(d, c, b, a, t) == u
    ensures Apply(Cons4(d, c, b, a, k), TOP) == u
  {
    hide Apply, Filled4, Cons4;
    BuildFour(d, c, b, a, k);
  }

  /** Every register is rebuilt from its coefficients on TOP. */
  lemma PolyRebuilds(c: Reg)
    ensures Apply(PolyOf(c), TOP) == c
  {
    hide Apply, Filled4, Cons4, LowClear, Quarter1, Quarter2, Quarter3, TOP, ZERO;
    NilApply(TOP);
    QuartersClear(c);
    Fill1(c); Fill2(c); Fill3(c); Fill4(c);
    BuildOn(c.b3, c.b2, c.b1, c.b0, Nil, ZERO, Quarter1(c));
    BuildOn(c.b7, c.b6, c.b5, c.b4, Low4(c), Quarter1(c), Quarter2(c));
    BuildOn(c.b11, c.b10, c.b9, c.b8, Low8(c), Quarter2(c), Quarter3(c));
    BuildOn(c.b15, c.b14, c.b13, c.b12, Low12(c), Quarter3(c), c);
  }

  // ---- the shift's own equation, and multiplication ------------------------------------

  function Shift4(r: Reg): Reg { Shift(Shift(Shift(Shift(r)))) }

  lemma IterateFour(n: nat, s: Reg)
    ensures Iterate(Shift, n + 4, s) == Shift4(Iterate(Shift, n, s))
  {
    hide Shift;
    assert Iterate(Shift, n + 1, s) == Shift(Iterate(Shift, n, s));
    assert Iterate(Shift, n + 2, s) == Shift(Iterate(Shift, n + 1, s));
    assert Iterate(Shift, n + 3, s) == Shift(Iterate(Shift, n + 2, s));
    assert Iterate(Shift, n + 4, s) == Shift(Iterate(Shift, n + 3, s));
  }

  /** The first sixteen shifts of TOP. */
  lemma TopOrbit()
    ensures Iterate(Shift, 5, TOP) == View(0x0400) && Iterate(Shift, 12, TOP) == View(0x0008)
    ensures Iterate(Shift, 15, TOP) == ONE && Iterate(Shift, 16, TOP) == View(0x8408)
  {
    assert Iterate(Shift, 0, TOP) == TOP;
    assert Iterate(Shift, 1, TOP) == Shift(Iterate(Shift, 0, TOP));
    TopShifts();
    hide Shift4, Shift, Iterate;
    IterateFour(0, TOP); IterateFour(1, TOP); IterateFour(4, TOP); IterateFour(8, TOP);
    IterateFour(7, TOP); IterateFour(3, TOP); IterateFour(11, TOP); IterateFour(12, TOP);
  }

  lemma TopShifts()
    ensures Shift(TOP) == View(0x4000)
    ensures Shift4(TOP) == View(0x0800) && Shift4(View(0x4000)) == View(0x0400)
    ensures Shift4(View(0x0800)) == View(0x0080) && Shift4(View(0x0080)) == View(0x0008)
    ensures Shift4(View(0x0008)) == View(0x8408)
  {
  }

  /** Sixteen shifts are the feedback polynomial: every register is rebuilt from its coefficients on TOP, so
      what holds on TOP holds everywhere: Shift^16 = 1 + Shift^5 + Shift^12, on every register. */
  lemma ShiftEquation(s: Reg)
    ensures Iterate(Shift, 16, s) == Xor(s, Xor(Iterate(Shift, 5, s), Iterate(Shift, 12, s)))
  {
    hide Shift, Iterate, Apply, PolyOf, Xor;
    var k := PolyOf(s);
    var t5, t12 := Iterate(Shift, 5, TOP), Iterate(Shift, 12, TOP);
    PolyRebuilds(s);
    TopOrbit();
    FeedbackWord();
    ApplyIterated(k, 16, TOP); ApplyIterated(k, 5, TOP); ApplyIterated(k, 12, TOP);
    ApplyToXor(k, TOP, Xor(t5, t12));
    ApplyToXor(k, t5, t12);
  }

  lemma FeedbackWord()
    ensures View(0x8408) == Xor(TOP, Xor(View(0x0400), View(0x0008)))
  {
  }

  /** The register c, read as a polynomial, applied to s. */
  function Mul(c: Reg, s: Reg): Reg { Apply(PolyOf(c), s) }

  /** 1 + x^5 + x^12 or nothing, sixteen coefficients. */
  function Feedback(b: bool): Poly {
    Cons4(b, false, false, false, Cons4(false, b, false, false, Cons4(false, false, false, false, Cons4(b, false, false, false, Nil))))
  }

  /** The coefficients of c raised by one place, without the highest. */
  function Raised(c: Reg): Poly {
    Cons4(false, c.b15, c.b14, c.b13, Cons4(c.b12, c.b11, c.b10, c.b9, Cons4(c.b8, c.b7, c.b6, c.b5,
      Cons4(c.b4, c.b3, c.b2, c.b1, Nil))))
  }

  lemma FourMore(d: bool, c: bool, b: bool, a: bool, k: Poly, e: bool)
    ensures Length(Cons4(d, c, b, a, k)) == 4 + Length(k)
    ensures Snoc(Cons4(d, c, b, a, k), e) == Cons4(d, c, b, a, Snoc(k, e))
  {
    assert Length(Cons(a, k)) == 1 + Length(k) && Snoc(Cons(a, k), e) == Cons(a, Snoc(k, e));
    assert Length(Cons(b, Cons(a, k))) == 2 + Length(k) && Snoc(Cons(b, Cons(a, k)), e) == Cons(b, Snoc(Cons(a, k), e));
  }

  lemma XorFour(d: bool, c: bool, b: bool, a: bool, k: Poly, d': bool, c': bool, b': bool, a': bool, l: Poly)
    requires Length(k) == Length(l)
    ensures Length(Cons4(d, c, b, a, k)) == Length(Cons4(d', c', b', a', l))
    ensures XorPoly(Cons4(d, c, b, a, k), Cons4(d', c', b', a', l)) ==
            Cons4(d != d', c != c', b != b', a != a', XorPoly(k, l))
  {
    FourMore(d, c, b, a, k, false);
    FourMore(d', c', b', a', l, false);
    assert XorPoly(Cons(a, k), Cons(a', l)) == Cons(a != a', XorPoly(k, l));
    assert XorPoly(Cons(b, Cons(a, k)), Cons(b', Cons(a', l))) == Cons(b != b', XorPoly(Cons(a, k), Cons(a', l)));
  }

  lemma RaisedSnoc(c: Reg)
    ensures Snoc(Raised(c), c.b0) == Cons(false, PolyOf(c)) && Length(Raised(c)) == 16
  {
    hide Snoc, Length;
    var k1 := Cons4(c.b4, c.b3, c.b2, c.b1, Nil);
    var k2 := Cons4(c.b8, c.b7, c.b6, c.b5, k1);
    var k3 := Cons4(c.b12, c.b11, c.b10, c.b9, k2);
    NilSnoc(c.b0);
    FourMore(c.b4, c.b3, c.b2, c.b1, Nil, c.b0);
    FourMore(c.b8, c.b7, c.b6, c.b5, k1, c.b0);
    FourMore(c.b12, c.b11, c.b10, c.b9, k2, c.b0);
    FourMore(false, c.b15, c.b14, c.b13, k3, c.b0);
  }

  lemma NilSnoc(b: bool)
    ensures Snoc(Nil, b) == Cons(b, Nil) && Length(Nil) == 0
  {
  }

  // The quarters of a coefficientwise difference with the feedback polynomial.

  lemma XorFirst(d: bool, c: bool, b: bool, a: bool, k: Poly, f: bool, l: Poly)
    requires Length(k) == Length(l)
    ensures Length(Cons4(d, c, b, a, k)) == Length(Cons4(f, false, false, false, l))
    ensures XorPoly(Cons4(d, c, b, a, k), Cons4(f, false, false, false, l)) == Cons4(d != f, c, b, a, XorPoly(k, l))
  {
    hide XorPoly, Length;
    XorFour(d, c, b, a, k, f, false, false, false, l);
  }

  lemma XorSecond(d: bool, c: bool, b: bool, a: bool, k: Poly, f: bool, l: Poly)
    requires Length(k) == Length(l)
    ensures Length(Cons4(d, c, b, a, k)) == Length(Cons4(false, f, false, false, l))
    ensures XorPoly(Cons4(d, c, b, a, k), Cons4(false, f, false, false, l)) == Cons4(d, c != f, b, a, XorPoly(k, l))
  {
    hide XorPoly, Length;
    XorFour(d, c, b, a, k, false, f, false, false, l);
  }

  lemma XorNone(d: bool, c: bool, b: bool, a: bool, k: Poly, l: Poly)
    requires Length(k) == Length(l)
    ensures Length(Cons4(d, c, b, a, k)) == Length(Cons4(false, false, false, false, l))
    ensures XorPoly(Cons4(d, c, b, a, k), Cons4(false, false, false, false, l)) == Cons4(d, c, b, a, XorPoly(k, l))
  {
    hide XorPoly, Length;
    XorFour(d, c, b, a, k, false, false, false, false, l);
  }

  lemma XorFront(c: bool, b: bool, a: bool, k: Poly, f: bool, l: Poly)
    requires Length(k) == Length(l)
    ensures Length(Cons4(false, c, b, a, k)) == Length(Cons4(f, false, false, false, l))
    ensures XorPoly(Cons4(false, c, b, a, k), Cons4(f, false, false, false, l)) == Cons4(f, c, b, a, XorPoly(k, l))
  {
    hide XorPoly, Length;
    XorFour(false, c, b, a, k, f, false, false, false, l);
  }

  lemma ShiftedCoefficients(c: Reg)
    ensures PolyOf(Shift(c)) ==
            Cons4(c.b0, c.b15, c.b14, c.b13, Cons4(c.b12, c.b11 != c.b0, c.b10, c.b9, Cons4(c.b8, c.b7, c.b6, c.b5,
              Cons4(c.b4 != c.b0, c.b3, c.b2, c.b1, Nil))))
  {
    hide Cons4;
  }

  lemma LowerQuarters(c: Reg, k2: Poly, l2: Poly)
    requires k2 == Cons4(c.b8, c.b7, c.b6, c.b5, Cons4(c.b4, c.b3, c.b2, c.b1, Nil))
    requires l2 == Cons4(false, false, false, false, Cons4(c.b0, false, false, false, Nil))
    ensures Length(k2) == Length(l2)
    ensures XorPoly(k2, l2) == Cons4(c.b8, c.b7, c.b6, c.b5, Cons4(c.b4 != c.b0, c.b3, c.b2, c.b1, Nil))
  {
    hide XorPoly, Length, Cons4;
    NilXor();
    XorFirst(c.b4, c.b3, c.b2, c.b1, Nil, c.b0, Nil);
    XorNone(c.b8, c.b7, c.b6, c.b5, Cons4(c.b4, c.b3, c.b2, c.b1, Nil), Cons4(c.b0, false, false, false, Nil));
  }

  lemma UpperQuarters(c: Reg, k2: Poly, l2: Poly)
    requires Length(k2) == Length(l2)
    ensures var k, l := Cons4(false, c.b15, c.b14, c.b13, Cons4(c.b12, c.b11, c.b10, c.b9, k2)),
                        Cons4(c.b0, false, false, false, Cons4(false, c.b0, false, false, l2));
      && Length(k) == Length(l)
      && XorPoly(k, l) == Cons4(c.b0, c.b15, c.b14, c.b13, Cons4(c.b12, c.b11 != c.b0, c.b10, c.b9, XorPoly(k2, l2)))
  {
    hide XorPoly, Length, Cons4;
    XorSecond(c.b12, c.b11, c.b10, c.b9, k2, c.b0, l2);
    XorFront(c.b15, c.b14, c.b13, Cons4(c.b12, c.b11, c.b10, c.b9, k2), c.b0, Cons4(false, c.b0, false, false, l2));
  }

  /** Shifting the register multiplies its polynomial by x, modulo the shift equation. */
  lemma ShiftedPoly(c: Reg, k2: Poly, l2: Poly)
    requires k2 == Cons4(c.b8, c.b7, c.b6, c.b5, Cons4(c.b4, c.b3, c.b2, c.b1, Nil))
    requires l2 == Cons4(false, false, false, false, Cons4(c.b0, false, false, false, Nil))
    ensures Length(Raised(c)) == Length(Feedback(c.b0))
    ensures PolyOf(Shift(c)) == XorPoly(Raised(c), Feedback(c.b0))
  {
    hide XorPoly, Length, Cons4, Shift, PolyOf;
    LowerQuarters(c, k2, l2);
    UpperQuarters(c, k2, l2);
    ShiftedCoefficients(c);
  }

  lemma NilXor()
    ensures Length(Nil) == 0 && XorPoly(Nil, Nil) == Nil
  {
  }

  lemma Shift4IsLinear(a: Reg, b: Reg)
    ensures Shift4(Xor(a, b)) == Xor(Shift4(a), Shift4(b))
  {
    hide Shift, Xor;
    ShiftIsLinear(a, b);
    ShiftIsLinear(Shift(a), Shift(b));
    ShiftIsLinear(Shift(Shift(a)), Shift(Shift(b)));
    ShiftIsLinear(Shift(Shift(Shift(a))), Shift(Shift(Shift(b))));
  }

  /** Four coefficients of which only the lowest, or only the next, may be set. */
  lemma ApplyFour(b: bool, k: Poly, s: Reg)
    ensures Apply(Cons4(b, false, false, false, k), s) == Xor(Part(b, s), Shift4(Apply(k, s)))
    ensures Apply(Cons4(false, b, false, false, k), s) == Xor(Shift(Part(b, s)), Shift4(Apply(k, s)))
  {
    hide Apply, Shift, Xor;
    var k1 := Cons(false, k);
    var k2 := Cons(false, k1);
    ApplyStep(false, k, s);
    ApplyStep(false, k1, s);
    XorZero(Shift(Apply(k, s)));
    XorZero(Shift(Apply(k1, s)));
    ApplyStep(false, k2, s);
    XorZero(Shift(Apply(k2, s)));
    ApplyStep(b, Cons(false, k2), s);
    ApplyStep(b, k2, s);
    ApplyStep(false, Cons(b, k2), s);
    XorZero(Shift(Apply(Cons(b, k2), s)));
    ShiftIsLinear(Part(b, s), Shift(Apply(k2, s)));
  }

  lemma NilApply(s: Reg)
    ensures Apply(Nil, s) == ZERO
  {
  }

  lemma FewShifts(s: Reg)
    ensures Iterate(Shift, 5, s) == Shift4(Shift(s)) && Iterate(Shift, 12, s) == Shift4(Shift4(Shift4(s)))
  {
    assert Iterate(Shift, 0, s) == s;
    assert Iterate(Shift, 1, s) == Shift(Iterate(Shift, 0, s));
    hide Shift, Shift4, Iterate;
    IterateFour(1, s);
    IterateFour(0, s); IterateFour(4, s); IterateFour(8, s);
  }

  lemma MulShift(c: Reg, s: Reg)
    ensures Mul(Shift(c), s) == Shift(Mul(c, s))
  {
    hide Apply, Shift, Xor, Iterate, PolyOf, Raised, Snoc, Length, XorPoly;
    var high := Iterate(Shift, 16, s);
    assert Apply(Feedback(c.b0), s) == Part(c.b0, high) by {
      hide Cons4;
      var b := c.b0;
      var p := Part(b, s);
      var l1 := Cons4(b, false, false, false, Nil);
      var l2 := Cons4(false, false, false, false, l1);
      var l3 := Cons4(false, b, false, false, l2);
      NilApply(s);
      ShiftZero();
      ApplyFour(b, Nil, s);
      ApplyFour(false, l1, s);
      ApplyFour(b, l2, s);
      ApplyFour(b, l3, s);
      XorZero(p);
      XorZero(Shift4(p));
      Shift4IsLinear(Shift(p), Shift4(Shift4(p)));
      if b {
        ShiftEquation(s);
        FewShifts(s);
      } else {
        XorZero(ZERO);
      }
    }
    hide Feedback;
    RaisedSnoc(c);
    ShiftedPoly(c, Cons4(c.b8, c.b7, c.b6, c.b5, Cons4(c.b4, c.b3, c.b2, c.b1, Nil)),
                Cons4(false, false, false, false, Cons4(c.b0, false, false, false, Nil)));
    ApplyXorPoly(Raised(c), Feedback(c.b0), s);
    ApplySnoc(Raised(c), c.b0, s);
    ApplyStep(false, PolyOf(c), s);
    XorZero(Shift(Mul(c, s)));
  }

  lemma MulTop(s: Reg)
    ensures Mul(TOP, s) == s
  {
    hide Apply, Shift, Xor;
    NilApply(s);
    ApplyFour(false, Nil, s);
    XorZero(ZERO);
    ShiftZero();
    var z4 := Cons4(false, false, false, false, Nil);
    ApplyFour(false, z4, s);
    ApplyFour(false, Cons4(false, false, false, false, z4), s);
    ApplyFour(true, Cons4(false, false, false, false, Cons4(false, false, false, false, z4)), s);
    XorZero(s);
  }

  /** The state TOP reaches after n shifts. */
  function After(n: nat): Reg { Iterate(Shift, n, TOP) }

  /** n shifts of any register are multiplication by After(n). */
  lemma {:induction false} ShiftsAreMul(n: nat, s: Reg)
    ensures Iterate(Shift, n, s) == Mul(After(n), s)
  {
    hide Shift, Mul;
    if n == 0 {
      MulTop(s);
    } else {
      ShiftsAreMul(n - 1, s);
      MulShift(After(n - 1), s);
    }
  }

  lemma AfterSum(a: nat, b: nat)
    ensures After(a + b) == Mul(After(a), After(b))
  {
    hide Shift, Mul, Iterate;
    IterateSum(Shift, a, b, TOP);
    ShiftsAreMul(a, After(b));
  }
}
