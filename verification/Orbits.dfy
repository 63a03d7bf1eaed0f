/** Orbits of an invertible step: sums of step counts, periods, and when a period is the least one. */
module Orbits {
  import opened Arithmetic

  function Iterate<T>(f: T -> T, n: nat, x: T): T {
    if n == 0 then x else f(Iterate(f, n - 1, x))
  }

  ghost predicate Injective<T(!new)>(f: T -> T) {
    forall x, y :: f(x) == f(y) ==> x == y
  }

  lemma {:induction false} IterateSum<T>(f: T -> T, a: nat, b: nat, x: T)
    ensures Iterate(f, a + b, x) == Iterate(f, a, Iterate(f, b, x))
  {
    if a > 0 {
      IterateSum(f, a - 1, b, x);
    }
  }

  lemma {:induction false} IterateInjective<T(!new)>(f: T -> T, n: nat, x: T, y: T)
    requires Injective(f) && Iterate(f, n, x) == Iterate(f, n, y)
    ensures x == y
  {
    if n > 0 {
      IterateInjective(f, n - 1, x, y);
    }
  }

  ghost predicate Returns<T>(f: T -> T, n: nat, x: T) {
    Iterate(f, n, x) == x
  }

  lemma {:induction false} ReturnsTimes<T>(f: T -> T, n: nat, q: nat, x: T)
    requires Returns(f, n, x)
    ensures Returns(f, q * n, x)
  {
    if q > 0 {
      ReturnsTimes(f, n, q - 1, x);
      assert q * n == n + (q - 1) * n;
      MulMonotone(0, q - 1, n);
      IterateSum(f, n, (q - 1) * n, x);
    }
  }

  lemma ReturnsMultiple<T>(f: T -> T, n: nat, m: nat, x: T)
    requires n > 0 && m % n == 0 && Returns(f, n, x)
    ensures Returns(f, m, x)
  {
    assert m == m / n * n;
    ReturnsTimes(f, n, m / n, x);
  }

  /** Equal states on an orbit: the distance between them is a period. */
  lemma MeetingIsReturn<T(!new)>(f: T -> T, i: nat, j: nat, x: T)
    requires Injective(f) && i <= j
    ensures Iterate(f, i, x) == Iterate(f, j, x) <==> Returns(f, j - i, x)
  {
    IterateSum(f, i, j - i, x);
    if Iterate(f, i, x) == Iterate(f, j, x) {
      IterateInjective(f, i, x, Iterate(f, j - i, x));
    }
  }

  lemma ReturnsRemainder<T(!new)>(f: T -> T, a: nat, d: nat, x: T)
    requires Injective(f) && d > 0 && Returns(f, a, x) && Returns(f, d, x)
    ensures Returns(f, a % d, x)
  {
    ReturnsTimes(f, d, a / d, x);
    assert a == a / d * d + a % d;
    MeetingIsReturn(f, a / d * d, a, x);
  }

  lemma DivisibleSum(a: nat, d: nat, g: nat)
    requires d > 0 && g > 0 && d % g == 0 && (a % d) % g == 0
    ensures a % g == 0
  {
    var q, r := d / g, a % d / g;
    assert d == q * g && a % d == r * g;
    assert a == a / d * (q * g) + r * g;
    assert a / d * (q * g) == (a / d * q) * g;
    RemainderIs(a, a / d * q + r, 0, g) by { assert (a / d * q + r) * g == (a / d * q) * g + r * g; }
  }

  /** Two periods have a common divisor that is a period too (Euclid's algorithm on step counts). */
  lemma {:induction false} CommonPeriod<T(!new)>(f: T -> T, a: nat, d: nat, x: T) returns (g: nat)
    requires Injective(f) && d > 0 && Returns(f, a, x) && Returns(f, d, x)
    ensures 0 < g <= d && a % g == 0 && d % g == 0 && Returns(f, g, x)
    decreases d
  {
    ReturnsRemainder(f, a, d, x);
    if a % d == 0 {
      g := d;
      RemainderIs(d, 1, 0, d);
    } else {
      g := CommonPeriod(f, d, a % d, x);
      DivisibleSum(a, d, g);
    }
  }

  /** Every proper divisor of n divides one of a, b, c. */
  ghost predicate DivisorsCovered(n: nat, a: nat, b: nat, c: nat) {
    forall g: nat :: 0 < g < n && n % g == 0 ==> a % g == 0 || b % g == 0 || c % g == 0
  }

  /** A period none of whose maximal proper divisors is a period is the least one. */
  lemma LeastPeriod<T(!new)>(f: T -> T, x: T, n: nat, a: nat, b: nat, c: nat, d: nat)
    requires Injective(f) && n > 0 && Returns(f, n, x) && DivisorsCovered(n, a, b, c)
    requires !Returns(f, a, x) && !Returns(f, b, x) && !Returns(f, c, x)
    ensures Returns(f, d, x) <==> d % n == 0
  {
    if d % n == 0 {
      ReturnsMultiple(f, n, d, x);
    } else if Returns(f, d, x) {
      ReturnsRemainder(f, d, n, x);
      var g := CommonPeriod(f, n, d % n, x);
      if a % g == 0 { ReturnsMultiple(f, g, a, x); }
      if b % g == 0 { ReturnsMultiple(f, g, b, x); }
      if c % g == 0 { ReturnsMultiple(f, g, c, x); }
    }
  }
}
