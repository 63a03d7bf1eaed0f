/** Finite sums of integer functions: congruence, splitting into rows, periodic summands. */
module Sums {
  import opened Arithmetic

  function Sum(f: int -> int, n: nat): int {
    if n == 0 then 0 else Sum(f, n - 1) + f(n - 1)
  }

  lemma {:induction false} SumCongruence(f: int -> int, g: int -> int, n: nat)
    requires forall i :: 0 <= i < n ==> f(i) == g(i)
    ensures Sum(f, n) == Sum(g, n)
  {
    if n > 0 { SumCongruence(f, g, n - 1); }
  }

  lemma {:induction false} SumConstant(f: int -> int, n: nat, c: int)
    requires forall i :: 0 <= i < n ==> f(i) == c
    ensures Sum(f, n) == n * c
  {
    if n > 0 {
      SumConstant(f, n - 1, c);
      assert n * c == (n - 1) * c + c;
    }
  }

  lemma {:induction false} SumSplit(f: int -> int, m: nat, n: nat)
    ensures Sum(f, m + n) == Sum(f, m) + Sum(i => f(m + i), n)
  {
    if n > 0 { SumSplit(f, m, n - 1); }
  }

  /** Summing h rows of w entries row by row. */
  lemma {:induction false} SumOfRows(f: int -> int, w: nat, h: nat, row: int -> int)
    requires forall r :: 0 <= r < h ==> Sum(i => f(r * w + i), w) == row(r)
    ensures h * w >= 0 && Sum(f, h * w) == Sum(row, h)
  {
    MulMonotone(0, h, w);
    if h > 0 {
      SumOfRows(f, w, h - 1, row);
      MulMonotone(0, h - 1, w);
      assert h * w == (h - 1) * w + w;
      SumSplit(f, (h - 1) * w, w);
      assert Sum(i => f((h - 1) * w + i), w) == row(h - 1);
    }
  }

  lemma SumOfEqualRows(f: int -> int, w: nat, h: nat, c: int)
    requires forall r :: 0 <= r < h ==> Sum(i => f(r * w + i), w) == c
    ensures h * w >= 0 && Sum(f, h * w) == h * c
  {
    SumOfRows(f, w, h, r => c);
    SumConstant(r => c, h, c);
  }

  lemma {:induction false} SumScaled(f: int -> int, n: nat, k: int)
    ensures Sum(i => k * f(i), n) == k * Sum(f, n)
  {
    if n > 0 {
      SumScaled(f, n - 1, k);
      assert k * (Sum(f, n - 1) + f(n - 1)) == k * Sum(f, n - 1) + k * f(n - 1);
    }
  }

  lemma SumFour(f: int -> int)
    ensures Sum(f, 4) == f(0) + f(1) + f(2) + f(3)
  {
  }

  lemma SumSixteen(f: int -> int)
    ensures Sum(f, 16) == f(0) + f(1) + f(2) + f(3) + f(4) + f(5) + f(6) + f(7)
                          + f(8) + f(9) + f(10) + f(11) + f(12) + f(13) + f(14) + f(15)
  {
    assert Sum(f, 4) == f(0) + f(1) + f(2) + f(3);
    assert Sum(f, 8) == Sum(f, 4) + f(4) + f(5) + f(6) + f(7);
    assert Sum(f, 12) == Sum(f, 8) + f(8) + f(9) + f(10) + f(11);
  }

  // ---- sums along a walk ----------------------------------------------------------

  function Plus(f: int -> int, g: int -> int): int -> int { i => f(i) + g(i) }

  /** f at y, zero elsewhere. */
  function Point(f: int -> int, y: int): int -> int { x => if x == y then f(x) else 0 }

  function Along(f: int -> int, t: int -> int): int -> int { i => f(t(i)) }

  predicate InRange(t: int -> int, m: nat, lo: int, hi: int) { forall i :: 0 <= i < m ==> lo <= t(i) < hi }

  predicate Distinct(t: int -> int, m: nat) { forall i, j :: 0 <= i < j < m ==> t(i) != t(j) }

  /** How often the first m values of t hit y. */
  function Hits(t: int -> int, m: nat, y: int): nat {
    if m == 0 then 0 else Hits(t, m - 1, y) + if t(m - 1) == y then 1 else 0
  }

  /** f weighed by the visits of the first m steps. */
  function Weighed(f: int -> int, t: int -> int, m: nat): int -> int { y => f(y) * Hits(t, m, y) }

  lemma {:induction false} SumAdd(f: int -> int, g: int -> int, n: nat)
    ensures Sum(Plus(f, g), n) == Sum(f, n) + Sum(g, n)
  {
    if n > 0 { SumAdd(f, g, n - 1); }
  }

  lemma {:induction false} SumAtPoint(f: int -> int, n: nat, y: int)
    requires 0 <= y < n
    ensures Sum(Point(f, y), n) == f(y)
  {
    if y == n - 1 {
      SumConstant(Point(f, y), n - 1, 0);
    } else {
      SumAtPoint(f, n - 1, y);
    }
  }

  lemma WeighedStep(f: int -> int, t: int -> int, m: nat, y: int)
    requires m > 0
    ensures Weighed(f, t, m)(y) == Plus(Weighed(f, t, m - 1), Point(f, t(m - 1)))(y)
  {
    var h := Hits(t, m - 1, y);
    assert f(y) * (h + 1) == f(y) * h + f(y);
  }

  lemma SumStep(f: int -> int, n: nat)
    ensures Sum(f, 0) == 0
    ensures n > 0 ==> Sum(f, n) == Sum(f, n - 1) + f(n - 1)
  {
  }

  lemma UnvisitedSum(f: int -> int, t: int -> int, n: nat)
    ensures Sum(Weighed(f, t, 0), n) == 0
  {
    forall y: int | 0 <= y < n
      ensures Weighed(f, t, 0)(y) == 0
    {
      assert f(y) * 0 == 0;
    }
    SumConstant(Weighed(f, t, 0), n, 0);
  }

  lemma WeighedAt(f: int -> int, t: int -> int, m: nat, y: int)
    ensures Hits(t, m, y) == 0 ==> Weighed(f, t, m)(y) == 0
    ensures Hits(t, m, y) == 1 ==> Weighed(f, t, m)(y) == f(y)
  {
    assert f(y) * 0 == 0 && f(y) * 1 == f(y);
  }

  lemma UnitWeighed(t: int -> int, m: nat, y: int)
    ensures Weighed(Unit(), t, m)(y) == Hits(t, m, y)
  {
  }

  /** Summing along a walk is summing over the places, weighed by their visits. */
  lemma {:induction false} SumAlongWalk(f: int -> int, t: int -> int, m: nat, n: nat)
    requires InRange(t, m, 0, n)
    ensures Sum(Along(f, t), m) == Sum(Weighed(f, t, m), n)
  {
    hide Weighed, Plus, Point, Sum;
    SumStep(Along(f, t), m);
    if m == 0 {
      UnvisitedSum(f, t, n);
    } else {
      SumAlongWalk(f, t, m - 1, n);
      SumAtPoint(f, n, t(m - 1));
      var before, point := Weighed(f, t, m - 1), Point(f, t(m - 1));
      SumAdd(before, point, n);
      forall y: int | 0 <= y < n
        ensures Weighed(f, t, m)(y) == Plus(before, point)(y)
      {
        WeighedStep(f, t, m, y);
      }
      SumCongruence(Weighed(f, t, m), Plus(before, point), n);
    }
  }

  lemma {:induction false} DistinctHits(t: int -> int, m: nat, y: int)
    requires Distinct(t, m)
    ensures Hits(t, m, y) <= 1
    ensures Hits(t, m, y) >= 1 ==> exists i :: 0 <= i < m && t(i) == y
  {
    if m > 0 {
      DistinctHits(t, m - 1, y);
    }
  }

  /** Entries of at most one that sum to their number are all one. */
  lemma {:induction false} AllOnes(c: int -> int, n: nat, x: int)
    requires forall y :: 0 <= y < n ==> c(y) <= 1
    ensures Sum(c, n) <= n
    ensures Sum(c, n) == n && 0 <= x < n ==> c(x) == 1
  {
    if n > 0 { AllOnes(c, n - 1, x); }
  }

  function Unit(): int -> int { y => 1 }

  /** Visits, with one more at place 0. */
  function VisitsAndZero(t: int -> int, m: nat): int -> int {
    Plus(Weighed(Unit(), t, m), Point(Unit(), 0))
  }

  lemma TotalVisits(t: int -> int, m: nat, n: nat)
    requires n >= 1 && InRange(t, m, 0, n)
    ensures Sum(VisitsAndZero(t, m), n) == m + 1
  {
    hide Sum, Weighed, Point, Plus, InRange;
    SumAlongWalk(Unit(), t, m, n);
    UnitSums(t, m, n);
    SumAdd(Weighed(Unit(), t, m), Point(Unit(), 0), n);
  }

  lemma VisitsAt(t: int -> int, n: nat, y: int)
    requires n >= 1 && InRange(t, n - 1, 1, n) && Distinct(t, n - 1)
    ensures VisitsAndZero(t, n - 1)(y) == Hits(t, n - 1, y) + if y == 0 then 1 else 0
    ensures VisitsAndZero(t, n - 1)(y) <= 1
  {
    hide Hits, Distinct, InRange;
    UnitWeighed(t, n - 1, y);
    DistinctHits(t, n - 1, y);
    ZeroUnvisited(t, n);
  }

  /** A walk of n - 1 distinct steps that avoids 0 visits every other place of [0, n) exactly once. */
  lemma DistinctWalkVisits(t: int -> int, n: nat, y: int)
    requires 0 <= y < n
    requires InRange(t, n - 1, 1, n) && Distinct(t, n - 1)
    ensures Hits(t, n - 1, y) == if y == 0 then 0 else 1
  {
    hide Sum, Hits, InRange, Distinct, VisitsAndZero;
    ZeroUnvisited(t, n);
    TotalVisits(t, n - 1, n);
    var c := VisitsAndZero(t, n - 1);
    forall x: int | 0 <= x < n
      ensures c(x) <= 1
    {
      VisitsAt(t, n, x);
    }
    AllOnes(c, n, y);
    VisitsAt(t, n, y);
  }

  lemma ZeroUnvisited(t: int -> int, n: nat)
    requires n >= 1 && InRange(t, n - 1, 1, n) && Distinct(t, n - 1)
    ensures InRange(t, n - 1, 0, n) && Hits(t, n - 1, 0) == 0
  {
    hide Hits;
    DistinctHits(t, n - 1, 0);
  }

  lemma UnitSums(t: int -> int, m: nat, n: nat)
    requires n >= 1
    ensures Sum(Along(Unit(), t), m) == m && Sum(Point(Unit(), 0), n) == 1
  {
    hide Sum;
    SumConstant(Along(Unit(), t), m, 1);
    SumAtPoint(Unit(), n, 0);
  }

  lemma SumOverDistinctWalk(f: int -> int, t: int -> int, n: nat)
    requires n >= 1
    requires InRange(t, n - 1, 1, n) && Distinct(t, n - 1)
    ensures Sum(Along(f, t), n - 1) + f(0) == Sum(f, n)
  {
    assert InRange(t, n - 1, 0, n);
    hide Sum, Weighed, Hits, InRange, Distinct;
    var visited, zero := Weighed(f, t, n - 1), Point(f, 0);
    SumAlongWalk(f, t, n - 1, n);
    SumAtPoint(f, n, 0);
    SumAdd(visited, zero, n);
    forall y: int | 0 <= y < n
      ensures f(y) == Plus(visited, zero)(y)
    {
      DistinctWalkVisits(t, n, y);
      WeighedAt(f, t, n - 1, y);
    }
    SumCongruence(f, Plus(visited, zero), n);
  }
}
