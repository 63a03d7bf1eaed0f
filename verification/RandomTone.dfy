/** Random dithering keeps the tone of a flat area over every full period of the bias register. */
module RandomTone {
  import opened Arithmetic
  import opened Pixels
  import opened Sums
  import opened Dither
  import Lfsr
  import opened DitherTone
  import opened Hermite

  /** The code a beat of value v shows for register state x, with 2^d bias steps. */
  function RandomCode(v: int, d: nat, top: int): int -> int {
    x => Min(top, (v + x % Pow2(d)) / Pow2(d))
  }

  function States(k: nat): int -> int {
    i => Lfsr.Value(k + if i < 0 then 0 else i)
  }

  lemma ValueNotZero(k: nat)
    ensures 1 <= Lfsr.Value(k)
  {
    Lfsr.NeverZero(k);
    assert Lfsr.State(k) as int as bv8 == Lfsr.State(k);
  }

  lemma ValuesDiffer(i: nat, j: nat)
    requires i < j < i + 255
    ensures Lfsr.Value(i) != Lfsr.Value(j)
  {
    Lfsr.SameStateIffPeriodApart(i, j);
    assert Lfsr.State(i) as int as bv8 == Lfsr.State(i) && Lfsr.State(j) as int as bv8 == Lfsr.State(j);
  }

  /** Any 255 consecutive states walk over 1..255 without repeating. */
  lemma StatesWalk(k: nat)
    ensures InRange(States(k), 255, 1, 256) && Distinct(States(k), 255)
  {
    hide Lfsr.Value;
    forall i: int | 0 <= i < 255
      ensures 1 <= States(k)(i) < 256
    {
      ValueNotZero(k + i);
    }
    forall i: int, j: int | 0 <= i < j < 255
      ensures States(k)(i) != States(k)(j)
    {
      ValuesDiffer(k + i, k + j);
    }
  }

  lemma RunWithinRegister(v: int, d: nat, top: int, r: int)
    ensures Sum(i => RandomCode(v, d, top)(r * Pow2(d) + i), Pow2(d)) == Sum(RunCode(v, Pow2(d), top), Pow2(d))
  {
    hide Pow2, Sum;
    var m := Pow2(d);
    forall i: int | 0 <= i < m
      ensures RandomCode(v, d, top)(r * m + i) == RunCode(v, m, top)(i)
    {
      RemainderIs(r * m + i, r, i, m);
    }
    SumCongruence(i => RandomCode(v, d, top)(r * Pow2(d) + i), RunCode(v, m, top), m);
  }

  /** All 256 register values together: 2^n runs of 2^d biases. */
  lemma AllValues(v: int, d: nat, n: nat)
    requires 0 <= v <= 255 && n + d == 8
    ensures Sum(RandomCode(v, d, Pow2(n) - 1), 256) == Pow2(n) * Min(v, (Pow2(n) - 1) * Pow2(d))
  {
    hide Pow2, Sum, RandomCode;
    EightBits();
    Pow2Sum(n, d);
    var m, runs, top := Pow2(d), Pow2(n), Pow2(n) - 1;
    assert top * m == 256 - m by { assert (runs - 1) * m == runs * m - m; }
    RunOfCodes(v, m, top);
    forall r: int | 0 <= r < runs
      ensures Sum(i => RandomCode(v, d, top)(r * m + i), m) == Min(v, top * m)
    {
      RunWithinRegister(v, d, top, r);
      SumCongruence(i => RandomCode(v, d, top)(r * m + i), i => RandomCode(v, d, top)(r * Pow2(d) + i), m);
    }
    SumOfEqualRows(RandomCode(v, d, top), m, runs, Min(v, top * m));
  }

  /** Saturating first or last gives the same code. */
  lemma SaturatedRandomCode(v: int, cell: nat, x: nat, n: nat)
    requires 0 <= v <= 255 && 1 <= n <= 4
    ensures IntendedCode(v, cell, x, true, n) == RandomCode(v, 8 - n, Pow2(n) - 1)(x)
  {
    hide Pow2;
    var m := Pow2(8 - n);
    EightBits();
    Pow2Sum(n, 8 - n);
    assert (Pow2(n) - 1) * m == Pow2(n) * m - m;
    CappedDivision(v + x % m, m, Pow2(n) - 1);
  }

  lemma RandomBeat(s: seq<int>, width: nat, height: nat, ctrl: nat, sel: nat, k: nat, i: nat, v: int, n: nat)
    requires width >= 1 && height >= 1 && sel < 3 && k + i < |s| && Ch(s[k + i], sel) == v
    requires Enabled(ctrl) && RandomMode(ctrl) && n == Depth(ctrl) && 1 <= n <= 4
    ensures CodeBeat(s, width, height, ctrl, sel, k + i) == Along(RandomCode(v, 8 - n, Pow2(n) - 1), States(k))(i)
  {
    hide CodeBeat, CellAt, Lfsr.Value, Ch, Pow2, Depth, IntendedCode, RandomCode, Enabled, RandomMode, Along, States;
    CodeOfLane(s, width, height, ctrl, sel, k + i);
    SaturatedRandomCode(v, CellAt(width, height, k + i), Lfsr.Value(k + i), n);
    WalkAt(RandomCode(v, 8 - n, Pow2(n) - 1), k, i);
  }

  lemma WalkAt(f: int -> int, k: nat, i: nat)
    ensures Along(f, States(k))(i) == f(Lfsr.Value(k + i))
  {
    hide Lfsr.Value;
  }

  lemma CodeOfZero(v: int, n: nat)
    requires 0 <= v <= 255 && n <= 8
    ensures RandomCode(v, 8 - n, Pow2(n) - 1)(0) == Shr(v, 8 - n)
    ensures (Pow2(n) - 1) * Pow2(8 - n) == 256 - Pow2(8 - n)
  {
    hide Pow2;
    EightBits();
    Pow2Sum(n, 8 - n);
    var m := Pow2(8 - n);
    assert (Pow2(n) - 1) * m == Pow2(n) * m - m;
    RemainderIs(0, 0, 0, m);
    QuotientBetween(v, 0, Pow2(n) - 1, m);
  }

  /** What a full period of random codes adds up to: 2^n * min(v, 256 - 2^(8-n)) - (v >> (8-n)). */
  function PeriodTone(v: int, n: nat): int
    requires n <= 8
  {
    Pow2(n) * Min(v, 256 - Pow2(8 - n)) - Shr(v, 8 - n)
  }

  lemma PeriodOfCodes(v: int, n: nat, k: nat)
    requires 0 <= v <= 255 && n <= 8
    ensures Sum(Along(RandomCode(v, 8 - n, Pow2(n) - 1), States(k)), 255) == PeriodTone(v, n)
  {
    hide Pow2, Sum, RandomCode, States, Shr;
    StatesWalk(k);
    SumOverDistinctWalk(RandomCode(v, 8 - n, Pow2(n) - 1), States(k), 256);
    AllValues(v, 8 - n, n);
    CodeOfZero(v, n);
  }

  /** The codes of the beats from k on. */
  function CodesFrom(s: seq<int>, width: nat, height: nat, ctrl: nat, sel: nat, k: nat): int -> int
    requires width >= 1 && height >= 1
  {
    i => CodeBeat(s, width, height, ctrl, sel, k + i)
  }

  lemma BeatsFollowRegister(s: seq<int>, width: nat, height: nat, ctrl: nat, sel: nat, k: nat, v: int)
    requires width >= 1 && height >= 1 && sel < 3 && Random(ctrl) && k + 255 <= |s|
    requires forall i :: k <= i < k + 255 ==> Ch(s[i], sel) == v
    ensures Sum(CodesFrom(s, width, height, ctrl, sel, k), 255) ==
            Sum(Along(RandomCode(v, 8 - Depth(ctrl), Pow2(Depth(ctrl)) - 1), States(k)), 255)
  {
    hide CodeBeat, Pow2, States, RandomCode, Ch, Sum, Along;
    var walk := Along(RandomCode(v, 8 - Depth(ctrl), Pow2(Depth(ctrl)) - 1), States(k));
    forall i: int | 0 <= i < 255
      ensures CodesFrom(s, width, height, ctrl, sel, k)(i) == walk(i)
    {
      RandomBeat(s, width, height, ctrl, sel, k, i, v, Depth(ctrl));
    }
    SumCongruence(CodesFrom(s, width, height, ctrl, sel, k), walk, 255);
  }

  /** Over any 255 consecutive beats in which a channel holds v, wherever they start and whatever frame
      boundaries they cross, the n-bit codes add up to PeriodTone(v, n). */
  lemma RandomPeriodTone(s: seq<int>, width: nat, height: nat, ctrl: nat, sel: nat, k: nat, v: int)
    requires width >= 1 && height >= 1 && sel < 3 && Random(ctrl) && k + 255 <= |s|
    requires forall i :: k <= i < k + 255 ==> Ch(s[i], sel) == v
    ensures Sum(CodesFrom(s, width, height, ctrl, sel, k), 255) == PeriodTone(v, Depth(ctrl))
  {
    hide Pow2, Sum, CodesFrom, Ch, Along, RandomCode, States, PeriodTone;
    assert 0 <= v <= 255 by { assert v == Ch(s[k], sel); }
    BeatsFollowRegister(s, width, height, ctrl, sel, k, v);
    PeriodOfCodes(v, Depth(ctrl), k);
  }
}
