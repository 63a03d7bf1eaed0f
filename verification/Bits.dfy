/** Bitwise or of naturals, by halving. */
module Bits {
  import opened Arithmetic

  /** Bitwise or of two naturals. */
  function Or(a: nat, b: nat): nat
    decreases a + b
  {
    if a == 0 && b == 0 then 0
    else 2 * Or(a / 2, b / 2) + if a % 2 == 1 || b % 2 == 1 then 1 else 0
  }

  lemma {:induction false} OrZero(a: nat)
    ensures Or(a, 0) == a
  {
    if a > 0 { OrZero(a / 2); }
  }

  lemma OrHalves(a: nat, b: nat)
    ensures Or(a, b) / 2 == Or(a / 2, b / 2)
  {
  }

  lemma OrStep(a: nat, b: nat)
    ensures Or(a, b) == 2 * Or(a / 2, b / 2) + if a % 2 == 1 || b % 2 == 1 then 1 else 0
  {
  }

  lemma {:induction false} OrSelf(a: nat)
    ensures Or(a, a) == a
  {
    if a > 0 { OrSelf(a / 2); }
  }

  lemma {:induction false} ZeroOr(b: nat)
    ensures Or(0, b) == b
  {
    if b > 0 { ZeroOr(b / 2); }
  }

  /** Where the bits do not overlap, or is addition. */
  lemma {:induction false} OrDisjoint(a: nat, b: nat, k: nat)
    requires a < Pow2(k)
    ensures Or(a, b * Pow2(k)) == a + b * Pow2(k)
  {
    if k == 0 {
      ZeroOr(b);
    } else {
      var h := b * Pow2(k - 1);
      assert b * Pow2(k) == 2 * h;
      OrDisjoint(a / 2, b, k - 1);
      OrStep(a, 2 * h);
    }
  }

  lemma {:induction false} OrCommutes(a: nat, b: nat)
    ensures Or(a, b) == Or(b, a)
    decreases a + b
  {
    if a > 0 || b > 0 { OrCommutes(a / 2, b / 2); }
  }

  lemma HalfOfOdd(x: nat)
    ensures (2 * x + 1) / 2 == x && (2 * x + 1) % 2 == 1
  {
  }

  /** All ones absorb everything below them. */
  lemma {:induction false} OrOnes(k: nat, x: nat)
    requires x < Pow2(k)
    ensures Or(Pow2(k) - 1, x) == Pow2(k) - 1
  {
    hide Or;
    if k == 0 {
      OrZero(0);
    } else {
      var ones := Pow2(k - 1) - 1;
      OrOnes(k - 1, x / 2);
      OrStep(2 * ones + 1, x);
      HalfOfOdd(ones);
      assert Pow2(k) - 1 == 2 * ones + 1;
    }
  }

  /** High bits and low bits that do not overlap. */
  lemma OrHighLow(high: nat, low: nat, k: nat)
    requires low < Pow2(k)
    ensures Or(high * Pow2(k), low) == high * Pow2(k) + low
  {
    OrCommutes(high * Pow2(k), low);
    OrDisjoint(low, high, k);
  }
}
