/** Coefficient packing: fixed-width fields in one configuration word, lowest index first or first listed highest. */
module Coefficients {
  import opened Arithmetic
  import opened Pixels
  import opened Bits

  /** The low w bits of a coefficient: `c & ((1 << w) - 1)`, of negative ones too. */
  function Field(c: int, w: nat): (b: nat)
    ensures b < Pow2(w)
  {
    c % Pow2(w)
  }

  /** The value of w-bit digits, lowest first. */
  function Packed(c: seq<int>, w: nat): (v: nat) {
    if c == [] then 0
    else
      var n := |c| - 1;
      Packed(c[..n], w) + Field(c[n], w) * Pow2(w * n)
  }

  function Reversed(c: seq<int>): (r: seq<int>)
    ensures |r| == |c| && forall i :: 0 <= i < |c| ==> r[i] == c[|c| - 1 - i]
  {
    if c == [] then [] else [c[|c| - 1]] + Reversed(c[..|c| - 1])
  }

  lemma Pow2Width(w: nat, n: nat)
    ensures Pow2(w * (n + 1)) == Pow2(w) * Pow2(w * n)
  {
    hide Pow2;
    assert w * (n + 1) == w + w * n;
    Pow2Sum(w, w * n);
  }

  lemma DigitFits(x: int, b: int, m: int, q: int)
    requires x < q && b < m && 0 <= q
    ensures x + b * q < m * q
  {
    MulMonotone(b, m - 1, q);
  }

  lemma {:induction false} PackedFits(c: seq<int>, w: nat)
    ensures Packed(c, w) < Pow2(w * |c|)
  {
    if c != [] {
      hide Pow2, Field;
      var n := |c| - 1;
      PackedFits(c[..n], w);
      Pow2Width(w, n);
      DigitFits(Packed(c[..n], w), Field(c[n], w), Pow2(w), Pow2(w * n));
    }
  }

  /** Packing for the configuration port: byte idx of the word is coefficient idx. */
  method PackCoeffs(coeffs: seq<int>) returns (val: nat)
    ensures val == Packed(coeffs, 8)
  {
    hide Or, Pow2;
    val := 0;
    for idx := 0 to |coeffs|
      invariant val == Packed(coeffs[..idx], 8)
    {
      EightBits();
      var b := coeffs[idx] % 256;
      PackedFits(coeffs[..idx], 8);
      OrDisjoint(val, b, 8 * idx);
      assert coeffs[..idx + 1][..idx] == coeffs[..idx];
      val := Or(val, b * Pow2(8 * idx));
    }
    assert coeffs[..|coeffs|] == coeffs;
  }

  function Concatenated(c: seq<int>, w: nat): (v: nat) {
    if c == [] then 0 else Concatenated(c[..|c| - 1], w) * Pow2(w) + Field(c[|c| - 1], w)
  }

  /** Concatenation of fields of any width: the first listed element is the most significant. */
  method PackConcat(elems: seq<int>, width: nat) returns (val: nat)
    ensures val == Concatenated(elems, width)
  {
    hide Or, Pow2;
    val := 0;
    for i := 0 to |elems|
      invariant val == Concatenated(elems[..i], width)
    {
      var b := elems[i] % Pow2(width);
      OrHighLow(val, b, width);
      assert elems[..i + 1][..i] == elems[..i];
      val := Or(val * Pow2(width), b);
    }
    assert elems[..|elems|] == elems;
  }

  lemma HighDigit(x: nat, b: nat, p: nat, m: nat)
    requires x < p && b < m
    ensures (x + b * p) / p % m == b
  {
    RemainderIs(x + b * p, b, x, p);
  }

  lemma LowDigit(x: nat, b: nat, p: nat, r: nat, m: nat)
    requires p > 0 && m > 0
    ensures (x + b * (m * r * p)) / p % m == x / p % m
  {
    var q := b * r * m;
    assert b * (m * r * p) == q * p;
    RemainderIs(x + q * p, x / p + q, x % p, p);
    RemainderShift(x / p, b * r, m);
  }

  /** Field i of the packed word is the low bits of coefficient i. */
  lemma {:induction false} FieldOfPacked(c: seq<int>, w: nat, i: nat)
    requires i < |c|
    ensures Packed(c, w) / Pow2(w * i) % Pow2(w) == Field(c[i], w)
  {
    hide Pow2, Field;
    var n := |c| - 1;
    var x, b, p := Packed(c[..n], w), Field(c[n], w), Pow2(w * n);
    PackedFits(c[..n], w);
    if i == n {
      HighDigit(x, b, p, Pow2(w));
    } else {
      FieldOfPacked(c[..n], w, i);
      var r := Pow2(w * (n - 1 - i));
      Pow2Width(w, n - 1 - i);
      assert w * (n - i) + w * i == w * n;
      Pow2Sum(w * (n - i), w * i);
      assert p == Pow2(w) * r * Pow2(w * i);
      LowDigit(x, b, Pow2(w * i), r, Pow2(w));
    }
  }

  /** Byte i of the packed word is the low byte of coefficient i. */
  lemma ByteOfPacked(c: seq<int>, i: nat)
    requires i < |c|
    ensures Ch(Packed(c, 8), i) == c[i] % 256
  {
    hide Pow2, Packed;
    EightBits();
    FieldOfPacked(c, 8, i);
  }

  /** Packing loses nothing of signed bytes: sign-extending byte i gives coefficient i back. */
  lemma PackRoundTrip(c: seq<int>, i: nat)
    requires i < |c| && -128 <= c[i] < 128
    ensures Signed(Ch(Packed(c, 8), i)) == c[i]
  {
    hide Ch, Packed;
    ByteOfPacked(c, i);
  }

  /** Two lists of one length pack alike exactly when they agree field by field. */
  lemma PackedAlike(c: seq<int>, d: seq<int>, w: nat)
    requires |c| == |d|
    ensures Packed(c, w) == Packed(d, w) <==> forall i :: 0 <= i < |c| ==> Field(c[i], w) == Field(d[i], w)
  {
    hide Field, Packed, Pow2;
    if forall i :: 0 <= i < |c| ==> Field(c[i], w) == Field(d[i], w) {
      SameFields(c, d, w);
    }
    if Packed(c, w) == Packed(d, w) {
      forall i | 0 <= i < |c|
        ensures Field(c[i], w) == Field(d[i], w)
      {
        FieldOfPacked(c, w, i);
        FieldOfPacked(d, w, i);
      }
    }
  }

  lemma {:induction false} SameFields(c: seq<int>, d: seq<int>, w: nat)
    requires |c| == |d| && forall i :: 0 <= i < |c| ==> Field(c[i], w) == Field(d[i], w)
    ensures Packed(c, w) == Packed(d, w)
  {
    hide Field, Pow2;
    if c != [] {
      SameFields(c[..|c| - 1], d[..|d| - 1], w);
    }
  }

  /** A new lowest field moves the others up. */
  lemma {:induction false} PackedCons(b: int, c: seq<int>, w: nat)
    ensures Packed([b] + c, w) == Field(b, w) + Pow2(w) * Packed(c, w)
  {
    if c == [] {
      assert [b] + c == [b];
      assert Packed([b][..0], w) == 0 && Pow2(w * 0) == 1;
    } else {
      hide Field, Pow2;
      var n := |c| - 1;
      PackedCons(b, c[..n], w);
      assert ([b] + c)[..n + 1] == [b] + c[..n];
      Pow2Width(w, n);
      Rescale(Field(c[n], w), Pow2(w), Pow2(w * n), Packed(c[..n], w));
    }
  }

  lemma Rescale(b: int, m: int, p: int, x: int)
    ensures m * x + b * (m * p) == m * (x + b * p)
  {
    assert b * (m * p) == m * (b * p);
  }

  lemma EmptyPacks(w: nat)
    ensures Packed([], w) == 0
  {
  }

  /** Concatenation packs the reversed list. */
  lemma {:induction false} ConcatIsReversed(c: seq<int>, w: nat)
    ensures Concatenated(c, w) == Packed(Reversed(c), w)
  {
    hide Field, Pow2, Packed;
    EmptyPacks(w);
    if c != [] {
      var front, last := c[..|c| - 1], c[|c| - 1];
      ConcatIsReversed(front, w);
      PackedCons(last, Reversed(front), w);
      assert Concatenated(c, w) == Concatenated(front, w) * Pow2(w) + Field(last, w);
    }
  }

  /** The two packings agree exactly on lists whose fields read the same in both directions. */
  lemma PackingsAgree(c: seq<int>, w: nat)
    ensures Concatenated(c, w) == Packed(c, w) <==>
            forall i :: 0 <= i < |c| ==> Field(c[i], w) == Field(c[|c| - 1 - i], w)
  {
    hide Packed, Concatenated, Field;
    ConcatIsReversed(c, w);
    PackedAlike(Reversed(c), c, w);
    var r := Reversed(c);
    assert forall i :: 0 <= i < |c| ==> r[i] == c[|c| - 1 - i];
  }
}
