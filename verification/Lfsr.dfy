/** The dither generator: an 8-bit Galois register, seed 0xA5, taps 0x1D, stepped once per beat. */
module Lfsr {
  import opened Arithmetic
  import opened Orbits

  const SEED: bv8 := 0xA5

  function Next(x: bv8): bv8 {
    (x << 1) ^ (if x & 0x80 != 0 then 0x1D else 0)
  }

  /** The state used by beat k: a function of the beat number alone. */
  function State(k: nat): bv8 {
    Iterate(Next, k, SEED)
  }

  /** The same state as an unsigned number. */
  function Value(k: nat): (v: nat)
    ensures v < 256
  {
    State(k) as nat
  }

  lemma NextIsInjective()
    ensures Injective(Next)
  {
    forall x: bv8, y: bv8 | Next(x) == Next(y)
      ensures x == y
    {
    }
  }

  lemma {:induction false} NeverZero(k: nat)
    ensures State(k) != 0
  {
    if k > 0 {
      NeverZero(k - 1);
    }
  }

  lemma StepBits(x: bv8)
    ensures Next(Next(Next(Next(Next(Next(Next(Next(x)))))))) ==
            Next(Next(Next(Next(x)))) ^ Next(Next(Next(x))) ^ Next(Next(x)) ^ x
  {
  }

  /** The generator polynomial x^8 + x^4 + x^3 + x^2 + 1, as a recurrence of the states from the seed on. */
  lemma Recurrence(k: nat)
    ensures State(0) == 0xA5
    ensures State(k + 8) == State(k + 4) ^ State(k + 3) ^ State(k + 2) ^ State(k)
  {
    hide Next;
    StepBits(State(k));
    Hop4(k);
    Hop4(k + 4);
    assert State(k + 1) == Next(State(k)) && State(k + 2) == Next(State(k + 1)) && State(k + 3) == Next(State(k + 2));
  }

  function Next4(x: bv8): bv8 { Next(Next(Next(Next(x)))) }

  function Next16(x: bv8): bv8 { Next4(Next4(Next4(Next4(x)))) }

  lemma Hop4(k: nat)
    ensures State(k + 4) == Next4(State(k))
  {
    assert State(k + 1) == Next(State(k));
    assert State(k + 2) == Next(State(k + 1));
    assert State(k + 3) == Next(State(k + 2));
    assert State(k + 4) == Next(State(k + 3));
  }

  lemma Hop16(k: nat)
    ensures State(k + 16) == Next16(State(k))
  {
    Hop4(k); Hop4(k + 4); Hop4(k + 8); Hop4(k + 12);
  }

  lemma HopValues()
    ensures Next16(0xA5) == 0xDD
    ensures Next16(0xDD) == 0xAC
    ensures Next16(0xAC) == 0xCB
    ensures Next16(0xCB) == 0xAD
    ensures Next16(0xAD) == 0x87
    ensures Next16(0x87) == 0x30
    ensures Next16(0x30) == 0xC1
    ensures Next16(0xC1) == 0x6F
    ensures Next16(0x6F) == 0x3C
    ensures Next16(0x3C) == 0xB6
    ensures Next16(0xB6) == 0xBD
    ensures Next16(0xBD) == 0x33
    ensures Next16(0x33) == 0x15
    ensures Next16(0x15) == 0xD5
    ensures Next16(0xD5) == 0xF6
  {
  }

  /** The states at multiples of 16, as far as the period needs them. */
  lemma Landmarks()
    ensures State(48) == 0xCB && State(80) == 0x87 && State(240) == 0xF6
  {
    hide State, Next16;
    Start();
    HopValues();
    Hop16(0); Hop16(16); Hop16(32);
    Hop16(48); Hop16(64); Hop16(80);
    Hop16(96); Hop16(112); Hop16(128);
    Hop16(144); Hop16(160); Hop16(176);
    Hop16(192); Hop16(208); Hop16(224);
  }

  lemma Start()
    ensures State(0) == SEED
  {
  }

  lemma FifteenOn(k: nat)
    ensures State(k + 15) == Next(Next(Next(Next4(Next4(Next4(State(k)))))))
    ensures State(k + 5) == Next(Next4(State(k)))
    ensures State(k + 3) == Next(Next(Next(State(k))))
  {
    Hop4(k); Hop4(k + 4); Hop4(k + 8);
    assert State(k + 13) == Next(State(k + 12));
    assert State(k + 14) == Next(State(k + 13));
    assert State(k + 15) == Next(State(k + 14));
  }

  lemma PeriodLandmarks()
    ensures State(255) == SEED && State(15) != SEED && State(51) != SEED && State(85) != SEED
  {
    hide State;
    Landmarks();
    Start();
    FifteenOn(0); FifteenOn(48); FifteenOn(80); FifteenOn(240);
  }

  lemma SmallFactor(g: nat, q: nat)
    requires g * q == 255 && 0 < g < 16
    ensures g == 1 || g == 3 || g == 5 || g == 15
  {
    assert g == 1 || g == 2 || g == 3 || g == 4 || g == 5 || g == 6 || g == 7 || g == 8
        || g == 9 || g == 10 || g == 11 || g == 12 || g == 13 || g == 14 || g == 15;
  }

  lemma ProperDivisorsOf255()
    ensures DivisorsCovered(255, 85, 51, 15)
  {
    forall g: nat | 0 < g < 255 && 255 % g == 0
      ensures 85 % g == 0 || 51 % g == 0 || 15 % g == 0
    {
      var q := 255 / g;
      if g < 16 {
        SmallFactor(g, q);
      } else {
        if q >= 16 { MulMonotone(16, g, 16); MulMonotone(16, q, g); }
        SmallFactor(q, g);
      }
    }
  }

  /** Two beats use the same state exactly when they are a multiple of 255 beats apart: the register has
      full period, and any 255 consecutive states are distinct. */
  lemma SameStateIffPeriodApart(i: nat, j: nat)
    requires i <= j
    ensures State(i) == State(j) <==> (j - i) % 255 == 0
  {
    hide Iterate, Injective, DivisorsCovered, Next;
    NextIsInjective();
    PeriodLandmarks();
    ProperDivisorsOf255();
    LeastPeriod(Next, SEED, 255, 85, 51, 15, j - i);
    MeetingIsReturn(Next, i, j, SEED);
  }

  lemma FullPeriod(k: nat)
    ensures State(k + 255) == State(k)
    ensures forall i: nat, j: nat :: k <= i < j < k + 255 ==> State(i) != State(j)
  {
    SameStateIffPeriodApart(k, k + 255);
    forall i: nat, j: nat | k <= i < j < k + 255
      ensures State(i) != State(j)
    {
      SameStateIffPeriodApart(i, j);
    }
  }
}
