/** The 3x3 median: the reference sort, its rank characterisation, and the compare-exchange network. */
module Median {

  function Insert(x: int, s: seq<int>): (r: seq<int>)
    ensures |r| == |s| + 1
  {
    if s == [] || x <= s[0] then [x] + s else [s[0]] + Insert(x, s[1..])
  }

  /** Python's `sorted`. */
  function Sorted(s: seq<int>): (r: seq<int>)
    ensures |r| == |s|
  {
    if s == [] then [] else Insert(s[0], Sorted(s[1..]))
  }

  predicate Ascending(s: seq<int>) {
    forall i, j :: 0 <= i < j < |s| ==> s[i] <= s[j]
  }

  function Below(s: seq<int>, m: int): (n: nat)
    ensures n <= |s|
  {
    if s == [] then 0 else (if s[0] < m then 1 else 0) + Below(s[1..], m)
  }

  /** How many entries are at most m. */
  function AtMost(s: seq<int>, m: int): nat { Below(s, m + 1) }

  lemma {:induction false} InsertCounts(x: int, s: seq<int>, m: int)
    ensures Below(Insert(x, s), m) == (if x < m then 1 else 0) + Below(s, m)
  {
    if s != [] && x > s[0] {
      InsertCounts(x, s[1..], m);
      assert ([s[0]] + Insert(x, s[1..]))[1..] == Insert(x, s[1..]);
    } else {
      assert ([x] + s)[1..] == s;
    }
  }

  lemma {:induction false} InsertContents(x: int, s: seq<int>)
    ensures multiset(Insert(x, s)) == multiset{x} + multiset(s)
  {
    if s != [] && x > s[0] {
      InsertContents(x, s[1..]);
      assert s == [s[0]] + s[1..];
    }
  }

  lemma {:induction false} InsertAscends(x: int, s: seq<int>)
    requires Ascending(s)
    ensures Ascending(Insert(x, s))
  {
    if s != [] && x > s[0] {
      var r := Insert(x, s[1..]);
      InsertAscends(x, s[1..]);
      InsertContents(x, s[1..]);
      hide Insert;
      forall i | 0 <= i < |r|
        ensures s[0] <= r[i]
      {
        assert r[i] in multiset(r);
        assert r[i] == x || r[i] in s[1..];
      }
    }
  }

  lemma {:induction false} SortedKeeps(s: seq<int>, m: int)
    ensures Below(Sorted(s), m) == Below(s, m)
    ensures Ascending(Sorted(s))
    ensures multiset(Sorted(s)) == multiset(s)
  {
    if s != [] {
      SortedKeeps(s[1..], m);
      InsertCounts(s[0], Sorted(s[1..]), m);
      InsertContents(s[0], Sorted(s[1..]));
      InsertAscends(s[0], Sorted(s[1..]));
      assert s == [s[0]] + s[1..];
    }
  }

  /** In an ascending list, position p splits the counts. */
  lemma {:induction false} RankOfPosition(s: seq<int>, p: nat, m: int)
    requires Ascending(s) && p < |s|
    ensures m <= s[p] ==> Below(s, m) <= p
    ensures s[p] < m ==> Below(s, m) >= p + 1
  {
    if p > 0 {
      RankOfPosition(s[1..], p - 1, m);
    } else if m <= s[0] && |s| > 1 {
      RankOfPosition(s[1..], 0, m);
    }
  }

  lemma {:induction false} BelowMonotone(s: seq<int>, a: int, b: int)
    requires a <= b
    ensures Below(s, a) <= Below(s, b)
  {
    if s != [] { BelowMonotone(s[1..], a, b); }
  }

  /** The middle order statistic of nine. */
  function Median9(vals: seq<int>): int
    requires |vals| == 9
  {
    Sorted(vals)[4]
  }

  /** At most four of the nine lie below m and at least five reach it from below. */
  predicate MiddleRank(vals: seq<int>, m: int) {
    Below(vals, m) <= 4 && AtMost(vals, m) >= 5
  }

  /** The median is the one and only value of middle rank. */
  lemma MedianIsMiddleRank(vals: seq<int>, m: int)
    requires |vals| == 9
    ensures MiddleRank(vals, m) <==> m == Median9(vals)
  {
    var med := Median9(vals);
    SortedKeeps(vals, med);
    SortedKeeps(vals, med + 1);
    RankOfPosition(Sorted(vals), 4, med);
    RankOfPosition(Sorted(vals), 4, med + 1);
    if m < med {
      BelowMonotone(vals, m + 1, med);
    } else if m > med {
      BelowMonotone(vals, med + 1, m);
    }
  }

  lemma MedianIsAMember(vals: seq<int>)
    requires |vals| == 9
    ensures Median9(vals) in vals
  {
    SortedKeeps(vals, 0);
    assert Median9(vals) in multiset(Sorted(vals));
  }

  function Inverted(vals: seq<int>): (r: seq<int>)
    ensures |r| == |vals| && forall i :: 0 <= i < |r| ==> r[i] == 255 - vals[i]
  {
    seq(|vals|, i requires 0 <= i < |vals| => 255 - vals[i])
  }

  lemma {:induction false} BelowInverted(vals: seq<int>, m: int)
    ensures Below(Inverted(vals), 255 - m) == |vals| - AtMost(vals, m)
  {
    if vals != [] {
      BelowInverted(vals[1..], m);
      assert Inverted(vals)[1..] == Inverted(vals[1..]);
    }
  }

  /** The median commutes with inverting every value. */
  lemma MedianInverts(vals: seq<int>)
    requires |vals| == 9
    ensures Median9(Inverted(vals)) == 255 - Median9(vals)
  {
    var m := Median9(vals);
    MedianIsMiddleRank(vals, m);
    BelowInverted(vals, m);
    BelowInverted(vals, m - 1);
    MedianIsMiddleRank(Inverted(vals), 255 - m);
  }

  lemma {:induction false} CountSplits(vals: seq<int>, v: int)
    ensures AtMost(vals, v) == Below(vals, v) + multiset(vals)[v]
  {
    if vals != [] {
      CountSplits(vals[1..], v);
      assert vals == [vals[0]] + vals[1..];
    }
  }

  /** A value held by five or more of the nine is the median, whatever the other four are. */
  lemma MajorityWins(vals: seq<int>, v: int)
    requires |vals| == 9 && multiset(vals)[v] >= 5
    ensures Median9(vals) == v
  {
    CountSplits(vals, v);
    MedianIsMiddleRank(vals, v);
  }

  // ---- the 19-exchange hardware network ------------------------------------------

  function Lo(a: int, b: int): int { if a > b then b else a }

  function Hi(a: int, b: int): int { if a > b then a else b }

  /** Layers D1-D3: three compare-exchanges put a triple in order. */
  function Sort3(a: int, b: int, c: int): (int, int, int) {
    var (b1, c1) := (Lo(b, c), Hi(b, c));
    var (a2, b2) := (Lo(a, b1), Hi(a, b1));
    (a2, Lo(b2, c1), Hi(b2, c1))
  }

  /** Layers D4-D9 on three ordered rows: exchanges (0,3) (5,8) (4,7), (3,6) (1,4) (2,5), (4,7), (2,4),
      (4,6), (2,4); the result lands in element 4. */
  function MergeRows(a: (int, int, int), b: (int, int, int), c: (int, int, int)): int {
    var t3 := Hi(a.0, b.0);
    var t5 := Lo(b.2, c.2);
    var (t4, t7) := (Lo(b.1, c.1), Hi(b.1, c.1));
    var u6 := Hi(t3, c.0);
    var u4 := Hi(a.1, t4);
    var u2 := Lo(a.2, t5);
    var v4 := Lo(u4, t7);
    var (x2, x4) := (Lo(u2, v4), Hi(u2, v4));
    Hi(x2, Lo(x4, u6))
  }

  function Network(s: seq<int>): int
    requires |s| == 9
  {
    MergeRows(Sort3(s[0], s[1], s[2]), Sort3(s[3], s[4], s[5]), Sort3(s[6], s[7], s[8]))
  }

  function One(b: bool): nat { if b then 1 else 0 }

  function Below3(t: (int, int, int), m: int): nat { One(t.0 < m) + One(t.1 < m) + One(t.2 < m) }

  lemma BelowOfNine(s: seq<int>, m: int)
    requires |s| == 9
    ensures Below(s, m) ==
            Below3((s[0], s[1], s[2]), m) + Below3((s[3], s[4], s[5]), m) + Below3((s[6], s[7], s[8]), m)
  {
    Peel3(s, m);
    Peel3(s[3..], m);
    Peel3(s[6..], m);
    assert s[3..][3..] == s[6..] && s[6..][3..] == [];
  }

  lemma Peel3(s: seq<int>, m: int)
    requires |s| >= 3
    ensures Below(s, m) == Below3((s[0], s[1], s[2]), m) + Below(s[3..], m)
  {
    assert Below(s, m) == One(s[0] < m) + Below(s[1..], m);
    assert Below(s[1..], m) == One(s[1] < m) + Below(s[2..], m) by { assert s[1..][1..] == s[2..]; }
    assert Below(s[2..], m) == One(s[2] < m) + Below(s[3..], m) by { assert s[2..][1..] == s[3..]; }
  }

  lemma Sort3Keeps(a: int, b: int, c: int, m: int)
    ensures var t := Sort3(a, b, c);
      t.0 <= t.1 <= t.2 && Below3(t, m) == Below3((a, b, c), m)
  {
  }

  /** Merging three ordered rows hits the middle rank. */
  lemma MergeHitsTheMiddle(a: (int, int, int), b: (int, int, int), c: (int, int, int))
    requires a.0 <= a.1 <= a.2 && b.0 <= b.1 <= b.2 && c.0 <= c.1 <= c.2
    ensures var m := MergeRows(a, b, c);
      && Below3(a, m) + Below3(b, m) + Below3(c, m) <= 4
      && Below3(a, m + 1) + Below3(b, m + 1) + Below3(c, m + 1) >= 5
  {
  }

  /** For every nine samples the network computes exactly the reference sort's middle element. */
  lemma NetworkIsMedian(s: seq<int>)
    requires |s| == 9
    ensures Network(s) == Median9(s)
  {
    hide MergeRows, Sort3, Below3, Below;
    var m := Network(s);
    var a, b, c := Sort3(s[0], s[1], s[2]), Sort3(s[3], s[4], s[5]), Sort3(s[6], s[7], s[8]);
    Sort3Keeps(s[0], s[1], s[2], m); Sort3Keeps(s[0], s[1], s[2], m + 1);
    Sort3Keeps(s[3], s[4], s[5], m); Sort3Keeps(s[3], s[4], s[5], m + 1);
    Sort3Keeps(s[6], s[7], s[8], m); Sort3Keeps(s[6], s[7], s[8], m + 1);
    MergeHitsTheMiddle(a, b, c);
    BelowOfNine(s, m);
    BelowOfNine(s, m + 1);
    MedianIsMiddleRank(s, m);
  }
}
