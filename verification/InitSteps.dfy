/** Patching the sensor's init list and replaying it: where each override lands, what is written after it,
    and exactly when the replay ends with the overrides in force. */
module InitSteps {
  import opened Options

  /** A register write, or the marker that becomes the stream-on write. */
  datatype Step = Write(addr: int, val: int) | StreamOn

  type Pairs = seq<(int, int)>

  const STREAM_ON: (int, int) := (0x3008, 0x02)

  /** The value a list of writes leaves at an address. */
  function LastWrite(w: Pairs, a: int): Option<int> {
    if w == [] then None
    else if w[|w| - 1].0 == a then Some(w[|w| - 1].1)
    else LastWrite(w[..|w| - 1], a)
  }

  function OrElse(x: Option<int>, y: Option<int>): Option<int> { if x.Some? then x else y }

  lemma {:induction false} LastWriteAppend(x: Pairs, y: Pairs, a: int)
    ensures LastWrite(x + y, a) == OrElse(LastWrite(y, a), LastWrite(x, a))
  {
    if y == [] {
      assert x + y == x;
    } else {
      LastWriteAppend(x, y[..|y| - 1], a);
      assert (x + y)[..|x + y| - 1] == x + y[..|y| - 1];
    }
  }

  // ---- the dictionary of overrides ------------------------------------------------------------

  /** An insertion-ordered dictionary. */
  predicate Keyed(d: Pairs) { forall i, j :: 0 <= i < j < |d| ==> d[i].0 != d[j].0 }

  function IndexOf(d: Pairs, a: int): (i: nat)
    ensures i <= |d| && (i < |d| ==> d[i].0 == a) && forall j :: 0 <= j < i ==> d[j].0 != a
  {
    if d == [] || d[0].0 == a then 0 else 1 + IndexOf(d[1..], a)
  }

  predicate Has(d: Pairs, a: int) { IndexOf(d, a) < |d| }

  function Value(d: Pairs, a: int): int
    requires Has(d, a)
  {
    d[IndexOf(d, a)].1
  }

  function Pop(d: Pairs, a: int): Pairs {
    if Has(d, a) then d[..IndexOf(d, a)] + d[IndexOf(d, a) + 1..] else d
  }

  /** `dict(pairs)`: the last value of a key, at the place of its first. */
  function DictOf(pairs: Pairs): (d: Pairs)
    ensures Keyed(d)
  {
    if pairs == [] then []
    else
      var d := DictOf(pairs[..|pairs| - 1]);
      var p := pairs[|pairs| - 1];
      if Has(d, p.0) then d[IndexOf(d, p.0) := p] else d + [p]
  }

  lemma PopIsKeyed(d: Pairs, a: int)
    requires Keyed(d)
    ensures Keyed(Pop(d, a)) && !Has(Pop(d, a), a)
  {
    hide IndexOf;
    var i, p := IndexOf(d, a), Pop(d, a);
    if i < |d| {
      assert forall j :: 0 <= j < |p| ==> p[j] == if j < i then d[j] else d[j + 1];
    }
  }

  lemma PopWrites(d: Pairs, a: int, b: int)
    requires b != a
    ensures LastWrite(Pop(d, a), b) == LastWrite(d, b)
  {
    hide IndexOf, LastWrite;
    if Has(d, a) {
      var i := IndexOf(d, a);
      assert d == d[..i] + ([d[i]] + d[i + 1..]);
      LastWriteAppend(d[..i], [d[i]] + d[i + 1..], b);
      LastWriteAppend([d[i]], d[i + 1..], b);
      LastWriteAppend(d[..i], d[i + 1..], b);
      OtherWrite(d[i], b);
    }
  }

  lemma OtherWrite(p: (int, int), b: int)
    ensures LastWrite([p], b) == if p.0 == b then Some(p.1) else None
  {
    assert LastWrite([], b) == None;
  }

  lemma KeyIndex(d: Pairs, i: nat)
    requires Keyed(d) && i < |d|
    ensures IndexOf(d, d[i].0) == i && Has(d, d[i].0)
  {
    hide IndexOf;
    var j := IndexOf(d, d[i].0);
    assert j <= i;
  }

  lemma {:induction false} LastInKeyed(d: Pairs, a: int)
    requires Keyed(d)
    ensures LastWrite(d, a) == if Has(d, a) then Some(Value(d, a)) else None
  {
    if d != [] {
      hide IndexOf;
      var f := d[..|d| - 1];
      LastInKeyed(f, a);
      if d[|d| - 1].0 == a {
        KeyIndex(d, |d| - 1);
      } else if Has(f, a) {
        KeyIndex(d, IndexOf(f, a));
      } else {
        assert forall j :: 0 <= j < |f| ==> d[j] == f[j];
      }
    }
  }

  lemma PopKeeps(d: Pairs, a: int, b: int)
    requires Keyed(d)
    ensures Keyed(Pop(d, a)) && !Has(Pop(d, a), a)
    ensures b != a ==> LastWrite(Pop(d, a), b) == LastWrite(d, b)
    ensures LastWrite(d, b) == if Has(d, b) then Some(Value(d, b)) else None
  {
    hide LastWrite, Pop, Has, IndexOf, Keyed;
    LastInKeyed(d, b);
    PopIsKeyed(d, a);
    if b != a { PopWrites(d, a, b); }
  }

  // ---- the patch --------------------------------------------------------------------------------

  predicate Overrides(d: Pairs, e: Step) { e.Write? && Has(d, e.addr) }

  /** The list with overrides applied in place, and the overrides that found no place. */
  function Replaced(steps: seq<Step>, d: Pairs): (r: (seq<Step>, Pairs))
    ensures |r.0| == |steps|
  {
    if steps == [] then ([], d)
    else
      var (out, left) := Replaced(steps[..|steps| - 1], d);
      var e := steps[|steps| - 1];
      if Overrides(left, e) then (out + [Write(e.addr, Value(left, e.addr))], Pop(left, e.addr))
      else (out + [e], left)
  }

  function Writes(d: Pairs): (steps: seq<Step>)
    ensures |steps| == |d|
  {
    seq(|d|, i requires 0 <= i < |d| => Write(d[i].0, d[i].1))
  }

  /** Entries put before the last one, or at the end. */
  function Inserted(out: seq<Step>, more: seq<Step>, beforeLast: bool): (r: seq<Step>)
    requires beforeLast ==> out != []
    ensures |r| == |out| + |more|
  {
    if beforeLast then out[..|out| - 1] + more + out[|out| - 1..] else out + more
  }

  lemma InsertOneMore(out: seq<Step>, more: seq<Step>, e: Step, beforeLast: bool)
    requires beforeLast ==> out != []
    ensures Inserted(out, more + [e], beforeLast) == Inserted(Inserted(out, more, beforeLast), [e], beforeLast)
    ensures Inserted(out, [], beforeLast) == out
  {
  }

  /** Leftovers go before the last entry if the list has a stream-on marker, to the end otherwise. */
  function Patched(steps: seq<Step>, overrides: Pairs): seq<Step> {
    var (out, left) := Replaced(steps, DictOf(overrides));
    Inserted(out, Writes(left), StreamOn in steps)
  }

  lemma ReplacedStep(steps: seq<Step>, d: Pairs, n: nat)
    requires n < |steps|
    ensures Replaced(steps[..n + 1], d) ==
      (var (out, left) := Replaced(steps[..n], d);
       var e := steps[n];
       if Overrides(left, e) then (out + [Write(e.addr, Value(left, e.addr))], Pop(left, e.addr))
       else (out + [e], left))
  {
    assert steps[..n + 1][..n] == steps[..n];
  }

  /** The patch: one pass with a shrinking dictionary, then the leftovers one by one. */
  method PatchInitSteps(steps: seq<Step>, overrides: Pairs) returns (out: seq<Step>)
    ensures out == Patched(steps, overrides)
  {
    hide Replaced, Pop, Has, IndexOf, DictOf, Inserted, Writes;
    var omap := DictOf(overrides);
    out := [];
    EmptyReplaced(omap);
    for i := 0 to |steps|
      invariant (out, omap) == Replaced(steps[..i], DictOf(overrides))
    {
      ReplacedStep(steps, DictOf(overrides), i);
      var e := steps[i];
      if Overrides(omap, e) {
        out := out + [Write(e.addr, Value(omap, e.addr))];
        omap := Pop(omap, e.addr);
      } else {
        out := out + [e];
      }
    }
    assert steps[..|steps|] == steps;
    ghost var base := out;
    var beforeLast := StreamOn in steps;
    InsertOneMore(base, [], StreamOn, beforeLast);
    for i := 0 to |omap|
      invariant out == Inserted(base, Writes(omap[..i]), beforeLast)
    {
      var e := Write(omap[i].0, omap[i].1);
      WritesSnoc(omap, i);
      InsertOneMore(base, Writes(omap[..i]), e, beforeLast);
      out := Inserted(out, [e], beforeLast);
    }
    assert omap[..|omap|] == omap;
  }

  lemma WritesSnoc(d: Pairs, i: nat)
    requires i < |d|
    ensures Writes(d[..i + 1]) == Writes(d[..i]) + [Write(d[i].0, d[i].1)]
  {
  }

  lemma EmptyReplaced(d: Pairs)
    ensures Replaced([], d) == ([], d)
  {
  }

  // ---- the replay ---------------------------------------------------------------------------------

  function Effect(e: Step): (int, int) {
    match e
    case Write(addr, val) => (addr, val)
    case StreamOn => STREAM_ON
  }

  function Effects(steps: seq<Step>): (w: Pairs)
    ensures |w| == |steps|
  {
    seq(|steps|, i requires 0 <= i < |steps| => Effect(steps[i]))
  }

  /** Stream-on is written at the end if the list has no marker. */
  function Appended(steps: seq<Step>): Pairs { if StreamOn in steps then [] else [STREAM_ON] }

  function AllWrites(steps: seq<Step>): Pairs { Effects(steps) + Appended(steps) }

  /** The registers after some writes. */
  function Final(m: map<int, int>, w: Pairs): map<int, int> {
    if w == [] then m else Final(m, w[..|w| - 1])[w[|w| - 1].0 := w[|w| - 1].1]
  }

  /** The replay loop of the bring-up. */
  method Replay(m: map<int, int>, steps: seq<Step>) returns (regs: map<int, int>)
    ensures regs == Final(m, AllWrites(steps))
  {
    regs := m;
    ghost var w := AllWrites(steps);
    for i := 0 to |steps|
      invariant regs == Final(m, w[..i])
    {
      assert w[..i + 1][..i] == w[..i];
      match steps[i]
      case StreamOn => regs := regs[0x3008 := 0x02];
      case Write(addr, val) => regs := regs[addr := val];
    }
    if StreamOn !in steps {
      assert w[..|steps| + 1][..|steps|] == w[..|steps|] && w[..|steps| + 1] == w;
      regs := regs[0x3008 := 0x02];
    } else {
      assert w[..|steps|] == w;
    }
  }

  lemma {:induction false} FinalAt(m: map<int, int>, w: Pairs, a: int)
    ensures a in Final(m, w) <==> LastWrite(w, a).Some? || a in m
    ensures LastWrite(w, a).Some? ==> Final(m, w)[a] == LastWrite(w, a).value
    ensures LastWrite(w, a).None? && a in m ==> Final(m, w)[a] == m[a]
  {
    if w != [] {
      FinalAt(m, w[..|w| - 1], a);
    }
  }

  // ---- where an override lands --------------------------------------------------------------------

  /** The first write to an address, or the length of the list. */
  function First(steps: seq<Step>, a: int): (i: nat)
    ensures i <= |steps| && (i < |steps| ==> steps[i].Write? && steps[i].addr == a)
    ensures forall j :: 0 <= j < i ==> !(steps[j].Write? && steps[j].addr == a)
  {
    if steps == [] || (steps[0].Write? && steps[0].addr == a) then 0 else 1 + First(steps[1..], a)
  }

  lemma FirstInFront(steps: seq<Step>, a: int)
    requires steps != []
    ensures var n := |steps| - 1;
      First(steps[..n], a) == if First(steps, a) < n then First(steps, a) else n
  {
    hide First;
    var f := steps[..|steps| - 1];
    var i, j := First(steps, a), First(f, a);
    assert forall k :: 0 <= k < |f| ==> f[k] == steps[k];
  }

  lemma EffectsAppend(x: seq<Step>, y: seq<Step>)
    ensures Effects(x + y) == Effects(x) + Effects(y)
  {
  }

  lemma OneEffect(e: Step, a: int)
    ensures LastWrite(Effects([e]), a) == if Effect(e).0 == a then Some(Effect(e).1) else None
  {
    assert Effects([e]) == [Effect(e)];
    assert LastWrite([], a) == None;
  }

  /** What is written at `a` by a list with one more step. */
  lemma SnocEffect(x: seq<Step>, e: Step, a: int)
    ensures LastWrite(Effects(x + [e]), a) ==
            if Effect(e).0 == a then Some(Effect(e).1) else LastWrite(Effects(x), a)
  {
    EffectsAppend(x, [e]);
    OneEffect(e, a);
    LastWriteAppend(Effects(x), Effects([e]), a);
  }

  function ReplacedStepOf(left: Pairs, e: Step): Step {
    if Overrides(left, e) then Write(e.addr, Value(left, e.addr)) else e
  }

  lemma ReplacedSnoc(front: seq<Step>, e: Step, d: Pairs)
    ensures var (out, left) := Replaced(front, d);
      Replaced(front + [e], d) ==
        (out + [ReplacedStepOf(left, e)], if Overrides(left, e) then Pop(left, e.addr) else left)
  {
    assert (front + [e])[..|front|] == front;
  }

  /** The pass uses an override up at the first write to its address and keeps it for later otherwise. */
  lemma {:induction false} LeftoversAt(steps: seq<Step>, d: Pairs, a: int)
    requires Keyed(d)
    ensures Keyed(Replaced(steps, d).1)
    ensures LastWrite(Replaced(steps, d).1, a) == if First(steps, a) == |steps| then LastWrite(d, a) else None
  {
    hide Replaced, Pop, Has, IndexOf, LastWrite, Keyed;
    if steps == [] {
      EmptyReplaced(d);
    } else {
      var n := |steps| - 1;
      var front, e := steps[..n], steps[n];
      LeftoversAt(front, d, a);
      assert steps == front + [e];
      ReplacedSnoc(front, e, d);
      FirstInFront(steps, a);
      var left := Replaced(front, d).1;
      if e.Write? {
        PopKeeps(left, e.addr, a);
        PopKeeps(Pop(left, e.addr), e.addr, e.addr);
      }
    }
  }

  /** What the pass leaves at an address: the override, unless a later entry writes there again. */
  lemma {:induction false} ReplacedAt(steps: seq<Step>, d: Pairs, a: int)
    requires Keyed(d)
    ensures LastWrite(Effects(Replaced(steps, d).0), a) ==
      (if Has(d, a) && First(steps, a) < |steps| then
         OrElse(LastWrite(Effects(steps[First(steps, a) + 1..]), a), LastWrite(d, a))
       else LastWrite(Effects(steps), a))
  {
    hide Replaced, Pop, Has, IndexOf, LastWrite, Keyed, Effects;
    if steps == [] {
      EmptyReplaced(d);
    } else {
      var n := |steps| - 1;
      var front, e := steps[..n], steps[n];
      var (out, left) := Replaced(front, d);
      var i := First(steps, a);
      ReplacedAt(front, d, a);
      LeftoversAt(front, d, a);
      assert steps == front + [e];
      ReplacedSnoc(front, e, d);
      FirstInFront(steps, a);
      SnocEffect(out, ReplacedStepOf(left, e), a);
      SnocEffect(front, e, a);
      PopKeeps(left, a, a);
      PopKeeps(d, a, a);
      if i < n {
        assert steps[i + 1..] == front[i + 1..] + [e];
        SnocEffect(front[i + 1..], e, a);
      } else if i == n {
        assert steps[i + 1..] == [];
        NoEffect(a);
      }
    }
  }

  lemma NoEffect(a: int)
    ensures LastWrite(Effects([]), a) == None
  {
  }

  /** The writes that come after the place an override lands in. */
  function AfterLanding(steps: seq<Step>, a: int): Pairs {
    if First(steps, a) < |steps| then Effects(steps[First(steps, a) + 1..]) + Appended(steps)
    else if StreamOn in steps then Effects(steps[|steps| - 1..])
    else Appended(steps)
  }

  /** Nothing after the landing place writes another value there. */
  predicate Sticks(steps: seq<Step>, a: int, v: int) {
    var last := LastWrite(AfterLanding(steps, a), a);
    last.None? || last.value == v
  }

  lemma WritesEffects(d: Pairs)
    ensures Effects(Writes(d)) == d
  {
  }

  lemma StreamOnStays(steps: seq<Step>, d: Pairs)
    ensures StreamOn in Replaced(steps, d).0 <==> StreamOn in steps
    ensures steps != [] ==> Replaced(steps, d).0[|steps| - 1].StreamOn? == steps[|steps| - 1].StreamOn?
  {
    if steps != [] {
      StreamOnStays(steps[..|steps| - 1], d);
    }
  }

  lemma PatchedStreamOn(steps: seq<Step>, overrides: Pairs)
    ensures StreamOn in Patched(steps, overrides) <==> StreamOn in steps
  {
    hide Replaced, DictOf;
    var (out, left) := Replaced(steps, DictOf(overrides));
    StreamOnStays(steps, DictOf(overrides));
    if StreamOn in steps {
      assert out == out[..|out| - 1] + out[|out| - 1..];
    }
    assert StreamOn !in Writes(left);
  }

  /** The last entry of the pass writes at a what the last entry of the list does, unless it is a write to a. */
  lemma LastEntry(steps: seq<Step>, d: Pairs, a: int)
    requires steps != [] && First(steps, a) == |steps|
    ensures var out := Replaced(steps, d).0;
      LastWrite(Effects(out[|out| - 1..]), a) == LastWrite(Effects(steps[|steps| - 1..]), a)
  {
    hide Replaced, Pop, Has, IndexOf, LastWrite, Effects, First;
    var n := |steps| - 1;
    var front, e := steps[..n], steps[n];
    var (out, left) := Replaced(front, d);
    assert steps == front + [e];
    ReplacedSnoc(front, e, d);
    var x := ReplacedStepOf(left, e);
    assert (out + [x])[n..] == [x] && steps[n..] == [e];
    OneEffect(e, a);
    OneEffect(x, a);
    assert !(e.Write? && e.addr == a);
  }

  /** What a replay of the patched list leaves at every address. */
  lemma PatchedAt(steps: seq<Step>, overrides: Pairs, a: int)
    ensures LastWrite(AllWrites(Patched(steps, overrides)), a) ==
            if Has(DictOf(overrides), a) then OrElse(LastWrite(AfterLanding(steps, a), a), LastWrite(DictOf(overrides), a))
            else LastWrite(AllWrites(steps), a)
  {
    hide Replaced, Has, DictOf, LastWrite, Effects, IndexOf, Keyed, First, Patched;
    var d := DictOf(overrides);
    var (out, left) := Replaced(steps, d);
    LeftoversAt(steps, d, a);
    ReplacedAt(steps, d, a);
    PopKeeps(d, a, a);
    PatchedStreamOn(steps, overrides);
    LastWriteAppend(Effects(steps), Appended(steps), a);
    LastWriteAppend(Effects(Patched(steps, overrides)), Appended(steps), a);
    PatchedEffects(steps, overrides, a);
    if StreamOn in steps {
      LastIsOfWhole(out, a);
    }
    if First(steps, a) < |steps| {
      LastWriteAppend(Effects(steps[First(steps, a) + 1..]), Appended(steps), a);
    } else if StreamOn in steps {
      LastEntry(steps, d, a);
      NothingAppended(a);
      LastIsOfWhole(steps, a);
    }
  }

  lemma NothingAppended(a: int)
    ensures LastWrite([], a) == None
  {
  }

  lemma LastIsOfWhole(x: seq<Step>, a: int)
    requires x != []
    ensures LastWrite(Effects(x), a) ==
            OrElse(LastWrite(Effects(x[|x| - 1..]), a), LastWrite(Effects(x[..|x| - 1]), a))
  {
    hide LastWrite, Effects;
    var n := |x| - 1;
    EffectsAppend(x[..n], x[n..]);
    LastWriteAppend(Effects(x[..n]), Effects(x[n..]), a);
    assert x == x[..n] + x[n..];
  }

  lemma PatchedEffects(steps: seq<Step>, overrides: Pairs, a: int)
    ensures var (out, left) := Replaced(steps, DictOf(overrides));
      LastWrite(Effects(Patched(steps, overrides)), a) ==
      if StreamOn in steps then
        OrElse(LastWrite(Effects(out[|out| - 1..]), a), OrElse(LastWrite(left, a), LastWrite(Effects(out[..|out| - 1]), a)))
      else OrElse(LastWrite(left, a), LastWrite(Effects(out), a))
  {
    hide Replaced, DictOf, LastWrite, Effects;
    var (out, left) := Replaced(steps, DictOf(overrides));
    WritesEffects(left);
    if StreamOn in steps {
      var x, y := out[..|out| - 1], out[|out| - 1..];
      EffectsAppend(x + Writes(left), y);
      EffectsAppend(x, Writes(left));
      LastWriteAppend(Effects(x + Writes(left)), Effects(y), a);
      LastWriteAppend(Effects(x), left, a);
    } else {
      EffectsAppend(out, Writes(left));
      LastWriteAppend(Effects(out), left, a);
    }
  }

  /** Patch, then replay: the original replay's registers overwritten by the overrides, exactly when every
      override sticks. */
  lemma PatchThenReplay(steps: seq<Step>, overrides: Pairs, m: map<int, int>)
    ensures var d := DictOf(overrides);
      Final(m, AllWrites(Patched(steps, overrides))) == Final(Final(m, AllWrites(steps)), d)
      <==> forall a :: Has(d, a) ==> Sticks(steps, a, Value(d, a))
  {
    hide AllWrites, Patched, DictOf, LastWrite, AfterLanding, Has, IndexOf, Keyed, Final;
    var d := DictOf(overrides);
    var l, base := Final(m, AllWrites(Patched(steps, overrides))), Final(m, AllWrites(steps));
    var r := Final(base, d);
    forall a
      ensures Has(d, a) ==> a in l && a in r && (l[a] == r[a] <==> Sticks(steps, a, Value(d, a)))
      ensures !Has(d, a) ==> (a in l <==> a in r) && (a in l ==> l[a] == r[a])
    {
      AgreeAt(steps, overrides, m, a);
    }
    if forall a :: Has(d, a) ==> Sticks(steps, a, Value(d, a)) {
      assert forall a :: a in l <==> a in r;
      assert forall a :: a in l ==> l[a] == r[a];
      assert l == r;
    }
    if l == r {
      forall a | Has(d, a)
        ensures Sticks(steps, a, Value(d, a))
      {
        assert l[a] == r[a];
      }
    }
  }

  lemma AgreeAt(steps: seq<Step>, overrides: Pairs, m: map<int, int>, a: int)
    ensures var d := DictOf(overrides);
      var l, r := Final(m, AllWrites(Patched(steps, overrides))), Final(Final(m, AllWrites(steps)), d);
      && (Has(d, a) ==> a in l && a in r && (l[a] == r[a] <==> Sticks(steps, a, Value(d, a))))
      && (!Has(d, a) ==> (a in l <==> a in r) && (a in l ==> l[a] == r[a]))
  {
    hide AllWrites, Patched, DictOf, LastWrite, AfterLanding, Has, IndexOf, Keyed, Final;
    var d := DictOf(overrides);
    PatchedAt(steps, overrides, a);
    PopKeeps(d, a, a);
    FinalAt(m, AllWrites(Patched(steps, overrides)), a);
    FinalAt(m, AllWrites(steps), a);
    FinalAt(Final(m, AllWrites(steps)), d, a);
  }

  /** At most one entry writes to a. */
  predicate AtMostOnce(steps: seq<Step>, a: int) {
    forall i, j :: 0 <= i < j < |steps| && steps[i].Write? && steps[i].addr == a ==>
      !(steps[j].Write? && steps[j].addr == a)
  }

  lemma {:induction false} NeverWritten(w: Pairs, a: int)
    requires forall i :: 0 <= i < |w| ==> w[i].0 != a
    ensures LastWrite(w, a) == None
  {
    if w != [] {
      NeverWritten(w[..|w| - 1], a);
    }
  }

  /** An address written at most once, other than the stream-on register, always ends with its override. */
  lemma SingleWritesStick(steps: seq<Step>, a: int, v: int)
    requires AtMostOnce(steps, a) && a != STREAM_ON.0
    ensures Sticks(steps, a, v)
  {
    hide First, LastWrite;
    NeverWritten(AfterLanding(steps, a), a);
  }

  /** With the marker last, an override of the stream-on register sticks only if it is the stream-on value. */
  lemma StreamOnWins(steps: seq<Step>, v: int)
    requires steps != [] && steps[|steps| - 1] == StreamOn
    ensures Sticks(steps, STREAM_ON.0, v) <==> v == STREAM_ON.1
  {
    hide First, Effects, LastWrite;
    var i := First(steps, STREAM_ON.0);
    var tail := if i < |steps| then steps[i + 1..] else steps[|steps| - 1..];
    assert tail != [] && tail[|tail| - 1] == StreamOn;
    assert Effects(tail) + [] == Effects(tail);
    assert AfterLanding(steps, STREAM_ON.0) == Effects(tail);
    LastEffect(tail);
  }

  lemma LastEffect(tail: seq<Step>)
    requires tail != [] && tail[|tail| - 1] == StreamOn
    ensures LastWrite(Effects(tail), STREAM_ON.0) == Some(STREAM_ON.1)
  {
  }

  /** The advertised use: distinct overrides of registers written at most once. */
  lemma PatchingSingleWrites(steps: seq<Step>, overrides: Pairs, m: map<int, int>)
    requires forall i :: 0 <= i < |overrides| ==> AtMostOnce(steps, overrides[i].0) && overrides[i].0 != STREAM_ON.0
    ensures Final(m, AllWrites(Patched(steps, overrides))) == Final(Final(m, AllWrites(steps)), DictOf(overrides))
  {
    hide Final, AllWrites, Patched, Sticks, DictOf, IndexOf, AtMostOnce;
    var d := DictOf(overrides);
    PatchThenReplay(steps, overrides, m);
    forall a | Has(d, a)
      ensures Sticks(steps, a, Value(d, a))
    {
      KeysComeFrom(overrides, IndexOf(d, a));
      SingleWritesStick(steps, a, Value(d, a));
    }
  }

  lemma {:induction false} KeysComeFrom(overrides: Pairs, i: nat)
    requires i < |DictOf(overrides)|
    ensures exists j :: 0 <= j < |overrides| && overrides[j].0 == DictOf(overrides)[i].0
  {
    hide IndexOf;
    var front := overrides[..|overrides| - 1];
    var f := DictOf(front);
    if i < |f| && DictOf(overrides)[i] == f[i] {
      KeysComeFrom(front, i);
      var j :| 0 <= j < |front| && front[j].0 == f[i].0;
      assert overrides[j].0 == f[i].0;
    } else {
      assert overrides[|overrides| - 1].0 == DictOf(overrides)[i].0;
    }
  }

  // ---- order --------------------------------------------------------------------------------------

  /** The entries the overrides do not touch. */
  function Untouched(steps: seq<Step>, keys: Pairs): seq<Step> {
    if steps == [] then []
    else
      Untouched(steps[..|steps| - 1], keys) + if Overrides(keys, steps[|steps| - 1]) then [] else [steps[|steps| - 1]]
  }

  lemma {:induction false} UntouchedAppend(x: seq<Step>, y: seq<Step>, keys: Pairs)
    ensures Untouched(x + y, keys) == Untouched(x, keys) + Untouched(y, keys)
  {
    hide Has;
    if y == [] {
      assert x + y == x;
    } else {
      UntouchedAppend(x, y[..|y| - 1], keys);
      assert (x + y)[..|x + y| - 1] == x + y[..|y| - 1];
    }
  }

  lemma {:induction false} TouchedOnly(steps: seq<Step>, keys: Pairs)
    requires forall i :: 0 <= i < |steps| ==> Overrides(keys, steps[i])
    ensures Untouched(steps, keys) == []
  {
    hide Has;
    if steps != [] {
      TouchedOnly(steps[..|steps| - 1], keys);
    }
  }

  /** What is left of a dictionary is still in it. */
  ghost predicate Within(left: Pairs, d: Pairs) { forall a :: Has(left, a) ==> Has(d, a) }

  lemma {:induction false} ReplacedUntouched(steps: seq<Step>, d: Pairs)
    requires Keyed(d)
    ensures Keyed(Replaced(steps, d).1) && Within(Replaced(steps, d).1, d)
    ensures Untouched(Replaced(steps, d).0, d) == Untouched(steps, d)
  {
    hide Replaced, Pop, Has, IndexOf, Keyed;
    if steps == [] {
      EmptyReplaced(d);
    } else {
      var n := |steps| - 1;
      var front, e := steps[..n], steps[n];
      var (out, left) := Replaced(front, d);
      ReplacedUntouched(front, d);
      assert steps == front + [e];
      ReplacedSnoc(front, e, d);
      var x := ReplacedStepOf(left, e);
      assert (out + [x])[..n] == out;
      if Overrides(left, e) {
        PopWithin(left, e.addr);
      }
    }
  }

  lemma PopWithin(d: Pairs, a: int)
    requires Keyed(d)
    ensures Keyed(Pop(d, a)) && Within(Pop(d, a), d)
  {
    hide Pop, Has, IndexOf, Keyed, LastWrite;
    PopIsKeyed(d, a);
    forall b | Has(Pop(d, a), b)
      ensures Has(d, b)
    {
      if b != a {
        PopWrites(d, a, b);
        LastInKeyed(d, b);
        LastInKeyed(Pop(d, a), b);
      }
    }
  }

  /** Patching keeps the untouched entries in their order and number, and a final stream-on marker final. */
  lemma PatchKeepsOrder(steps: seq<Step>, overrides: Pairs)
    ensures Untouched(Patched(steps, overrides), DictOf(overrides)) == Untouched(steps, DictOf(overrides))
    ensures steps != [] && steps[|steps| - 1] == StreamOn ==>
      var p := Patched(steps, overrides); p != [] && p[|p| - 1] == StreamOn
  {
    hide Replaced, DictOf, Untouched, Has, IndexOf, Keyed;
    var d := DictOf(overrides);
    var (out, left) := Replaced(steps, d);
    ReplacedUntouched(steps, d);
    StreamOnStays(steps, d);
    forall i | 0 <= i < |left|
      ensures Overrides(d, Writes(left)[i])
    {
      KeyIndex(left, i);
    }
    TouchedOnly(Writes(left), d);
    if StreamOn in steps {
      var x, y := out[..|out| - 1], out[|out| - 1..];
      assert out == x + y;
      UntouchedAppend(x, y, d);
      UntouchedAppend(x + Writes(left), y, d);
      UntouchedAppend(x, Writes(left), d);
    } else {
      UntouchedAppend(out, Writes(left), d);
    }
  }

  lemma {:induction false} OnlyStreamOnThere(steps: seq<Step>)
    requires forall i :: 0 <= i < |steps| ==> !(steps[i].Write? && steps[i].addr == 0x3008)
    ensures LastWrite(Effects(steps), 0x3008) == if StreamOn in steps then Some(0x02) else None
  {
    hide LastWrite, Effects;
    if steps == [] {
      NoEffect(0x3008);
    } else {
      var front, e := steps[..|steps| - 1], steps[|steps| - 1];
      OnlyStreamOnThere(front);
      SnocEffect(front, e, 0x3008);
      assert steps == front + [e];
    }
  }

  /** Every replay ends streaming: register 0x3008 holds 2, unless an entry writes it itself. */
  lemma ReplayStreams(m: map<int, int>, steps: seq<Step>)
    requires forall i :: 0 <= i < |steps| ==> !(steps[i].Write? && steps[i].addr == 0x3008)
    ensures var regs := Final(m, AllWrites(steps)); 0x3008 in regs && regs[0x3008] == 0x02
  {
    hide LastWrite, Effects, Final;
    OnlyStreamOnThere(steps);
    LastWriteAppend(Effects(steps), Appended(steps), 0x3008);
    OtherWrite((0x3008, 0x02), 0x3008);
    NoEffect(0x3008);
    FinalAt(m, AllWrites(steps), 0x3008);
  }
}
