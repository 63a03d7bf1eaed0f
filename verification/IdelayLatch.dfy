/** The IDELAY control word: the driver's shadow of its fields, the GPIO word it writes, and the tap registers
    the fabric latches when bit 24 of that word rises. The 4-bit processing select ends in bit 24 too. */
module IdelayLatch {
  import opened Arithmetic
  import opened Options

  /** Everything a call can change: the driver's fields, the word, the latched taps. */
  datatype Regs = Regs(t0: int, t1: int, tclk: int, blank: int, procOp: int, word: int,
                       tap0: int, tap1: int, tapClk: int)

  datatype Call =
    | IdelaySet(t0: int, t1: Option<int>, clk: Option<int>)
    | ClkIdelaySet(tclk: int)
    | SetLongAsLine(on: bool)
    | SetSettleBlank(k: int)
    | SetProcOp(op: int)
    | BtraceSel(idx: int, freeze: bool, longAsLine: bool)

  const APPLY := 0x100_0000

  function Flag(on: bool, bit: int): int { if on then bit else 0 }

  /** A word from its fields: [4:0], [12:8], [20:16], [24:21], [25], [26], [30:27]. */
  function Pack(t0: int, t1: int, clk: int, op: int, freeze: bool, long: bool, blank: int): int {
    blank * 0x800_0000 + Flag(long, 0x400_0000) + Flag(freeze, 0x200_0000) + op * 0x20_0000 + clk * 0x1_0000
      + t1 * 0x100 + t0
  }

  predicate Bit24(w: int) { w / 0x100_0000 % 2 == 1 }

  function OrApply(w: int): int { if Bit24(w) then w else w + APPLY }

  function Tap0(w: int): int { w % 32 }

  function Tap1(w: int): int { w / 0x100 % 32 }

  function TapClk(w: int): int { w / 0x1_0000 % 32 }

  function OpField(w: int): int { w / 0x20_0000 % 16 }

  function BlankField(w: int): int { w / 0x800_0000 % 16 }

  predicate LongField(w: int) { w / 0x400_0000 % 2 == 1 }

  predicate FreezeField(w: int) { w / 0x200_0000 % 2 == 1 }

  /** One GPIO write as the fabric sees it. */
  function Written(r: Regs, w: int): Regs {
    if Bit24(w) && !Bit24(r.word) then r.(word := w, tap0 := Tap0(w), tap1 := Tap1(w), tapClk := TapClk(w))
    else r.(word := w)
  }

  /** The word of the shadow fields. */
  function ShadowWord(r: Regs): int {
    Pack(r.t0 % 32, r.t1 % 32, r.tclk % 32, r.procOp % 16, false, false, r.blank % 16)
  }

  function Pulsed(r: Regs): Regs {
    var w := ShadowWord(r);
    Written(Written(Written(r, w), OrApply(w)), w)
  }

  function Apply(r: Regs, c: Call): Regs {
    match c
    case IdelaySet(t0, t1, tclk) =>
      Pulsed(r.(t0 := t0 % 32, t1 := if t1.None? then t0 % 32 else t1.value % 32,
                tclk := if tclk.None? then r.tclk else tclk.value % 32))
    case ClkIdelaySet(tclk) => Pulsed(r.(tclk := tclk % 32))
    case SetLongAsLine(on) => Written(r, Pack(r.t0 % 32, r.t1 % 32, 0, 0, false, on, 0))
    case SetSettleBlank(k) => var s := r.(blank := k % 16); Written(s, ShadowWord(s))
    case SetProcOp(op) => var s := r.(procOp := op % 16); Written(s, ShadowWord(s))
    case BtraceSel(idx, freeze, longAsLine) =>
      Written(r, Pack(r.t0 % 32, r.t1 % 32, idx % 32, 0, freeze, longAsLine, 0))
  }

  function Run(r: Regs, calls: seq<Call>): Regs {
    if calls == [] then r else Apply(Run(r, calls[..|calls| - 1]), calls[|calls| - 1])
  }

  /** The driver object: methods that update the shadow and issue the writes in order. */
  class IdelayControl {
    var t0: int
    var t1: int
    var tclk: int
    var blank: int
    var procOp: int
    var word: int
    var tap0: int
    var tap1: int
    var tapClk: int

    ghost function State(): Regs reads this {
      Regs(t0, t1, tclk, blank, procOp, word, tap0, tap1, tapClk)
    }

    constructor (word: int, tap0: int, tap1: int, tapClk: int)
      ensures State() == Regs(8, 8, 0, 0, 0, word, tap0, tap1, tapClk)
    {
      t0, t1, tclk, blank, procOp := 8, 8, 0, 0, 0;
      this.word, this.tap0, this.tap1, this.tapClk := word, tap0, tap1, tapClk;
    }

    method WriteGpio(w: int)
      modifies this
      ensures State() == Written(old(State()), w)
    {
      if Bit24(w) && !Bit24(word) {
        tap0, tap1, tapClk := Tap0(w), Tap1(w), TapClk(w);
      }
      word := w;
    }

    method IdelayWrite()
      modifies this
      ensures State() == Pulsed(old(State()))
    {
      var w := Pack(t0 % 32, t1 % 32, tclk % 32, procOp % 16, false, false, blank % 16);
      WriteGpio(w);
      WriteGpio(OrApply(w));
      WriteGpio(w);
    }

    method Set(t0: int, t1: Option<int>, tclk: Option<int>)
      modifies this
      ensures State() == Apply(old(State()), IdelaySet(t0, t1, tclk))
    {
      hide Pulsed;
      this.t0 := t0 % 32;
      this.t1 := if t1.None? then this.t0 else t1.value % 32;
      if tclk.Some? {
        this.tclk := tclk.value % 32;
      }
      IdelayWrite();
    }

    method SetClk(tclk: int)
      modifies this
      ensures State() == Apply(old(State()), ClkIdelaySet(tclk))
    {
      hide Pulsed;
      this.tclk := tclk % 32;
      IdelayWrite();
    }

    method LongAsLine(on: bool)
      modifies this
      ensures State() == Apply(old(State()), SetLongAsLine(on))
    {
      hide Written, Pack;
      WriteGpio(Pack(t0 % 32, t1 % 32, 0, 0, false, on, 0));
    }

    method SettleBlank(k: int)
      modifies this
      ensures State() == Apply(old(State()), SetSettleBlank(k))
    {
      hide Written, Pack;
      blank := k % 16;
      WriteGpio(Pack(t0 % 32, t1 % 32, tclk % 32, procOp % 16, false, false, blank % 16));
    }

    method ProcOp(op: int)
      modifies this
      ensures State() == Apply(old(State()), SetProcOp(op))
    {
      hide Written, Pack;
      procOp := op % 16;
      WriteGpio(Pack(t0 % 32, t1 % 32, tclk % 32, procOp % 16, false, false, blank % 16));
    }

    method BoundaryTrace(idx: int, freeze: bool, longAsLine: bool)
      modifies this
      ensures State() == Apply(old(State()), BtraceSel(idx, freeze, longAsLine))
    {
      hide Written, Pack;
      WriteGpio(Pack(t0 % 32, t1 % 32, idx % 32, 0, freeze, longAsLine, 0));
    }
  }

  // ---- fields ------------------------------------------------------------------------------

  predicate InFields(t0: int, t1: int, clk: int, op: int, blank: int) {
    0 <= t0 < 32 && 0 <= t1 < 32 && 0 <= clk < 32 && 0 <= op < 16 && 0 <= blank < 16
  }

  /** The bits above bit 24, and those below it. */
  function Above(freeze: bool, long: bool, blank: int): int { blank * 8 + Flag(long, 4) + Flag(freeze, 2) }

  function BelowApply(t0: int, t1: int, clk: int, op: int): int { op % 8 * 0x20_0000 + clk * 0x1_0000 + t1 * 0x100 + t0 }

  lemma PackSplits(t0: int, t1: int, clk: int, op: int, freeze: bool, long: bool, blank: int)
    requires InFields(t0, t1, clk, op, blank)
    ensures Pack(t0, t1, clk, op, freeze, long, blank) ==
            (Above(freeze, long, blank) + op / 8) * APPLY + BelowApply(t0, t1, clk, op)
    ensures 0 <= BelowApply(t0, t1, clk, op) < APPLY && 0 <= op / 8 < 2 && Above(freeze, long, blank) % 2 == 0
  {
  }

  lemma BitOfPack(t0: int, t1: int, clk: int, op: int, freeze: bool, long: bool, blank: int)
    requires InFields(t0, t1, clk, op, blank)
    ensures Bit24(Pack(t0, t1, clk, op, freeze, long, blank)) <==> op >= 8
  {
    hide Pack, Above, BelowApply;
    var a := Above(freeze, long, blank);
    PackSplits(t0, t1, clk, op, freeze, long, blank);
    RemainderIs(Pack(t0, t1, clk, op, freeze, long, blank), a + op / 8, BelowApply(t0, t1, clk, op), APPLY);
  }

  lemma TapsOfPack(t0: int, t1: int, clk: int, op: int, freeze: bool, long: bool, blank: int)
    requires InFields(t0, t1, clk, op, blank)
    ensures var w := Pack(t0, t1, clk, op, freeze, long, blank); Tap0(w) == t0 && Tap1(w) == t1 && TapClk(w) == clk
  {
    var w := Pack(t0, t1, clk, op, freeze, long, blank);
    var l, f := if long then 1 else 0, if freeze then 1 else 0;
    var high := blank * 64 + l * 32 + f * 16 + op;
    RemainderIs(w, high * 32 + clk, t1 * 0x100 + t0, 0x1_0000);
    RemainderIs(high * 32 + clk, high, clk, 32);
    RemainderIs(w, high * 0x2000 + clk * 0x100 + t1, t0, 0x100);
    RemainderIs(high * 0x2000 + clk * 0x100 + t1, high * 256 + clk * 8, t1, 32);
    RemainderIs(w, high * 0x1_0000 + clk * 0x800 + t1 * 8, t0, 32);
  }

  lemma LevelsOfPack(t0: int, t1: int, clk: int, op: int, freeze: bool, long: bool, blank: int)
    requires InFields(t0, t1, clk, op, blank)
    ensures var w := Pack(t0, t1, clk, op, freeze, long, blank);
      OpField(w) == op && BlankField(w) == blank && (LongField(w) <==> long) && (FreezeField(w) <==> freeze)
      && 0 <= w < 0x8000_0000
  {
    var w := Pack(t0, t1, clk, op, freeze, long, blank);
    var l, f := if long then 1 else 0, if freeze then 1 else 0;
    var low := clk * 0x1_0000 + t1 * 0x100 + t0;
    RemainderIs(w, blank * 64 + l * 32 + f * 16 + op, low, 0x20_0000);
    RemainderIs(blank * 64 + l * 32 + f * 16 + op, blank * 4 + l * 2 + f, op, 16);
    RemainderIs(w, blank * 4 + l * 2 + f, op * 0x20_0000 + low, 0x200_0000);
    RemainderIs(w, blank * 2 + l, f * 0x200_0000 + op * 0x20_0000 + low, 0x400_0000);
    RemainderIs(w, blank, l * 0x400_0000 + f * 0x200_0000 + op * 0x20_0000 + low, 0x800_0000);
  }

  lemma HigherSelect(t0: int, t1: int, clk: int, op: int, freeze: bool, long: bool, blank: int)
    requires op < 8
    ensures Pack(t0, t1, clk, op, freeze, long, blank) + APPLY == Pack(t0, t1, clk, op + 8, freeze, long, blank)
  {
  }

  /** Raising the apply bit is raising the highest select bit, and leaves the tap fields. */
  lemma ApplyKeepsTaps(t0: int, t1: int, clk: int, op: int, freeze: bool, long: bool, blank: int)
    requires InFields(t0, t1, clk, op, blank)
    ensures var w := OrApply(Pack(t0, t1, clk, op, freeze, long, blank));
      Tap0(w) == t0 && Tap1(w) == t1 && TapClk(w) == clk && Bit24(w)
  {
    hide Pack, Tap0, Tap1, TapClk, Bit24;
    BitOfPack(t0, t1, clk, op, freeze, long, blank);
    TapsOfPack(t0, t1, clk, op, freeze, long, blank);
    if op < 8 {
      HigherSelect(t0, t1, clk, op, freeze, long, blank);
      BitOfPack(t0, t1, clk, op + 8, freeze, long, blank);
      TapsOfPack(t0, t1, clk, op + 8, freeze, long, blank);
    }
  }

  // ---- one call ------------------------------------------------------------------------------

  /** The shadow is in its fields; the driver keeps it so. */
  predicate Valid(r: Regs) { InFields(r.t0, r.t1, r.tclk, r.procOp, r.blank) }

  function Latched(r: Regs): Regs { r.(tap0 := r.t0, tap1 := r.t1, tapClk := r.tclk) }

  /** A call that pulses apply latches the shadow unless bit 24 is stuck high, before and through the pulse. */
  lemma PulseLatches(r: Regs)
    requires Valid(r)
    ensures Pulsed(r) == (if r.procOp < 8 || !Bit24(r.word) then Latched(r) else r).(word := ShadowWord(r))
  {
    hide Pack, Tap0, Tap1, TapClk, Bit24, OrApply;
    BitOfPack(r.t0, r.t1, r.tclk, r.procOp, false, false, r.blank);
    TapsOfPack(r.t0, r.t1, r.tclk, r.procOp, false, false, r.blank);
    ApplyKeepsTaps(r.t0, r.t1, r.tclk, r.procOp, false, false, r.blank);
  }

  /** A plain write of the shadow word latches exactly when the select is 8 or more and bit 24 was clear. */
  lemma LevelWrite(r: Regs)
    requires Valid(r)
    ensures Written(r, ShadowWord(r)) ==
            (if r.procOp >= 8 && !Bit24(r.word) then Latched(r) else r).(word := ShadowWord(r))
  {
    hide Pack, Tap0, Tap1, TapClk, Bit24;
    BitOfPack(r.t0, r.t1, r.tclk, r.procOp, false, false, r.blank);
    TapsOfPack(r.t0, r.t1, r.tclk, r.procOp, false, false, r.blank);
  }

  /** Writes without a select field never latch. */
  lemma PlainWrite(r: Regs, clk: int, freeze: bool, long: bool)
    requires Valid(r) && 0 <= clk < 32
    ensures Written(r, Pack(r.t0 % 32, r.t1 % 32, clk, 0, freeze, long, 0)) ==
            r.(word := Pack(r.t0, r.t1, clk, 0, freeze, long, 0))
  {
    hide Pack, Tap0, Tap1, TapClk, Bit24;
    BitOfPack(r.t0, r.t1, clk, 0, freeze, long, 0);
  }

  /** The shadow after a call. */
  function Shadow(r: Regs, c: Call): Regs {
    match c
    case IdelaySet(t0, t1, tclk) =>
      r.(t0 := t0 % 32, t1 := if t1.None? then t0 % 32 else t1.value % 32,
         tclk := if tclk.None? then r.tclk else tclk.value % 32)
    case ClkIdelaySet(tclk) => r.(tclk := tclk % 32)
    case SetSettleBlank(k) => r.(blank := k % 16)
    case SetProcOp(op) => r.(procOp := op % 16)
    case _ => r
  }

  /** Whether a call makes the fabric load the taps: exactly when it makes bit 24 rise. */
  predicate Loads(r: Regs, c: Call) {
    match c
    case IdelaySet(_, _, _) => r.procOp < 8 || !Bit24(r.word)
    case ClkIdelaySet(_) => r.procOp < 8 || !Bit24(r.word)
    case SetSettleBlank(_) => r.procOp >= 8 && !Bit24(r.word)
    case SetProcOp(op) => op % 16 >= 8 && !Bit24(r.word)
    case _ => false
  }

  function WordAfter(r: Regs, c: Call): int {
    match c
    case SetLongAsLine(on) => Pack(r.t0, r.t1, 0, 0, false, on, 0)
    case BtraceSel(idx, freeze, longAsLine) => Pack(r.t0, r.t1, idx % 32, 0, freeze, longAsLine, 0)
    case _ => ShadowWord(Shadow(r, c))
  }

  /** Every call, exactly: the shadow fields it sets, the word it leaves, and whether the taps follow the shadow. */
  lemma CallEffect(r: Regs, c: Call)
    requires Valid(r)
    ensures var s := Shadow(r, c);
      Valid(s) && Apply(r, c) == (if Loads(r, c) then Latched(s) else s).(word := WordAfter(r, c))
  {
    hide Pack, Bit24, Pulsed, Written;
    var s := Shadow(r, c);
    match c
    case IdelaySet(t0, t1, tclk) => PulseLatches(s);
    case ClkIdelaySet(tclk) => PulseLatches(s);
    case SetSettleBlank(k) => LevelWrite(s);
    case SetProcOp(op) => LevelWrite(s);
    case SetLongAsLine(on) => PlainWrite(r, 0, false, on);
    case BtraceSel(idx, freeze, longAsLine) => PlainWrite(r, idx % 32, freeze, longAsLine);
  }

  /** The clock-tap, select and blank fields a call writes: the shadow's, except that the two calls which leave
      them out write zero there, and the trace select its index in place of the clock tap. */
  function ClkWritten(s: Regs, c: Call): int {
    match c
    case SetLongAsLine(_) => 0
    case BtraceSel(idx, _, _) => idx % 32
    case _ => s.tclk
  }

  /** Every field of the 31-bit word any call leaves, read back as the fabric does. */
  lemma WordFields(r: Regs, c: Call)
    requires Valid(r)
    ensures var w, s := Apply(r, c).word, Shadow(r, c);
      && 0 <= w < 0x8000_0000
      && Tap0(w) == s.t0 && Tap1(w) == s.t1 && TapClk(w) == ClkWritten(s, c)
      && OpField(w) == (if c.SetLongAsLine? || c.BtraceSel? then 0 else s.procOp)
      && BlankField(w) == (if c.SetLongAsLine? || c.BtraceSel? then 0 else s.blank)
      && (LongField(w) <==> (c.SetLongAsLine? && c.on) || (c.BtraceSel? && c.longAsLine))
      && (FreezeField(w) <==> c.BtraceSel? && c.freeze)
  {
    hide Apply, Pack, Bit24, Tap0, Tap1, TapClk, OpField, BlankField, LongField, FreezeField;
    var s := Shadow(r, c);
    CallEffect(r, c);
    match c
    case SetLongAsLine(on) => PackReads(s.t0, s.t1, 0, 0, false, on, 0);
    case BtraceSel(idx, freeze, longAsLine) => PackReads(s.t0, s.t1, idx % 32, 0, freeze, longAsLine, 0);
    case _ => PackReads(s.t0, s.t1, s.tclk, s.procOp, false, false, s.blank);
  }

  lemma PackReads(t0: int, t1: int, clk: int, op: int, freeze: bool, long: bool, blank: int)
    requires InFields(t0, t1, clk, op, blank)
    ensures var w := Pack(t0, t1, clk, op, freeze, long, blank);
      && Tap0(w) == t0 && Tap1(w) == t1 && TapClk(w) == clk && OpField(w) == op && BlankField(w) == blank
      && (LongField(w) <==> long) && (FreezeField(w) <==> freeze) && 0 <= w < 0x8000_0000
  {
    hide Pack, Tap0, Tap1, TapClk, OpField, BlankField, LongField, FreezeField;
    TapsOfPack(t0, t1, clk, op, freeze, long, blank);
    LevelsOfPack(t0, t1, clk, op, freeze, long, blank);
  }

  /** A tap request takes effect exactly when bit 24 can rise: the select is below 8 or the bit was clear;
      otherwise only a request for what is already loaded is met. */
  lemma RequestIsMet(r: Regs, t0: int, t1: Option<int>, tclk: Option<int>)
    requires Valid(r)
    ensures var s := Apply(r, IdelaySet(t0, t1, tclk));
      var want1 := if t1.Some? then t1.value % 32 else t0 % 32;
      (s.tap0 == t0 % 32 && s.tap1 == want1) <==>
      (r.procOp < 8 || !Bit24(r.word) || (r.tap0 == t0 % 32 && r.tap1 == want1))
  {
    hide Apply, Bit24;
    CallEffect(r, IdelaySet(t0, t1, tclk));
  }

  /** A request made while the select is 8 or more is lost: selecting loads what was asked for before, and
      then nothing loads until the bit falls. */
  lemma RequestIsLost(r: Regs, op: int, t0: int, t1: Option<int>, tclk: Option<int>)
    requires Valid(r) && op % 16 >= 8
    ensures var s := Apply(Apply(r, SetProcOp(op)), IdelaySet(t0, t1, tclk));
      (s.tap0, s.tap1) == (if Bit24(r.word) then (r.tap0, r.tap1) else (r.t0, r.t1))
  {
    hide Apply, Bit24, Pack;
    CallEffect(r, SetProcOp(op));
    var s := Apply(r, SetProcOp(op));
    BitOfPack(r.t0, r.t1, r.tclk, op % 16, false, false, r.blank);
    CallEffect(s, IdelaySet(t0, t1, tclk));
  }

  // ---- runs ------------------------------------------------------------------------------------

  /** The data taps agree with the driver's. */
  predicate InSync(r: Regs) { r.tap0 == r.t0 && r.tap1 == r.t1 }

  /** No tap request is made while the select is 8 or more and bit 24 is already high. */
  predicate Careful(r: Regs, calls: seq<Call>) {
    calls == [] ||
    (Careful(r, calls[..|calls| - 1]) &&
     var s := Run(r, calls[..|calls| - 1]);
     calls[|calls| - 1].IdelaySet? ==> s.procOp < 8 || !Bit24(s.word))
  }

  /** The last data taps asked for, by a request in the run or before it. */
  function LastTaps(calls: seq<Call>, before: (int, int)): (int, int) {
    if calls == [] then before
    else
      match calls[|calls| - 1]
      case IdelaySet(t0, t1, _) => (t0 % 32, if t1.None? then t0 % 32 else t1.value % 32)
      case _ => LastTaps(calls[..|calls| - 1], before)
  }

  lemma {:induction false} RunsStayValid(r: Regs, calls: seq<Call>)
    requires Valid(r)
    ensures Valid(Run(r, calls)) && LastTaps(calls, (r.t0, r.t1)) == (Run(r, calls).t0, Run(r, calls).t1)
  {
    hide Apply, Pack, Bit24;
    if calls != [] {
      var front := calls[..|calls| - 1];
      RunsStayValid(r, front);
      CallEffect(Run(r, front), calls[|calls| - 1]);
    }
  }

  /** The taps were loaded by the last tap request of the run or by a call after it. */
  predicate LoadedSince(r: Regs, calls: seq<Call>) {
    calls != [] &&
    var front, c := calls[..|calls| - 1], calls[|calls| - 1];
    Loads(Run(r, front), c) || (!c.IdelaySet? && LoadedSince(r, front))
  }

  /** The data taps the fabric held when the last tap request of the run came, or at its start. */
  function TapsBefore(r: Regs, calls: seq<Call>): (int, int) {
    if calls == [] then (r.tap0, r.tap1)
    else
      var front := calls[..|calls| - 1];
      if calls[|calls| - 1].IdelaySet? then (Run(r, front).tap0, Run(r, front).tap1) else TapsBefore(r, front)
  }

  lemma {:induction false} LoadedOrHeld(r: Regs, calls: seq<Call>)
    requires Valid(r)
    ensures var end := Run(r, calls);
      if LoadedSince(r, calls) then InSync(end) else (end.tap0, end.tap1) == TapsBefore(r, calls)
  {
    hide Apply, Pack, Bit24, Loads;
    if calls != [] {
      var front := calls[..|calls| - 1];
      RunsStayValid(r, front);
      LoadedOrHeld(r, front);
      CallEffect(Run(r, front), calls[|calls| - 1]);
    }
  }

  /** From any state, over any run of any calls: the latched data taps are the last ones asked for exactly when
      something has loaded them since, or when they were those values already. */
  lemma TapsFollowIff(r: Regs, calls: seq<Call>)
    requires Valid(r)
    ensures var end := Run(r, calls);
      (end.tap0, end.tap1) == LastTaps(calls, (r.t0, r.t1)) <==>
      LoadedSince(r, calls) || TapsBefore(r, calls) == LastTaps(calls, (r.t0, r.t1))
  {
    hide Run, LoadedSince, TapsBefore, LastTaps;
    RunsStayValid(r, calls);
    LoadedOrHeld(r, calls);
  }

  /** The clock tap has requests of its own. */
  predicate AsksClk(c: Call) { c.ClkIdelaySet? || (c.IdelaySet? && c.clk.Some?) }

  function LastClk(calls: seq<Call>, before: int): int {
    if calls == [] then before
    else
      match calls[|calls| - 1]
      case ClkIdelaySet(tclk) => tclk % 32
      case IdelaySet(_, _, Some(tclk)) => tclk % 32
      case _ => LastClk(calls[..|calls| - 1], before)
  }

  predicate ClkLoadedSince(r: Regs, calls: seq<Call>) {
    calls != [] &&
    var front, c := calls[..|calls| - 1], calls[|calls| - 1];
    Loads(Run(r, front), c) || (!AsksClk(c) && ClkLoadedSince(r, front))
  }

  function ClkBefore(r: Regs, calls: seq<Call>): int {
    if calls == [] then r.tapClk
    else
      var front := calls[..|calls| - 1];
      if AsksClk(calls[|calls| - 1]) then Run(r, front).tapClk else ClkBefore(r, front)
  }

  lemma {:induction false} ClkLoadedOrHeld(r: Regs, calls: seq<Call>)
    requires Valid(r)
    ensures var end := Run(r, calls);
      && Valid(end) && end.tclk == LastClk(calls, r.tclk)
      && end.tapClk == if ClkLoadedSince(r, calls) then end.tclk else ClkBefore(r, calls)
  {
    hide Apply, Pack, Bit24, Loads;
    if calls != [] {
      var front := calls[..|calls| - 1];
      ClkLoadedOrHeld(r, front);
      CallEffect(Run(r, front), calls[|calls| - 1]);
    }
  }

  /** The same for the clock tap and its requests. */
  lemma ClkFollowsIff(r: Regs, calls: seq<Call>)
    requires Valid(r)
    ensures Run(r, calls).tapClk == LastClk(calls, r.tclk) <==>
            ClkLoadedSince(r, calls) || ClkBefore(r, calls) == LastClk(calls, r.tclk)
  {
    hide Run, ClkLoadedSince, ClkBefore, LastClk;
    ClkLoadedOrHeld(r, calls);
  }

  /** A request lost under a high select is loaded after all by a level write, once a word without a select
      field has cleared bit 24. */
  lemma LostRequestLoadsLater(r: Regs, t0: int, t1: Option<int>, tclk: Option<int>, on: bool, k: int)
    requires Valid(r) && r.procOp >= 8 && Bit24(r.word)
    ensures var lost := [IdelaySet(t0, t1, tclk)];
      && !LoadedSince(r, lost)
      && !LoadedSince(r, lost + [SetLongAsLine(on)])
      && LoadedSince(r, lost + [SetLongAsLine(on)] + [SetSettleBlank(k)])
  {
    hide Apply, Pack, Bit24;
    var c, d, e := IdelaySet(t0, t1, tclk), SetLongAsLine(on), SetSettleBlank(k);
    var s := Apply(r, c);
    assert Run(r, []) == r && [c][..0] == [] && ([c] + [d])[..1] == [c] && ([c] + [d] + [e])[..2] == [c] + [d];
    CallEffect(r, c);
    CallEffect(s, d);
    BitOfPack(s.t0, s.t1, 0, 0, false, on, 0);
  }

  lemma {:induction false} RunsStayInSync(r: Regs, calls: seq<Call>)
    requires Valid(r) && InSync(r) && Careful(r, calls)
    ensures InSync(Run(r, calls))
  {
    hide Apply, Pack, Bit24;
    if calls != [] {
      var front := calls[..|calls| - 1];
      RunsStayValid(r, front);
      RunsStayInSync(r, front);
      CallEffect(Run(r, front), calls[|calls| - 1]);
    }
  }

  /** After a first request that loads, over any run of any calls in which every request can make bit 24 rise,
      the latched data taps are the last ones asked for. */
  lemma TapsFollowRequests(r: Regs, t0: int, t1: Option<int>, tclk: Option<int>, calls: seq<Call>)
    requires Valid(r) && (r.procOp < 8 || !Bit24(r.word))
    requires Careful(Apply(r, IdelaySet(t0, t1, tclk)), calls)
    ensures var end := Run(Apply(r, IdelaySet(t0, t1, tclk)), calls);
      (end.tap0, end.tap1) == LastTaps(calls, (t0 % 32, if t1.None? then t0 % 32 else t1.value % 32))
  {
    hide Apply, Bit24, Pack, Run, Careful, LastTaps;
    var s := Apply(r, IdelaySet(t0, t1, tclk));
    CallEffect(r, IdelaySet(t0, t1, tclk));
    RunsStayInSync(s, calls);
    RunsStayValid(s, calls);
  }

  predicate PointOpsOnly(calls: seq<Call>) {
    forall i :: 0 <= i < |calls| && calls[i].SetProcOp? ==> calls[i].op % 16 < 8
  }

  /** Runs that only select point operations are careful. */
  lemma {:induction false} PointOpsAreCareful(r: Regs, calls: seq<Call>)
    requires Valid(r) && r.procOp < 8 && PointOpsOnly(calls)
    ensures Careful(r, calls) && Run(r, calls).procOp < 8
  {
    hide Apply, Pack, Bit24;
    if calls != [] {
      var front := calls[..|calls| - 1];
      RunsStayValid(r, front);
      PointOpsAreCareful(r, front);
      CallEffect(Run(r, front), calls[|calls| - 1]);
    }
  }

  /** So, while only point operations are selected, the data taps follow the requests over any run. */
  lemma PointRunsKeepRequests(r: Regs, t0: int, t1: Option<int>, tclk: Option<int>, calls: seq<Call>)
    requires Valid(r) && r.procOp < 8 && PointOpsOnly(calls)
    ensures var end := Run(Apply(r, IdelaySet(t0, t1, tclk)), calls);
      (end.tap0, end.tap1) == LastTaps(calls, (t0 % 32, if t1.None? then t0 % 32 else t1.value % 32))
  {
    hide Apply, Bit24, Pack, Run, Careful, LastTaps, PointOpsOnly;
    CallEffect(r, IdelaySet(t0, t1, tclk));
    PointOpsAreCareful(Apply(r, IdelaySet(t0, t1, tclk)), calls);
    TapsFollowRequests(r, t0, t1, tclk, calls);
  }

  predicate KeepsLevels(c: Call) { !c.SetLongAsLine? && !c.BtraceSel? }

  function LastBlank(calls: seq<Call>, before: int): int {
    if calls == [] then before
    else if calls[|calls| - 1].SetSettleBlank? then calls[|calls| - 1].k % 16
    else LastBlank(calls[..|calls| - 1], before)
  }

  function LastOp(calls: seq<Call>, before: int): int {
    if calls == [] then before
    else if calls[|calls| - 1].SetProcOp? then calls[|calls| - 1].op % 16
    else LastOp(calls[..|calls| - 1], before)
  }

  lemma {:induction false} ShadowLevels(r: Regs, calls: seq<Call>)
    requires Valid(r)
    ensures Run(r, calls).blank == LastBlank(calls, r.blank) && Run(r, calls).procOp == LastOp(calls, r.procOp)
  {
    hide Apply, Pack, Bit24;
    if calls != [] {
      var front := calls[..|calls| - 1];
      RunsStayValid(r, front);
      ShadowLevels(r, front);
      CallEffect(Run(r, front), calls[|calls| - 1]);
    }
  }

  /** The level fields the fabric reads directly: after any run, the last settle blank and select written,
      exactly unless the last call was one that leaves them out of its word; then both read zero. */
  lemma LevelFieldsFollow(r: Regs, calls: seq<Call>, c: Call)
    requires Valid(r)
    ensures var w := Run(r, calls + [c]).word;
      if KeepsLevels(c) then
        BlankField(w) == LastBlank(calls + [c], r.blank) && OpField(w) == LastOp(calls + [c], r.procOp)
      else BlankField(w) == 0 && OpField(w) == 0
  {
    hide Apply, Pack, Bit24, Tap0, BlankField, OpField;
    var s := Run(r, calls);
    assert (calls + [c])[..|calls|] == calls;
    RunsStayValid(r, calls);
    CallEffect(s, c);
    ShadowLevels(r, calls + [c]);
    if KeepsLevels(c) {
      var e := Shadow(s, c);
      LevelsOfPack(e.t0, e.t1, e.tclk, e.procOp, false, false, e.blank);
    } else if c.SetLongAsLine? {
      LevelsOfPack(s.t0, s.t1, 0, 0, false, c.on, 0);
    } else {
      LevelsOfPack(s.t0, s.t1, c.idx % 32, 0, c.freeze, c.longAsLine, 0);
    }
  }
}
