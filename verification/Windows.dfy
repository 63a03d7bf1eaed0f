/** The line-buffer and shift-register window generator, refined to a delay line. */
module Windows {
  import opened Arithmetic
  import opened Pixels

  /** The latest beat before beat n that landed in column c (negative when there is none). */
  function LastAt(n: nat, width: int, c: int): int
    requires 0 <= c < width
  {
    n - 1 - (n - 1 - c) % width
  }

  lemma LastAtStep(n: nat, width: int, c: int)
    requires 0 <= c < width
    ensures LastAt(n, width, n % width) == n - width
    ensures LastAt(n + 1, width, c) == if c == n % width then n else LastAt(n, width, c)
  {
    var q, col := n / width, n % width;
    RemainderIs(n - 1 - col, q - 1, width - 1, width);
    if c <= col {
      RemainderIs(n - c, q, col - c, width);
      if c < col { RemainderIs(n - 1 - c, q, col - 1 - c, width); }
    } else {
      RemainderIs(n - c, q - 1, col - c + width, width);
      RemainderIs(n - 1 - c, q - 1, col - 1 - c + width, width);
    }
  }

  lemma NextColumn(n: nat, width: int)
    requires width >= 1
    ensures (n + 1) % width == if n % width == width - 1 then 0 else n % width + 1
  {
    if n % width == width - 1 {
      RemainderIs(n + 1, n / width + 1, 0, width);
    } else {
      RemainderIs(n + 1, n / width, n % width + 1, width);
    }
  }

  /** The beat a rows up and b columns left of beat k. */
  function Back(k: int, width: int, a: int, b: int): int {
    k - a * width - b
  }

  /** Delay-line view of the window: the beat that tap (r, c) shows after beat k. */
  function TapBeat(width: int, taps: int, k: int, r: int, c: int): int {
    Back(k, width, taps - 1 - r, taps - 1 - c)
  }

  /** The closed form of window tap (r, c) once the beats of `s` have been fed in. */
  function WindowTap(s: seq<int>, width: int, taps: int, r: int, c: int): int {
    At(s, TapBeat(width, taps, |s| - 1, r, c))
  }

  /** The beat that line buffer i holds at column c after n beats: i rows above that column's latest. */
  function BufferedBeat(n: nat, width: int, i: int, c: int): int
    requires 0 <= c < width
  {
    LastAt(n, width, c) - i * width
  }

  function BufferedTap(s: seq<int>, width: int, i: int, c: int): int
    requires 0 <= c < width
  {
    At(s, BufferedBeat(|s|, width, i, c))
  }

  /** One beat of the cascade: only the current column moves, each buffer taking the one above. */
  lemma BufferStep(n: nat, width: int, i: nat, c: int)
    requires 0 <= c < width
    ensures BufferedBeat(n + 1, width, i, c) ==
            if c != n % width then BufferedBeat(n, width, i, c)
            else if i == 0 then n else BufferedBeat(n, width, i - 1, c)
    ensures BufferedBeat(n, width, i, n % width) == n - (i + 1) * width
    ensures BufferedBeat(n, width, i, c) < n
  {
    LastAtStep(n, width, c);
    MulMonotone(0, i, width);
    assert i * width == (i - 1) * width + width;
    assert (i + 1) * width == i * width + width;
  }

  /** How one more beat moves the delay-line content of a line-buffer entry. */
  lemma LineBufferEntry(s: seq<int>, px: int, width: int, i: nat, c: int)
    requires 0 <= c < width
    ensures BufferedTap(s + [px], width, i, c) ==
            if c != |s| % width then BufferedTap(s, width, i, c)
            else if i == 0 then px else BufferedTap(s, width, i - 1, c)
  {
    BufferStep(|s|, width, i, c);
    if i > 0 { BufferStep(|s|, width, i - 1, c); }
  }

  /** How one more beat moves the delay-line content of a window tap. */
  lemma WindowEntry(s: seq<int>, px: int, width: int, taps: nat, r: int, c: int)
    requires width >= 1 && 0 <= r < taps && 0 <= c < taps
    ensures WindowTap(s + [px], width, taps, r, c) ==
            if c < taps - 1 then WindowTap(s, width, taps, r, c + 1)
            else if r == taps - 1 then px
            else BufferedTap(s, width, taps - 2 - r, |s| % width)
  {
    MulMonotone(0, taps - 1 - r, width);
    if r < taps - 1 { BufferStep(|s|, width, taps - 2 - r, 0); }
  }

  /** The generator's own state. Two or more taps and a nonempty row are what the source's
      own indexing needs: with one tap `lb[0]` does not exist, with width 0 neither does `lb[i][0]`. */
  class WindowGenerator {
    const width: int
    const taps: int
    const lb: array2<int>
    const win: array2<int>
    var col: int
    ghost var seen: seq<int>

    ghost predicate Shape() reads this {
      && width >= 1 && taps >= 2
      && lb.Length0 == taps - 1 && lb.Length1 == width
      && win.Length0 == taps && win.Length1 == taps
      && lb != win
    }

    ghost predicate Valid()
      reads this, lb, win
    {
      && Shape()
      && col == |seen| % width
      && (forall i, c :: 0 <= i < taps - 1 && 0 <= c < width ==>
            lb[i, c] == BufferedTap(seen, width, i, c))
      && (forall r, c :: 0 <= r < taps && 0 <= c < taps ==>
            win[r, c] == WindowTap(seen, width, taps, r, c))
    }

    constructor (width: int, taps: int)
      requires width >= 1 && taps >= 2
      ensures Valid() && fresh(lb) && fresh(win)
      ensures this.width == width && this.taps == taps && seen == []
    {
      this.width, this.taps := width, taps;
      lb := new int[taps - 1, width]((i, c) => 0);
      win := new int[taps, taps]((r, c) => 0);
      col := 0;
      seen := [];
    }

    /** The column cascade: every line buffer hands its entry to the next older one. */
    method Cascade(px: int) returns (prev: seq<int>)
      requires Shape() && 0 <= col < width
      modifies lb
      ensures |prev| == taps - 1
      ensures forall i :: 0 <= i < taps - 1 ==> prev[i] == old(lb[i, col])
      ensures forall i, c :: 0 <= i < taps - 1 && 0 <= c < width ==>
        lb[i, c] == if c != col then old(lb[i, c]) else if i == 0 then px else old(lb[i - 1, c])
    {
      prev := seq(taps - 1, i requires 0 <= i < taps - 1 && Shape() && 0 <= col < width reads this, lb => lb[i, col]);
      var i := taps - 2;
      while i > 0
        invariant 0 <= i <= taps - 2
        invariant forall j, c :: 0 <= j < taps - 1 && 0 <= c < width ==>
          lb[j, c] == if c == col && j > i then old(lb[j - 1, c]) else old(lb[j, c])
      {
        lb[i, col] := lb[i - 1, col];
        i := i - 1;
      }
      lb[0, col] := px;
    }

    /** Every window row moves one place left and takes its newest value on the right. */
    method ShiftIn(newest: seq<int>)
      requires Shape() && |newest| == taps
      modifies win
      ensures forall r, c :: 0 <= r < taps && 0 <= c < taps ==>
        win[r, c] == if c < taps - 1 then old(win[r, c + 1]) else newest[r]
    {
      for r := 0 to taps
        invariant forall j, c :: 0 <= j < taps && 0 <= c < taps ==>
          win[j, c] == if j >= r then old(win[j, c])
                       else if c < taps - 1 then old(win[j, c + 1]) else newest[j]
      {
        for c := 0 to taps - 1
          invariant forall j, d :: 0 <= j < taps && 0 <= d < taps ==>
            win[j, d] == if j > r || (j == r && d >= c) then old(win[j, d])
                         else if d < taps - 1 then old(win[j, d + 1]) else newest[j]
        {
          win[r, c] := win[r, c + 1];
        }
        win[r, taps - 1] := newest[r];
      }
    }

    /** One beat: read before write, cascade the line buffers, shift the window left. */
    method Step(px: int)
      requires Valid()
      modifies this`col, this`seen, lb, win
      ensures Valid() && seen == old(seen) + [px]
    {
      hide BufferedTap, WindowTap;
      ghost var n := |seen|;
      var prev := Cascade(px);
      var newest := seq(taps, r requires 0 <= r < taps && |prev| == taps - 1 =>
                          if r < taps - 1 then prev[taps - 2 - r] else px);
      ShiftIn(newest);
      col := if col == width - 1 then 0 else col + 1;
      seen := seen + [px];
      NextColumn(n, width);
      forall i, c | 0 <= i < taps - 1 && 0 <= c < width
        ensures lb[i, c] == BufferedTap(seen, width, i, c)
      {
        LineBufferEntry(old(seen), px, width, i, c);
      }
      forall r, c | 0 <= r < taps && 0 <= c < taps
        ensures win[r, c] == WindowTap(seen, width, taps, r, c)
      {
        WindowEntry(old(seen), px, width, taps, r, c);
      }
    }
  }
}
