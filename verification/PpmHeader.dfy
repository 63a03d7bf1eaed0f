/** The header tokeniser of the binary PPM/PGM reader: the index-driven loop, its recursive reading, and what
    comment lines do to it. */
module PpmHeader {

  type Byte = b: int | 0 <= b < 256

  type Bytes = seq<Byte>

  datatype Error = HeaderTruncated | BadNumber | BadMagic | BadMaxval | RasterTruncated

  datatype Result<T> = Ok(value: T) | Err(error: Error)

  /** The tokens read and the index reached. */
  datatype Header = Header(tokens: seq<Bytes>, next: nat)

  predicate IsSpace(b: Byte) { b == 32 || b == 9 || b == 13 || b == 10 }

  predicate IsLineEnd(b: Byte) { b == 13 || b == 10 }

  const HASH: Byte := 35

  /** The tokeniser's byte classes as characters. */
  lemma ByteClasses(b: Byte)
    ensures IsSpace(b) <==> b as char in " \t\r\n"
    ensures IsLineEnd(b) <==> b as char in "\r\n"
    ensures b == HASH <==> b as char == '#'
  {
  }

  /** Index of the first byte that ends a line, or the length. */
  function LineLength(s: Bytes): (n: nat)
    ensures n <= |s|
    ensures forall i :: 0 <= i < n ==> !IsLineEnd(s[i])
    ensures n < |s| ==> IsLineEnd(s[n])
  {
    if s == [] || IsLineEnd(s[0]) then 0 else 1 + LineLength(s[1..])
  }

  /** Index of the first whitespace byte, or the length. */
  function WordLength(s: Bytes): (n: nat)
    ensures n <= |s|
    ensures forall i :: 0 <= i < n ==> !IsSpace(s[i])
    ensures n < |s| ==> IsSpace(s[n])
  {
    if s == [] || IsSpace(s[0]) then 0 else 1 + WordLength(s[1..])
  }

  /** What was read so far, put in front of the reading of the rest. */
  function After(tokens: seq<Bytes>, n: nat, r: Result<Header>): Result<Header> {
    match r
    case Err(e) => Err(e)
    case Ok(h) => Ok(Header(tokens + h.tokens, n + h.next))
  }

  /** `count` tokens read from the front of s. */
  function Scan(s: Bytes, count: int): Result<Header>
    decreases |s|
  {
    if count <= 0 then Ok(Header([], 0))
    else if s == [] then Err(HeaderTruncated)
    else if IsSpace(s[0]) then After([], 1, Scan(s[1..], count))
    else if s[0] == HASH then
      var n := LineLength(s);
      if n == 0 then assert false; Err(HeaderTruncated) else After([], n, Scan(s[n..], count))
    else
      var n := WordLength(s);
      if n == 0 then assert false; Err(HeaderTruncated) else After([s[..n]], n, Scan(s[n..], count - 1))
  }

  lemma AfterAfter(t: seq<Bytes>, n: nat, u: seq<Bytes>, m: nat, r: Result<Header>)
    ensures After(t, n, After(u, m, r)) == After(t + u, n + m, r)
  {
    if r.Ok? {
      assert t + (u + r.value.tokens) == t + u + r.value.tokens;
    }
  }

  lemma AfterNothing(r: Result<Header>)
    ensures After([], 0, r) == r
  {
    if r.Ok? {
      assert [] + r.value.tokens == r.value.tokens;
    }
  }

  lemma LineLengthIs(s: Bytes, n: nat)
    requires n <= |s| && (forall i :: 0 <= i < n ==> !IsLineEnd(s[i])) && (n < |s| ==> IsLineEnd(s[n]))
    ensures LineLength(s) == n
  {
  }

  lemma WordLengthIs(s: Bytes, n: nat)
    requires n <= |s| && (forall i :: 0 <= i < n ==> !IsSpace(s[i])) && (n < |s| ==> IsSpace(s[n]))
    ensures WordLength(s) == n
  {
  }

  lemma ScanSpace(s: Bytes, count: int)
    requires count > 0 && s != [] && IsSpace(s[0])
    ensures Scan(s, count) == After([], 1, Scan(s[1..], count))
  {
  }

  lemma ScanComment(s: Bytes, count: int)
    requires count > 0 && s != [] && s[0] == HASH
    ensures Scan(s, count) == After([], LineLength(s), Scan(s[LineLength(s)..], count))
  {
  }

  lemma ScanWord(s: Bytes, count: int)
    requires count > 0 && s != [] && !IsSpace(s[0]) && s[0] != HASH
    ensures Scan(s, count) == After([s[..WordLength(s)]], WordLength(s), Scan(s[WordLength(s)..], count - 1))
  {
  }

  lemma ScanEnd(s: Bytes, count: int)
    ensures count <= 0 ==> Scan(s, count) == Ok(Header([], 0))
    ensures count > 0 && s == [] ==> Scan(s, count) == Err(HeaderTruncated)
  {
  }

  /** The tokeniser: tokens and the index of the first raster byte. */
  method ReadPpmTokens(data: Bytes, count: int) returns (r: Result<Header>)
    ensures r == match Scan(data, count)
                 case Err(e) => Err(e)
                 case Ok(h) => Ok(Header(h.tokens, h.next + 1))
  {
    hide Scan, After, LineLength, WordLength;
    var tokens: seq<Bytes> := [];
    var i := 0;
    AfterNothing(Scan(data, count));
    assert data[0..] == data;
    while |tokens| < count
      invariant 0 <= i <= |data|
      invariant Scan(data, count) == After(tokens, i, Scan(data[i..], count - |tokens|))
      decreases |data| - i
    {
      ghost var left := count - |tokens|;
      ScanEnd(data[i..], left);
      if i >= |data| {
        AfterError(tokens, i);
        return Err(HeaderTruncated);
      }
      if IsSpace(data[i]) {
        ScanSpace(data[i..], left);
        assert data[i..][1..] == data[i + 1..];
        AfterAfter(tokens, i, [], 1, Scan(data[i + 1..], left));
        assert tokens + [] == tokens;
        i := i + 1;
      } else if data[i] == HASH {
        ghost var start := i;
        while i < |data| && !IsLineEnd(data[i])
          invariant start <= i <= |data|
          invariant forall k :: start <= k < i ==> !IsLineEnd(data[k])
        {
          i := i + 1;
        }
        LineLengthIs(data[start..], i - start);
        ScanComment(data[start..], left);
        assert data[start..][i - start..] == data[i..];
        AfterAfter(tokens, start, [], i - start, Scan(data[i..], left));
        assert tokens + [] == tokens;
      } else {
        var j := i;
        while j < |data| && !IsSpace(data[j])
          invariant i <= j <= |data|
          invariant forall k :: i <= k < j ==> !IsSpace(data[k])
        {
          j := j + 1;
        }
        WordLengthIs(data[i..], j - i);
        ScanWord(data[i..], left);
        assert data[i..][j - i..] == data[j..] && data[i..][..j - i] == data[i..j];
        AfterAfter(tokens, i, [data[i..j]], j - i, Scan(data[j..], left - 1));
        tokens := tokens + [data[i..j]];
        i := j;
      }
    }
    ScanEnd(data[i..], count - |tokens|);
    AfterOk(tokens, i);
    r := Ok(Header(tokens, i + 1));
  }

  lemma AfterError(tokens: seq<Bytes>, n: nat)
    ensures After(tokens, n, Err(HeaderTruncated)) == Err(HeaderTruncated)
  {
  }

  lemma AfterOk(tokens: seq<Bytes>, n: nat)
    ensures After(tokens, n, Ok(Header([], 0))) == Ok(Header(tokens, n))
  {
    assert tokens + [] == tokens;
  }

  /** A successful reading returns exactly `count` nonempty tokens without whitespace, all within the data. */
  lemma {:induction false} ScanShape(s: Bytes, count: int)
    requires Scan(s, count).Ok?
    ensures var h := Scan(s, count).value;
      && |h.tokens| == (if count <= 0 then 0 else count) && h.next <= |s|
      && forall k :: 0 <= k < |h.tokens| ==>
           |h.tokens[k]| > 0 && h.tokens[k][0] != HASH && forall i :: 0 <= i < |h.tokens[k]| ==> !IsSpace(h.tokens[k][i])
    decreases |s|
  {
    hide After, Scan;
    ScanEnd(s, count);
    if count > 0 && s != [] {
      if IsSpace(s[0]) {
        ScanSpace(s, count);
        AfterParts([], 1, Scan(s[1..], count));
        ScanShape(s[1..], count);
      } else if s[0] == HASH {
        ScanComment(s, count);
        AfterParts([], LineLength(s), Scan(s[LineLength(s)..], count));
        ScanShape(s[LineLength(s)..], count);
      } else {
        ScanWord(s, count);
        AfterParts([s[..WordLength(s)]], WordLength(s), Scan(s[WordLength(s)..], count - 1));
        ScanShape(s[WordLength(s)..], count - 1);
      }
    }
  }

  lemma AfterParts(t: seq<Bytes>, n: nat, r: Result<Header>)
    ensures After(t, n, r).Ok? <==> r.Ok?
    ensures r.Ok? ==> After(t, n, r).value == Header(t + r.value.tokens, n + r.value.next)
  {
  }

  // ---- comment lines -----------------------------------------------------------------------

  /** Reading s, the tokeniser comes to its end between two tokens, still wanting more. */
  predicate Pauses(s: Bytes, count: int)
    decreases |s|
  {
    if count <= 0 then false
    else if s == [] then true
    else if IsSpace(s[0]) then Pauses(s[1..], count)
    else if s[0] == HASH then
      var n := LineLength(s);
      0 < n < |s| && Pauses(s[n..], count)
    else
      var n := WordLength(s);
      0 < n < |s| && Pauses(s[n..], count - 1)
  }

  /** The tokens read up to such a pause. */
  function TokensBefore(s: Bytes, count: int): (t: seq<Bytes>)
    requires Pauses(s, count)
    ensures |t| < count
    decreases |s|
  {
    if s == [] then []
    else if IsSpace(s[0]) then TokensBefore(s[1..], count)
    else if s[0] == HASH then TokensBefore(s[LineLength(s)..], count)
    else [s[..WordLength(s)]] + TokensBefore(s[WordLength(s)..], count - 1)
  }

  lemma LineLengthExtends(s: Bytes, rest: Bytes)
    requires LineLength(s) < |s|
    ensures LineLength(s + rest) == LineLength(s)
  {
    LineLengthIs(s + rest, LineLength(s));
  }

  lemma WordLengthExtends(s: Bytes, rest: Bytes)
    requires WordLength(s) < |s|
    ensures WordLength(s + rest) == WordLength(s)
  {
    WordLengthIs(s + rest, WordLength(s));
  }

  lemma DropAppend(s: Bytes, rest: Bytes, n: nat)
    requires n <= |s|
    ensures (s + rest)[n..] == s[n..] + rest && (s + rest)[..n] == s[..n]
  {
  }

  /** One step of the reading in front of a split one. */
  lemma SplitStep(s: Bytes, rest: Bytes, count: int, n: nat, head: seq<Bytes>, t: seq<Bytes>, r: Result<Header>)
    requires n <= |s| && Scan(s + rest, count) == After(head, n, Scan((s + rest)[n..], count - |head|))
    requires Scan(s[n..] + rest, count - |head|) == After(t, |s| - n, r)
    ensures Scan(s + rest, count) == After(head + t, |s|, r)
  {
    hide After, Scan;
    DropAppend(s, rest, n);
    AfterAfter(head, n, t, |s| - n, r);
  }

  /** At a pause the reading splits: the rest is read by itself. */
  lemma {:induction false} PauseSplits(s: Bytes, rest: Bytes, count: int)
    requires Pauses(s, count)
    ensures var t := TokensBefore(s, count);
      Scan(s + rest, count) == After(t, |s|, Scan(rest, count - |t|))
    decreases |s|
  {
    hide After, Scan, LineLength, WordLength, IsSpace;
    var none: seq<Bytes> := [];
    var all := TokensBefore(s, count);
    var r := Scan(rest, count - |all|);
    if s == [] {
      assert s + rest == rest;
      AfterNothing(Scan(rest, count));
    } else if IsSpace(s[0]) {
      PauseSplits(s[1..], rest, count);
      ScanSpace(s + rest, count);
      SplitStep(s, rest, count, 1, none, all, r);
      assert none + all == all;
    } else if s[0] == HASH {
      var n := LineLength(s);
      PauseSplits(s[n..], rest, count);
      LineLengthExtends(s, rest);
      ScanComment(s + rest, count);
      SplitStep(s, rest, count, n, none, all, r);
      assert none + all == all;
    } else {
      var n := WordLength(s);
      PauseSplits(s[n..], rest, count - 1);
      WordLengthExtends(s, rest);
      ScanWord(s + rest, count);
      DropAppend(s, rest, n);
      SplitStep(s, rest, count, n, [s[..n]], TokensBefore(s[n..], count - 1), r);
    }
  }

  /** '#', any text, and the byte that ends the line. */
  predicate IsCommentLine(c: Bytes) {
    |c| >= 2 && c[0] == HASH && IsLineEnd(c[|c| - 1]) && forall i :: 0 <= i < |c| - 1 ==> !IsLineEnd(c[i])
  }

  lemma CommentScan(c: Bytes, rest: Bytes, count: int)
    requires IsCommentLine(c) && count > 0
    ensures Scan(c + rest, count) == After([], |c|, Scan(rest, count))
  {
    hide After, Scan;
    var n := |c| - 1;
    var none: seq<Bytes> := [];
    LineLengthIs(c + rest, n);
    ScanComment(c + rest, count);
    ScanSpace((c + rest)[n..], count);
    assert (c + rest)[n..][1..] == rest;
    AfterAfter([], n, [], 1, Scan(rest, count));
    assert none + none == none;
  }

  function Shifted(r: Result<Header>, n: nat): Result<Header> {
    match r
    case Err(e) => Err(e)
    case Ok(h) => Ok(Header(h.tokens, h.next + n))
  }

  lemma AfterShift(t: seq<Bytes>, n: nat, m: nat, r: Result<Header>)
    ensures After(t, n, After([], m, r)) == Shifted(After(t, n, r), m)
  {
    if r.Ok? {
      assert t + ([] + r.value.tokens) == t + r.value.tokens;
    }
  }

  /** A comment line where the tokeniser pauses changes nothing but the place of the raster. */
  lemma CommentAtPause(s: Bytes, comment: Bytes, rest: Bytes, count: int)
    requires Pauses(s, count) && IsCommentLine(comment)
    ensures Scan(s + comment + rest, count) == Shifted(Scan(s + rest, count), |comment|)
  {
    hide After, Scan, Shifted, Pauses, TokensBefore;
    var t := TokensBefore(s, count);
    PauseSplits(s, rest, count);
    PauseSplits(s, comment + rest, count);
    assert s + comment + rest == s + (comment + rest);
    CommentScan(comment, rest, count - |t|);
    AfterShift(t, |s|, |comment|, Scan(rest, count - |t|));
  }

  predicate AtLineStart(s: Bytes) { s == [] || IsLineEnd(s[|s| - 1]) }

  /** At the start of a line the tokeniser pauses, or it is done. */
  lemma {:induction false} LineStartsPause(s: Bytes, count: int)
    requires AtLineStart(s)
    ensures Pauses(s, count) || Scan(s, count).Ok?
    decreases |s|
  {
    hide After, Scan, LineLength, WordLength;
    ScanEnd(s, count);
    if count > 0 && s != [] {
      if IsSpace(s[0]) {
        LineStartsPause(s[1..], count);
        ScanSpace(s, count);
        AfterParts([], 1, Scan(s[1..], count));
      } else if s[0] == HASH {
        var n := LineLength(s);
        LineStartsPause(s[n..], count);
        ScanComment(s, count);
        AfterParts([], n, Scan(s[n..], count));
      } else {
        var n := WordLength(s);
        LineStartsPause(s[n..], count - 1);
        ScanWord(s, count);
        AfterParts([s[..n]], n, Scan(s[n..], count - 1));
      }
    }
  }

  /** A header that is complete does not look at what follows it, except for the end of its last word. */
  lemma {:induction false} CompleteHeaderStands(s: Bytes, rest: Bytes, count: int)
    requires Scan(s, count).Ok? && AtLineStart(s)
    ensures Scan(s + rest, count) == Scan(s, count)
    decreases |s|
  {
    hide After, Scan, LineLength, WordLength;
    ScanEnd(s, count);
    ScanEnd(s + rest, count);
    if count > 0 {
      if IsSpace(s[0]) {
        ScanSpace(s, count);
        AfterParts([], 1, Scan(s[1..], count));
        CompleteHeaderStands(s[1..], rest, count);
        ScanSpace(s + rest, count);
        DropAppend(s, rest, 1);
      } else if s[0] == HASH {
        var n := LineLength(s);
        ScanComment(s, count);
        AfterParts([], n, Scan(s[n..], count));
        CompleteHeaderStands(s[n..], rest, count);
        LineLengthExtends(s, rest);
        ScanComment(s + rest, count);
        DropAppend(s, rest, n);
      } else {
        var n := WordLength(s);
        ScanWord(s, count);
        AfterParts([s[..n]], n, Scan(s[n..], count - 1));
        CompleteHeaderStands(s[n..], rest, count - 1);
        WordLengthExtends(s, rest);
        ScanWord(s + rest, count);
        DropAppend(s, rest, n);
      }
    }
  }

  /** A comment line inserted at the start of any line: the same tokens in every case; the raster moves
      along exactly when the header was not complete before it. */
  lemma CommentLines(s: Bytes, comment: Bytes, rest: Bytes, count: int)
    requires AtLineStart(s) && IsCommentLine(comment)
    ensures Scan(s + comment + rest, count) ==
            if Scan(s, count).Ok? then Scan(s + rest, count) else Shifted(Scan(s + rest, count), |comment|)
  {
    hide After, Scan, Shifted, Pauses;
    if Scan(s, count).Ok? {
      CompleteHeaderStands(s, rest, count);
      CompleteHeaderStands(s, comment + rest, count);
      assert s + comment + rest == s + (comment + rest);
    } else {
      LineStartsPause(s, count);
      CommentAtPause(s, comment, rest, count);
    }
  }
}
