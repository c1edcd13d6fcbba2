/**
 Chunked transfer coding (section 7.1 of RFC 9112) and bodies of known length, read from a transport
 that delivers its bytes in pieces of any size.
 */
module HttpChunked {
  import opened Words

  const CR: byte := 13
  const LF: byte := 10
  const CRLF: bytes := [13, 10]

  // ----- Numbers -----

  function Digit(d: nat): byte
    requires d < 16
  {
    if d < 10 then 48 + d else 87 + d
  }

  function DigitValue(c: byte): Option<nat> {
    if 48 <= c <= 57 then Some(c as int - 48)
    else if 97 <= c <= 102 then Some(c as int - 87)
    else if 65 <= c <= 70 then Some(c as int - 55)
    else None
  }

  // "%x"
  function Hex(n: nat): (h: bytes)
    ensures |h| >= 1 && forall i | 0 <= i < |h| :: DigitValue(h[i]).Some?
  {
    if n < 16 then [Digit(n)] else Hex(n / 16) + [Digit(n % 16)]
  }

  // tonumber(s, 16)
  function ToNumber(s: bytes): Option<nat> {
    if s == [] then None
    else
      var d := DigitValue(s[|s| - 1]);
      if d.None? then None
      else if |s| == 1 then d
      else
        var n := ToNumber(s[..|s| - 1]);
        if n.None? then None else Some(16 * n.value + d.value)
  }

  lemma {:induction false} ToNumberHex(n: nat)
    ensures ToNumber(Hex(n)) == Some(n)
  {
    if n >= 16 {
      ToNumberHex(n / 16);
      assert Hex(n)[..|Hex(n)| - 1] == Hex(n / 16);
    }
  }

  // A chunk size of up to 64 bits takes at most 16 digits.
  lemma {:induction false} HexShort(n: nat, k: nat)
    requires k >= 1 && n < Pow16(k)
    ensures |Hex(n)| <= k
  {
    if n >= 16 {
      HexShort(n / 16, k - 1);
    }
  }

  function Pow16(k: nat): (r: nat)
    ensures r >= 1
  {
    if k == 0 then 1 else 16 * Pow16(k - 1)
  }

  // ----- What a message means -----

  // The first place of CR LF from `i` on.
  function Find(s: bytes, i: nat): (r: Option<nat>)
    ensures r.Some? ==> i <= r.value && r.value + 2 <= |s| && s[r.value] == CR && s[r.value + 1] == LF
    ensures r.Some? ==> forall j | i <= j < r.value :: !(s[j] == CR && s[j + 1] == LF)
    ensures r.None? ==> forall j | i <= j && j + 2 <= |s| :: !(s[j] == CR && s[j + 1] == LF)
    decreases |s| - i
  {
    if i + 2 > |s| then None
    else if s[i] == CR && s[i + 1] == LF then Some(i)
    else Find(s, i + 1)
  }

  // A line is found in any longer stream at the same place.
  lemma {:induction false} FindMore(s: bytes, more: bytes, i: nat)
    requires Find(s, i).Some?
    ensures Find(s + more, i) == Find(s, i)
    decreases |s| - i
  {
    if !(s[i] == CR && s[i + 1] == LF) {
      FindMore(s, more, i + 1);
    }
  }

  // A line of 128 bytes or more may be refused or not, depending on how its bytes arrive.
  datatype Line = Line(size: nat, rest: bytes) | BadLine | CutLine | LongLine

  function SizeLine(s: bytes): Line {
    var f := Find(s, 0);
    if f.None? then if |s| > 128 then BadLine else CutLine
    else if f.value >= 128 then LongLine
    else
      var n := ToNumber(s[..f.value]);
      if n.None? then BadLine else Line(n.value, s[f.value + 2..])
  }

  // Letters are digits in both cases.
  lemma DigitCases(c: byte)
    ensures 65 <= c <= 70 ==> DigitValue(c) == DigitValue((c as int + 32) as byte) == Some(c as int - 55)
    ensures 48 <= c <= 57 ==> DigitValue(c) == Some(c as int - 48)
  {
  }

  // The end of a size line may be less than 128 bytes away.
  lemma LineLimits(s: bytes)
    ensures Find(s, 0).None? ==> (SizeLine(s).BadLine? <==> |s| > 128) && (SizeLine(s).CutLine? <==> |s| <= 128)
    ensures Find(s, 0).Some? ==> (SizeLine(s).LongLine? <==> Find(s, 0).value >= 128)
  {
  }

  // "hi" in one chunk.
  lemma EncodedBytes()
    ensures Encode([[104, 105]], CRLF) == [50, 13, 10, 104, 105, 13, 10, 48, 13, 10, 13, 10]
  {
    assert Encode([], CRLF) == [48, 13, 10, 13, 10];
  }

  datatype Data = Data(data: bytes, rest: bytes) | BadData | ShortData

  // `n` bytes and CR LF.
  function ChunkData(s: bytes, n: nat): Data {
    if |s| < n + 2 then ShortData
    else if s[n..n + 2] != CRLF then BadData
    else Data(s[..n], s[n + 2..])
  }

  // A message body: what is after the last chunk's size line is `rest`.
  datatype Body = Body(data: bytes, rest: bytes) | Refused | Lost | Unsure

  function Decode(s: bytes, limit: Option<nat>, size: nat): (r: Body)
    decreases |s|
  {
    match SizeLine(s)
    case LongLine => Unsure
    case CutLine => Lost
    case BadLine => Refused
    case Line(n, rest) =>
      if n == 0 then Body([], rest)
      else if limit.Some? && size + n > limit.value then Refused
      else match ChunkData(rest, n)
        case BadData => Refused
        case ShortData => Lost
        case Data(data, after) => Longer(data, Decode(after, limit, size + n))
  }

  // ----- The encoder -----

  // The chunks that writeall writes: bodyfunc's empty strings are skipped. `end` is what follows the
  // last size line: writeall ends with CR LF, no trailer. (The first CR LF it writes for the body ends
  // the message's header.)
  function Encode(chunks: seq<bytes>, end: bytes): bytes {
    if chunks == [] then Hex(0) + CRLF + end
    else if chunks[0] == [] then Encode(chunks[1..], end)
    else Hex(|chunks[0]|) + CRLF + (chunks[0] + (CRLF + Encode(chunks[1..], end)))
  }

  function Concat(chunks: seq<bytes>): bytes {
    if chunks == [] then [] else chunks[0] + Concat(chunks[1..])
  }

  lemma {:induction false} SizeLineHex(n: nat, rest: bytes)
    requires n < Pow16(16)
    ensures SizeLine(Hex(n) + CRLF + rest) == Line(n, rest)
  {
    hide Hex;
    hide ToNumber;
    hide Pow16;
    hide Find;
    hide DigitValue;
    var h := Hex(n);
    var s := h + CRLF + rest;
    HexShort(n, 16);
    assert forall j | 0 <= j < |h| :: s[j] == h[j];
    FindAfter(s, |h|, 0);
    assert s[..|h|] == h && s[|h| + 2..] == rest;
    ToNumberHex(n);
  }

  lemma {:induction false} FindAfter(s: bytes, n: nat, i: nat)
    requires i <= n && n + 2 <= |s| && s[n] == CR && s[n + 1] == LF
    requires forall j | i <= j < n :: DigitValue(s[j]).Some?
    ensures Find(s, i) == Some(n)
    decreases n - i
  {
    if i < n {
      FindAfter(s, n, i + 1);
    }
  }

  function Longer(data: bytes, b: Body): Body {
    match b
    case Body(more, last) => Body(data + more, last)
    case other => other
  }

  lemma {:induction false} DecodeLine(s: bytes, n: nat, rest: bytes, limit: Option<nat>, size: nat)
    requires SizeLine(s) == Line(n, rest)
    ensures n == 0 ==> Decode(s, limit, size) == Body([], rest)
    ensures n > 0 && limit.Some? && size + n > limit.value ==> Decode(s, limit, size) == Refused
    ensures n > 0 && (limit.None? || size + n <= limit.value) ==>
      Decode(s, limit, size) ==
        match ChunkData(rest, n)
        case BadData => Refused
        case ShortData => Lost
        case Data(data, after) => Longer(data, Decode(after, limit, size + n))
  {
    hide SizeLine;
    hide ChunkData;
    hide Longer;
  }

  lemma {:induction false} ChunkDataOf(c: bytes, more: bytes)
    ensures ChunkData(c + (CRLF + more), |c|) == Data(c, more)
  {
    var rest := c + (CRLF + more);
    assert rest[..|c|] == c;
    assert rest[|c|..|c| + 2] == CRLF;
    assert rest[|c| + 2..] == more;
  }

  lemma {:induction false} DecodeChunk(c: bytes, more: bytes, limit: Option<nat>, size: nat)
    requires 0 < |c| < Pow16(16)
    ensures Decode(Hex(|c|) + CRLF + (c + (CRLF + more)), limit, size) ==
      if limit.Some? && size + |c| > limit.value then Refused else Longer(c, Decode(more, limit, size + |c|))
  {
    hide *;
    SizeLineHex(|c|, c + (CRLF + more));
    DecodeLine(Hex(|c|) + CRLF + (c + (CRLF + more)), |c|, c + (CRLF + more), limit, size);
    ChunkDataOf(c, more);
  }

  lemma {:induction false} EncodeParts(chunks: seq<bytes>, end: bytes)
    ensures chunks == [] ==> Encode(chunks, end) == Hex(0) + CRLF + end && Concat(chunks) == []
    ensures chunks != [] ==> Concat(chunks) == chunks[0] + Concat(chunks[1..])
    ensures chunks != [] && chunks[0] == [] ==> Encode(chunks, end) == Encode(chunks[1..], end)
    ensures chunks != [] && chunks[0] != [] ==>
      Encode(chunks, end) == Hex(|chunks[0]|) + CRLF + (chunks[0] + (CRLF + Encode(chunks[1..], end)))
  {
  }

  // What decoding the encoding of bytes gives.
  function Whole(data: bytes, end: bytes, limit: Option<nat>, size: nat): Body {
    if limit.Some? && data != [] && size + |data| > limit.value then Refused else Body(data, end)
  }

  lemma WholeLonger(c: bytes, data: bytes, end: bytes, limit: Option<nat>, size: nat)
    requires c != []
    ensures Whole(c + data, end, limit, size) ==
      if limit.Some? && size + |c| > limit.value then Refused else Longer(c, Whole(data, end, limit, size + |c|))
  {
  }

  // Decoding what was encoded gives the bytes of all chunks, and leaves what follows.
  lemma {:induction false} DecodeEncode(chunks: seq<bytes>, end: bytes, limit: Option<nat>, size: nat)
    requires forall i | 0 <= i < |chunks| :: |chunks[i]| < Pow16(16)
    ensures Decode(Encode(chunks, end), limit, size) == Whole(Concat(chunks), end, limit, size)
    ensures limit.Some? && Concat(chunks) != [] && size + |Concat(chunks)| > limit.value ==>
      Decode(Encode(chunks, end), limit, size) == Refused
    ensures limit.None? || Concat(chunks) == [] || size + |Concat(chunks)| <= limit.value ==>
      Decode(Encode(chunks, end), limit, size) == Body(Concat(chunks), end)
  {
    hide Decode;
    hide Hex;
    hide Encode;
    hide Concat;
    hide Pow16;
    EncodeParts(chunks, end);
    if chunks == [] {
      SizeLineHex(0, end);
      DecodeLine(Hex(0) + CRLF + end, 0, end, limit, size);
    } else {
      var c, data := chunks[0], Concat(chunks[1..]);
      DecodeEncode(chunks[1..], end, limit, size + |c|);
      if c == [] {
        assert [] + data == data;
      } else {
        WholeLonger(c, data, end, limit, size);
        DecodeChunk(c, Encode(chunks[1..], end), limit, size);
      }
    }
  }

  // ----- Reading -----

  // The peer's bytes. A read without a size delivers some of them, one with a size exactly so many; it
  // fails when the peer has closed the connection.
  class Transport {
    var data: bytes

    constructor (all: bytes)
      ensures data == all
    {
      data := all;
    }

    method Read() returns (ok: bool, b: bytes)
      modifies this
      ensures ok <==> old(data) != []
      ensures ok ==> b != [] && old(data) == b + data
      ensures !ok ==> data == []
    {
      if data == [] {
        return false, [];
      }
      var k :| 0 < k <= |data|;
      assert data == data[..k] + data[k..];
      b, data := data[..k], data[k..];
      ok := true;
    }

    method ReadExactly(n: nat) returns (ok: bool, b: bytes)
      modifies this
      ensures ok <==> n <= |old(data)|
      ensures ok ==> b == old(data)[..n] && data == old(data)[n..]
    {
      if n > |data| {
        return false, [];
      }
      b, data := data[..n], data[n..];
      ok := true;
    }
  }

  datatype Size = Size(n: nat) | NoSize | Closed

  // chunksize. All that has arrived or will arrive is `body` and then the transport's bytes.
  method ChunkSize(t: Transport, start: bytes) returns (r: Size, body: bytes)
    modifies t
    ensures r.Size? ==> |body| + |t.data| < |start| + |old(t.data)|
    ensures match SizeLine(start + old(t.data))
      case Line(n, rest) => r == Size(n) && body + t.data == rest
      case BadLine => r == NoSize
      case CutLine => r == Closed
      case LongLine => true
  {
    body := start;
    ghost var all := start + t.data;
    while true
      invariant body + t.data == all
      decreases |t.data|
    {
      var f := Find(body, 0);
      if f.Some? {
        FindMore(body, t.data, 0);
        assert all[..f.value] == body[..f.value];
        assert all[f.value + 2..] == body[f.value + 2..] + t.data;
        var n := ToNumber(body[..f.value]);
        body := body[f.value + 2..];
        return if n.Some? then Size(n.value) else NoSize, body;
      }
      if |body| > 128 {
        NotBefore(body, t.data);
        return NoSize, body;
      }
      var ok, b := t.Read();
      if !ok {
        assert body == all;
        return Closed, body;
      }
      body := body + b;
    }
  }

  // If the first part has no line end, the first one of the whole is not before its last byte.
  lemma {:induction false} NotBefore(s: bytes, more: bytes)
    requires Find(s, 0).None? && |s| > 128
    ensures SizeLine(s + more).LongLine? || SizeLine(s + more).BadLine?
  {
    assert forall j | 0 <= j < |s| :: (s + more)[j] == s[j];
  }

  datatype Ended = Ended(body: bytes) | BadEnd | ClosedEnd

  // readcrln
  method ReadCrLn(t: Transport, body: bytes) returns (r: Ended)
    modifies t
    ensures var s := body + old(t.data);
      if |s| < 2 then r == ClosedEnd
      else if s[..2] != CRLF then r == BadEnd
      else r.Ended? && r.body + t.data == s[2..]
  {
    ghost var s := body + t.data;
    if |body| >= 2 {
      assert s[..2] == body[..2];
      if body[..2] != CRLF {
        return BadEnd;
      }
      return Ended(body[2..]);
    }
    var ok, b := t.ReadExactly(2 - |body|);
    if !ok {
      return ClosedEnd;
    }
    assert body + b == s[..2];
    if body + b != CRLF {
      return BadEnd;
    }
    return Ended([]);
  }

  // The data of a chunk and its CR LF, as recvchunkedbody and stream_chunked read them.
  method ReadChunk(t: Transport, n: nat, body: bytes) returns (data: bytes, r: Ended)
    modifies t
    ensures match ChunkData(body + old(t.data), n)
      case ShortData => r == ClosedEnd
      case BadData => r == BadEnd
      case Data(d, after) => data == d && r.Ended? && r.body + t.data == after
  {
    ghost var s := body + t.data;
    var rest: bytes := [];
    if |body| >= n {
      data, rest := body[..n], body[n..];
    } else {
      var ok, b := t.ReadExactly(n - |body|);
      if !ok {
        return [], ClosedEnd;
      }
      data := body + b;
    }
    assert |s| >= n && data == s[..n] && rest + t.data == s[n..];
    r := ReadCrLn(t, rest);
    assert |s| >= n + 2 ==> s[n..][..2] == s[n..n + 2] && s[n..][2..] == s[n + 2..];
  }

  // ----- The header, or the trailer after the last chunk -----

  // A line of a header: not empty, and without CR LF in it.
  predicate HeaderLine(l: bytes) {
    l != [] && Find(l, 0).None?
  }

  function Lines(ls: seq<bytes>): bytes {
    if ls == [] then CRLF else ls[0] + CRLF + Lines(ls[1..])
  }

  predicate Blank(s: bytes, j: int) {
    0 <= j && j + 4 <= |s| && s[j] == CR && s[j + 1] == LF && s[j + 2] == CR && s[j + 3] == LF
  }

  // The first place of an empty line from `i` on.
  function FindBlank(s: bytes, i: nat): (r: Option<nat>)
    ensures r.Some? ==> i <= r.value && Blank(s, r.value) && forall j | i <= j < r.value :: !Blank(s, j)
    ensures r.None? ==> forall j | i <= j :: !Blank(s, j)
    decreases |s| - i
  {
    if i + 4 > |s| then None
    else if Blank(s, i) then Some(i)
    else FindBlank(s, i + 1)
  }

  predicate StartsCrLf(s: bytes) {
    |s| >= 2 && s[..2] == CRLF
  }

  // The lines up to the first empty one, or to the end.
  function Split(s: bytes): (ls: seq<bytes>)
    decreases |s|
  {
    var f := Find(s, 0);
    if f.None? || f.value == 0 then [] else [s[..f.value]] + Split(s[f.value + 2..])
  }

  lemma {:induction false} LineEnd(l: bytes, rest: bytes)
    requires HeaderLine(l)
    ensures Find(l + CRLF + rest, 0) == Some(|l|)
  {
    var s := l + CRLF + rest;
    assert forall j | 0 <= j < |l| :: s[j] == l[j];
    assert s[|l|] == CR && s[|l| + 1] == LF;
    assert forall j | 0 <= j && j + 2 <= |l| :: !(l[j] == CR && l[j + 1] == LF);
  }

  lemma {:induction false} SplitLine(l: bytes, rest: bytes)
    requires HeaderLine(l)
    ensures Split(l + CRLF + rest) == [l] + Split(rest)
  {
    hide Find;
    LineEnd(l, rest);
    var s := l + CRLF + rest;
    assert s[..|l|] == l && s[|l| + 2..] == rest;
  }

  lemma SplitEmpty(rest: bytes)
    ensures Split(CRLF + rest) == []
  {
    assert Find(CRLF + rest, 0) == Some(0);
  }

  lemma {:induction false} SplitLines(ls: seq<bytes>, after: bytes)
    requires forall i | 0 <= i < |ls| :: HeaderLine(ls[i])
    ensures Split(Lines(ls) + after) == ls
  {
    hide Split;
    hide HeaderLine;
    if ls != [] {
      SplitLine(ls[0], Lines(ls[1..]) + after);
      SplitLines(ls[1..], after);
      assert Lines(ls) + after == ls[0] + CRLF + (Lines(ls[1..]) + after);
    } else {
      SplitEmpty(after);
    }
  }

  // A header has no empty line before its end, and does not begin with one.
  lemma {:induction false} LinesBlank(ls: seq<bytes>)
    requires forall i | 0 <= i < |ls| :: HeaderLine(ls[i])
    ensures ls == [] ==> Lines(ls) == CRLF
    ensures ls != [] ==> |Lines(ls)| >= 4 && Blank(Lines(ls), |Lines(ls)| - 4) && !StartsCrLf(Lines(ls))
    ensures forall j | 0 <= j < |Lines(ls)| - 4 :: !Blank(Lines(ls), j)
  {
    if ls != [] {
      LinesBlank(ls[1..]);
      LineBlank(ls[0], Lines(ls[1..]));
    }
  }

  // What follows a header line: the last CR LF, or more lines.
  ghost predicate Follows(rest: bytes) {
    && |rest| >= 2
    && (rest != CRLF ==> |rest| >= 4 && Blank(rest, |rest| - 4) && !StartsCrLf(rest))
    && (forall j | 0 <= j < |rest| - 4 :: !Blank(rest, j))
  }

  lemma {:induction false} LineBlank(l: bytes, rest: bytes)
    requires HeaderLine(l) && Follows(rest)
    ensures var s := l + CRLF + rest;
      && |s| >= 4 && Blank(s, |s| - 4) && !StartsCrLf(s)
      && forall j | 0 <= j < |s| - 4 :: !Blank(s, j)
  {
    var s := l + CRLF + rest;
    LineEnd(l, rest);
    hide Find;
    forall j | 0 <= j < |s| - 4
      ensures !Blank(s, j)
    {
      LineBlankAt(l, rest, j);
    }
    assert s[|l| + 2..] == rest;
    BlankShift(s, |l| + 2, |s| - 4);
    assert s[..2] == [s[0], s[1]];
  }

  lemma {:induction false} LineBlankAt(l: bytes, rest: bytes, j: nat)
    requires HeaderLine(l) && Follows(rest) && j < |l| + |rest| - 2
    ensures !Blank(l + CRLF + rest, j)
  {
    var s := l + CRLF + rest;
    assert s[|l| + 2..] == rest;
    if j >= |l| + 2 {
      BlankShift(s, |l| + 2, j);
    } else if j == |l| {
      assert rest[..2] == [rest[0], rest[1]];
      assert s[j + 2] == rest[0] && s[j + 3] == rest[1];
    } else if j == |l| + 1 {
      assert s[j] == LF;
    } else {
      LineEnd(l, rest);
    }
  }

  lemma BlankShift(s: bytes, n: nat, j: int)
    requires n <= |s|
    ensures j >= n ==> (Blank(s, j) <==> Blank(s[n..], j - n))
  {
  }

  // The first empty line of the bytes that have arrived is the end of the header.
  lemma {:induction false} BlankPlace(h: bytes, after: bytes, got: bytes, j: nat)
    requires got <= h + after && AtBlank(got, j) && |h| >= 4 && Blank(h, |h| - 4)
    requires forall k | 0 <= k < |h| - 4 :: !Blank(h, k)
    ensures j + 4 == |h| <= |got|
  {
    assert j + 4 <= |h| ==> Blank(h, j);
    assert |h| <= |got| ==> Blank(got, |h| - 4);
  }

  // Of the bytes `all`, which begin with a header, `got` has arrived.
  lemma {:induction false} HeaderFound(all: bytes, got: bytes, ls: seq<bytes>, after: bytes, j: nat)
    requires forall i | 0 <= i < |ls| :: HeaderLine(ls[i])
    requires all == Lines(ls) + after && got <= all && AtBlank(got, j) && j + 4 <= |got|
    ensures Split(got) == ls
    ensures ls != [] ==> j + 4 == |Lines(ls)| <= |got| && got[j + 4..] + all[|got|..] == after
  {
    hide *;
    LinesBlank(ls);
    var n := |Lines(ls)|;
    if ls != [] {
      BlankPlace(Lines(ls), after, got, j);
      assert got[n..] + all[|got|..] == all[n..] == after;
    } else {
      CrLfLength();
    }
    assert got == Lines(ls) + got[n..];
    SplitLines(ls, got[n..]);
  }

  lemma CrLfLength()
    ensures |CRLF| == 2
  {
  }

  lemma {:induction false} HeaderStarts(all: bytes, got: bytes, ls: seq<bytes>, after: bytes)
    requires forall i | 0 <= i < |ls| :: HeaderLine(ls[i])
    requires all == Lines(ls) + after && got <= all && StartsCrLf(got)
    ensures ls == [] && got[2..] + all[|got|..] == after
  {
    LinesBlank(ls);
    assert all[..2] == got[..2];
    assert Lines(ls)[..2] == all[..2];
  }

  // Once the whole header is there, it is seen.
  lemma {:induction false} HeaderWhole(all: bytes, got: bytes, ls: seq<bytes>, after: bytes)
    requires forall i | 0 <= i < |ls| :: HeaderLine(ls[i])
    requires all == Lines(ls) + after && got <= all && |Lines(ls)| <= |got|
    ensures StartsCrLf(got) || !NoBlank(got)
  {
    LinesBlank(ls);
    if ls == [] {
      assert got[..2] == CRLF;
    } else {
      assert Blank(got, |Lines(ls)| - 4);
    }
  }

  ghost predicate NoBlank(s: bytes) {
    forall j | 0 <= j :: !Blank(s, j)
  }

  // The first empty line is at `i`.
  ghost predicate AtBlank(s: bytes, i: nat) {
    Blank(s, i) && forall j | 0 <= j < i :: !Blank(s, j)
  }

  lemma FirstBlank(s: bytes, i: nat)
    requires forall j | 0 <= j < i :: !Blank(s, j)
    ensures var e := FindBlank(s, i); if e.None? then NoBlank(s) else AtBlank(s, e.value) && e.value + 4 <= |s|
  {
  }

  // The search over the new bytes and the three before them.
  lemma {:induction false} SearchTail(s: bytes, b: bytes)
    requires NoBlank(s)
    ensures var e := FindBlank(s + b, if |s| >= 3 then |s| - 3 else 0);
      if e.None? then NoBlank(s + b) else AtBlank(s + b, e.value) && e.value + 4 <= |s + b|
  {
    assert forall j | 0 <= j && j + 4 <= |s| :: Blank(s + b, j) ==> Blank(s, j);
    FirstBlank(s + b, if |s| >= 3 then |s| - 3 else 0);
  }

  datatype Header = Header(rest: bytes) | NoHeader | ClosedHeader

  // The bytes `all` begin with a header of the lines `ls`, and `after` follows it.
  ghost predicate Begins(all: bytes, ls: seq<bytes>, after: bytes) {
    (forall i | 0 <= i < |ls| :: HeaderLine(ls[i])) && all == Lines(ls) + after && |Lines(ls)| <= 8192
  }

  // What recvheader has made of it: `got` has arrived, `rest` has not.
  lemma {:induction false} FoundEnd(start: bytes, got: bytes, rest: bytes, ls: seq<bytes>, after: bytes, j: nat)
    requires start <= got && !StartsCrLf(start) && AtBlank(got, j) && j + 4 <= |got|
    ensures Begins(got + rest, ls, after) ==>
      && Split(got) == ls
      && (ls != [] || |start| >= 2 || NoBlank(CRLF + after) ==> got[j + 4..] + rest == after)
  {
    hide Split;
    hide StartsCrLf;
    if Begins(got + rest, ls, after) {
      var all := got + rest;
      HeaderFound(all, got, ls, after, j);
      EmptyStart(all, start, got, ls, after, j);
      assert all[|got|..] == rest;
    }
  }

  lemma {:induction false} FoundStart(got: bytes, rest: bytes, ls: seq<bytes>, after: bytes)
    requires StartsCrLf(got)
    ensures |got| >= 2 && (Begins(got + rest, ls, after) ==> ls == [] && got[2..] + rest == after)
  {
    if Begins(got + rest, ls, after) {
      HeaderStarts(got + rest, got, ls, after);
      assert (got + rest)[|got|..] == rest;
    }
  }

  lemma {:induction false} FoundNone(got: bytes, rest: bytes, ls: seq<bytes>, after: bytes)
    requires NoBlank(got) && !StartsCrLf(got) && (rest == [] || |got| > 8192)
    ensures !Begins(got + rest, ls, after)
  {
    if Begins(got + rest, ls, after) {
      HeaderWhole(got + rest, got, ls, after);
    }
  }

  // M.recvheader, for the lines `ls` and any bytes after them. The code looks for an empty line before it
  // looks for CR LF at the start, so bytes after an empty header may be lost.
  method RecvHeader(t: Transport, start: bytes, ghost ls: seq<bytes>, ghost after: bytes)
    returns (r: Header, lines: seq<bytes>)
    modifies t
    ensures Begins(start + old(t.data), ls, after) ==>
      && r.Header? && lines == ls
      && (ls != [] || |start| >= 2 || NoBlank(CRLF + after) ==> r.rest + t.data == after)
    ensures r.NoHeader? ==> |start + old(t.data)| > 8192
    ensures r.ClosedHeader? ==> NoBlank(start + old(t.data)) && !StartsCrLf(start + old(t.data)) && t.data == []
    ensures r.ClosedHeader? && old(t.data) != [] ==> |start + old(t.data)| <= 8192
  {
    hide *;
    lines := [];
    if StartsCrLf(start) {
      FoundStart(start, t.data, ls, after);
      return Header(start[2..]), lines;
    }
    var header := start;
    var e: Option<nat> := FindBlank(header, 0);
    FirstBlank(header, 0);
    while e.None?
      invariant header + t.data == start + old(t.data) && start <= header
      invariant e.None? ==> NoBlank(header) && !StartsCrLf(header)
      invariant e.Some? ==> e.value + 4 <= |header| && AtBlank(header, e.value)
      invariant e.None? ==> |header| <= 8192 || t.data == old(t.data)
      decreases |t.data| + if e.None? then 1 else 0
    {
      var ok, b := t.Read();
      if !ok {
        FoundNone(header, [], ls, after);
        assert header + [] == header;
        return ClosedHeader, lines;
      }
      var from := if |header| >= 3 then |header| - 3 else 0;
      SearchTail(header, b);
      header := header + b;
      assert header + t.data == start + old(t.data);
      e := FindBlank(header, from);
      if e.None? && StartsCrLf(header) {
        FoundStart(header, t.data, ls, after);
        return Header(header[2..]), lines;
      }
      if e.None? && |header| > 8192 {
        FoundNone(header, t.data, ls, after);
        return NoHeader, lines;
      }
    }
    FoundEnd(start, header, t.data, ls, after, e.value);
    lines := Split(header);
    r := Header(header[e.value + 4..]);
  }

  // Only with bytes after an empty header can any be lost.
  lemma EmptyStart(all: bytes, start: bytes, got: bytes, ls: seq<bytes>, after: bytes, j: nat)
    requires all == Lines(ls) + after && start <= all && got <= all && Blank(got, j)
    ensures ls == [] ==> !NoBlank(CRLF + after) && (|start| >= 2 ==> StartsCrLf(start))
  {
    assert Blank(all, j);
    assert ls == [] && |start| >= 2 ==> start[..2] == all[..2] == CRLF;
  }

  lemma NothingAfter()
    ensures NoBlank(CRLF + [])
  {
  }

  // ----- Whole bodies -----

  datatype Received = Received(data: bytes, trailer: seq<bytes>) | Nothing | Broken

  // M.recvchunkedbody: the decoded body and the lines of the trailer, however the bytes arrive.
  method RecvChunkedBody(t: Transport, limit: Option<nat>, start: bytes, ghost ls: seq<bytes>,
      ghost more: bytes)
    returns (r: Received)
    modifies t
    ensures match Decode(start + old(t.data), limit, 0)
      case Body(data, rest) => Begins(rest, ls, more) ==>
          r == Received(data, ls) && (more == [] ==> t.data == [])
      case Refused => r == Nothing
      case Lost => r == Broken
      case Unsure => true
  {
    hide Decode;
    hide SizeLine;
    hide ChunkData;
    hide Lines;
    ghost var whole := Decode(start + t.data, limit, 0);
    var result: bytes, size: nat, body := [], 0, start;
    LongerNone(whole);
    while true
      invariant whole.Unsure? || whole == Longer(result, Decode(body + t.data, limit, size))
      decreases |body| + |t.data|
    {
      ghost var s := body + t.data;
      LineParts(s, limit, size);
      var sz;
      sz, body := ChunkSize(t, body);
      if !sz.Size? {
        return if sz.NoSize? then Nothing else Broken;
      }
      if SizeLine(s).Line? {
        DecodeLine(s, sz.n, body + t.data, limit, size);
      }
      if sz.n == 0 {
        break;
      }
      size := size + sz.n;
      if limit.Some? && size > limit.value {
        return Nothing;
      }
      ChunkDataShorter(body + t.data, sz.n);
      var data, after := ReadChunk(t, sz.n, body);
      if !after.Ended? {
        return if after.BadEnd? then Nothing else Broken;
      }
      LongerTwice(result, data, Decode(after.body + t.data, limit, size));
      result := result + data;
      body := after.body;
    }
    LongerBody(result, body + t.data);
    NothingAfter();
    var h, lines := RecvHeader(t, body, ls, more);
    r := match h case Header(_) => Received(result, lines) case NoHeader => Nothing case ClosedHeader => Broken;
  }

  lemma LineParts(s: bytes, limit: Option<nat>, size: nat)
    ensures SizeLine(s).BadLine? ==> Decode(s, limit, size) == Refused
    ensures SizeLine(s).LongLine? ==> Decode(s, limit, size) == Unsure
    ensures SizeLine(s).CutLine? ==> Decode(s, limit, size) == Lost
  {
  }

  lemma ChunkDataShorter(s: bytes, n: nat)
    ensures ChunkData(s, n).Data? ==> |ChunkData(s, n).rest| < |s|
  {
  }

  lemma LongerNone(b: Body)
    ensures Longer([], b) == b
  {
    assert b.Body? ==> [] + b.data == b.data;
  }

  lemma LongerTwice(c: bytes, d: bytes, b: Body)
    ensures Longer(c, Longer(d, b)) == Longer(c + d, b)
  {
    assert b.Body? ==> c + (d + b.data) == (c + d) + b.data;
  }

  lemma LongerBody(c: bytes, rest: bytes)
    ensures Longer(c, Body([], rest)) == Body(c, rest)
  {
    assert c + [] == c;
  }

  // ----- Bodies in pieces -----

  // What one call of stream_chunked gives: a chunk, the end, or nothing; `closed` is a broken connection.
  datatype Piece = Piece(data: bytes) | Last | NoPiece | ClosedPiece

  class ChunkStream {
    var body: bytes      // _body
    var reading: bool    // false once _reading is close

    constructor (start: bytes)
      ensures body == start && reading
    {
      body, reading := start, true;
    }

    // stream_chunked
    method Next(t: Transport, ghost ls: seq<bytes>, ghost after: bytes) returns (r: Piece)
      requires reading
      modifies this, t
      ensures r.Piece? <==> reading
      ensures r.Piece? ==> |body| + |t.data| < |old(body)| + |old(t.data)|
      ensures match Decode(old(body) + old(t.data), None, 0)
        case Body(data, rest) =>
          if r.Piece? then
            match Decode(body + t.data, None, 0)
            case Body(more, last) => data == r.data + more && rest == last
            case _ => false
          else
            && data == []
            && (Begins(rest, ls, after) ==> r == Last && (after == [] ==> t.data == []))
        case Refused => if r.Piece? then Decode(body + t.data, None, 0) == Refused else r == NoPiece
        case Lost => if r.Piece? then Decode(body + t.data, None, 0) == Lost else r == ClosedPiece
        case Unsure => true
    {
      hide Decode;
      hide SizeLine;
      hide ChunkData;
      hide Lines;
      ghost var s := body + t.data;
      LineParts(s, None, 0);
      reading := false;
      var sz, start := ChunkSize(t, body);
      if !sz.Size? {
        return if sz.NoSize? then NoPiece else ClosedPiece;
      }
      if SizeLine(s).Line? {
        DecodeLine(s, sz.n, start + t.data, None, 0);
      }
      if sz.n == 0 {
        NothingAfter();
        var h, lines := RecvHeader(t, start, ls, after);
        return match h case Header(_) => Last case NoHeader => NoPiece case ClosedHeader => ClosedPiece;
      }
      ChunkDataShorter(start + t.data, sz.n);
      var data, after := ReadChunk(t, sz.n, start);
      if !after.Ended? {
        return if after.BadEnd? then NoPiece else ClosedPiece;
      }
      DecodeAnySize(after.body + t.data, sz.n, 0);
      body, reading := after.body, true;
      r := Piece(data);
    }
  }

  // Without a limit the size so far does not matter.
  lemma {:induction false} DecodeAnySize(s: bytes, m: nat, n: nat)
    ensures Decode(s, None, m) == Decode(s, None, n)
    decreases |s|
  {
    hide ChunkData;
    match SizeLine(s)
    case Line(k, rest) =>
      ChunkDataShorter(rest, k);
      if k > 0 && ChunkData(rest, k).Data? {
        DecodeAnySize(ChunkData(rest, k).rest, m + k, n + k);
      }
    case _ =>
  }

  function Joined(pieces: seq<bytes>): bytes {
    if pieces == [] then [] else Joined(pieces[..|pieces| - 1]) + pieces[|pieces| - 1]
  }

  lemma JoinedNone(rest: bytes)
    ensures Joined([]) + rest == rest
  {
  }

  lemma JoinedMore(pieces: seq<bytes>, piece: bytes, rest: bytes)
    ensures Joined(pieces + [piece]) == Joined(pieces) + piece
    ensures Joined(pieces) + piece + rest == Joined(pieces) + (piece + rest)
  {
    assert (pieces + [piece])[..|pieces|] == pieces;
  }

  // A caller that reads a stream to its end gets the pieces of the body.
  method ReadPieces(t: Transport, stream: ChunkStream, ghost ls: seq<bytes>, ghost after: bytes)
    returns (pieces: seq<bytes>, end: Piece)
    requires stream.reading
    modifies stream, t
    ensures match Decode(old(stream.body) + old(t.data), None, 0)
      case Body(data, rest) => Begins(rest, ls, after) ==>
          Joined(pieces) == data && end == Last && (after == [] ==> t.data == [])
      case Refused => end == NoPiece
      case Lost => end == ClosedPiece
      case Unsure => true
  {
    hide Decode;
    hide Lines;
    ghost var whole := Decode(stream.body + t.data, None, 0);
    pieces := [];
    while true
      invariant stream.reading
      invariant whole.Body? ==>
        var b := Decode(stream.body + t.data, None, 0);
        b.Body? && whole.data == Joined(pieces) + b.data && whole.rest == b.rest
      invariant whole.Refused? || whole.Lost? ==> Decode(stream.body + t.data, None, 0) == whole
      decreases |stream.body| + |t.data|
    {
      ghost var d := Decode(stream.body + t.data, None, 0);
      var r := stream.Next(t, ls, after);
      if !r.Piece? {
        end := r;
        assert whole.Body? ==> Joined(pieces) + [] == Joined(pieces);
        return;
      }
      JoinedMore(pieces, r.data, []);
      pieces := pieces + [r.data];
    }
  }

  // What a server writes with writeall is what a client reads, whole or in pieces, whatever pieces the
  // network makes of it.
  method SendAndReceive(chunks: seq<bytes>) returns (whole: Received, pieces: seq<bytes>)
    requires forall i | 0 <= i < |chunks| :: |chunks[i]| < Pow16(16)
    ensures whole == Received(Concat(chunks), []) && Joined(pieces) == Concat(chunks)
  {
    hide Decode;
    DecodeEncode(chunks, CRLF, None, 0);
    var wire := Encode(chunks, CRLF);
    assert [] + wire == wire;
    var t := new Transport(wire);
    whole := RecvChunkedBody(t, None, [], [], []);
    var u := new Transport(wire);
    var stream := new ChunkStream([]);
    var end;
    pieces, end := ReadPieces(u, stream, [], []);
  }

  // ----- Bodies of known length -----

  // recvbody with a content-length: exactly so many bytes, or a broken connection.
  method RecvBody(t: Transport, length: nat, start: bytes) returns (ok: bool, body: bytes)
    modifies t
    ensures ok <==> length <= |start + old(t.data)|
    ensures ok ==> body == (start + old(t.data))[..length]
  {
    if |start| >= length {
      assert (start + t.data)[..length] == start[..length];
      return true, start[..length];
    }
    ghost var data := t.data;
    var padding;
    ok, padding := t.ReadExactly(length - |start|);
    assert ok ==> (start + data)[..length] == start + padding;
    body := start + padding;
  }

  function Take(s: bytes, n: nat): bytes {
    if |s| <= n then s else s[..n]
  }

  lemma TakeIs(s: bytes, n: nat)
    ensures Take(s, n) <= s && |Take(s, n)| == if |s| < n then |s| else n
  {
  }

  class LengthStream {
    var body: Option<bytes>
    var length: nat       // bytes still to come
    var connected: bool
    var reading: bool

    constructor (start: bytes, n: nat)
      ensures body == Some(start) && length == n && connected && reading
    {
      body, length, connected, reading := Some(start), n, true, true;
    }

    ghost function ToCome(t: Transport): bytes
      reads this, t
    {
      Take((if body.Some? then body.value else []) + t.data, length)
    }

    // The function that stream_length makes.
    method Next(t: Transport) returns (piece: bytes)
      requires reading && connected
      modifies this, t
      ensures reading ==> connected && piece + ToCome(t) == old(ToCome(t))
      ensures !reading ==> piece == old(ToCome(t))
      ensures reading ==> |t.data| + (if body.Some? then 1 else 0) < |old(t.data)| + if old(body).Some? then 1 else 0
    {
      ghost var all := (if body.Some? then body.value else []) + t.data;
      if body.None? {
        var ok, b := t.Read();
        if ok {
          piece := b;
        } else {
          piece := [];
          connected := false;
        }
      } else {
        piece := body.value;
      }
      assert all == piece + t.data;
      var n := |piece|;
      if n >= length {
        assert all[..length] == piece[..length];
        piece := piece[..length];
        reading := false;
      } else {
        assert piece + Take(t.data, length - n) == Take(all, length);
        assert [] + t.data == t.data;
        length := length - n;
        body := None;
        if !connected {
          reading := false;
        }
      }
    }
  }

  // The pieces are those of the body that recvbody returns.
  method ReadLength(t: Transport, start: bytes, length: nat) returns (pieces: seq<bytes>)
    modifies t
    ensures Joined(pieces) == Take(start + old(t.data), length)
  {
    hide Joined;
    hide Take;
    var stream := new LengthStream(start, length);
    ghost var all := stream.ToCome(t);
    pieces := [];
    JoinedNone(all);
    while stream.reading
      invariant stream.reading ==> stream.connected && Joined(pieces) + stream.ToCome(t) == all
      invariant !stream.reading ==> Joined(pieces) == all
      decreases stream.reading, |t.data| + (if stream.body.Some? then 1 else 0)
    {
      var piece := stream.Next(t);
      JoinedMore(pieces, piece, stream.ToCome(t));
      pieces := pieces + [piece];
    }
  }
}
