/**
 The packets of the gate: a big-endian length of two or four bytes, then so many bytes. Packets
 without bytes are skipped. A four-byte length is read as a signed int.
 */
module Packets {
  import opened Words

  const LIMIT: int := 0x100_0000

  predicate HeaderSize(hs: nat) { hs == 2 || hs == 4 }

  // The length in the header `h`.
  function Length(h: bytes): (n: int)
    requires HeaderSize(|h|)
    ensures -HALF <= n < HALF
  {
    if |h| == 2 then 256 * (h[0] as int) + (h[1] as int)
    else ToSigned(16777216 * (h[0] as int) + 65536 * (h[1] as int) + 256 * (h[2] as int) + (h[3] as int))
  }

  // In bytes: the most significant first, and four of them are a signed number.
  lemma NetworkOrder()
    ensures Length([1, 2]) == 258 && Length([255, 254]) == 65534
    ensures Length([1, 2, 3, 4]) == 16909060 && Length([255, 255, 255, 254]) == -2
    ensures HeaderOf(2, 258) == [1, 2] && HeaderOf(4, 16909060) == [1, 2, 3, 4]
    ensures LIMIT == 16 * 1024 * 1024
  {
  }

  // The header that announces `n` bytes.
  function HeaderOf(hs: nat, n: nat): (h: bytes)
    requires HeaderSize(hs) && n < if hs == 2 then 65536 else HALF
    ensures |h| == hs && Length(h) == n
  {
    if hs == 2 then [n / 256, n % 256]
    else
      assert n / 65536 == n / 256 / 256 && n / 16777216 == n / 65536 / 256;
      [n / 16777216, n / 65536 % 256, n / 256 % 256, n % 256]
  }

  lemma HeaderOfLength(h: bytes)
    requires HeaderSize(|h|) && Length(h) >= 0
    ensures Length(h) < if |h| == 2 then 65536 else HALF
    ensures HeaderOf(|h|, Length(h)) == h
  {
    if |h| == 4 {
      Digits(h[0], h[1], h[2], h[3]);
      hide ToSigned;
      assert HeaderOf(4, Length(h)) == [h[0], h[1], h[2], h[3]];
    } else {
      assert HeaderOf(2, Length(h)) == [h[0], h[1]];
    }
  }

  lemma Digits(a: byte, b: byte, c: byte, d: byte)
    ensures var w := 16777216 * (a as int) + 65536 * (b as int) + 256 * (c as int) + d as int;
      && 0 <= w < WORD && (ToSigned(w) >= 0 ==> ToSigned(w) == w < HALF)
      && w / 16777216 == a && w / 65536 % 256 == b && w / 256 % 256 == c && w % 256 == d
  {
    var x: int := 256 * (a as int) + b as int;
    var y := 256 * x + c as int;
    var w := 256 * y + d as int;
    Digit(y, d);
    Digit(x, c);
    Digit(a, b);
    assert w / 65536 == w / 256 / 256 && w / 16777216 == w / 65536 / 256;
  }

  lemma Digit(q: int, r: byte)
    ensures (256 * q + r as int) / 256 == q && (256 * q + r as int) % 256 == r
  {
  }

  // What a connection holds: the length already read (or 0) and the bytes after it.
  datatype Stream = Stream(header: int, bytes: bytes)

  datatype Parsed = Parsed(packets: seq<bytes>, left: Stream, rejected: bool)

  // The loop of dispatch_message.
  function Parse(hs: nat, s: Stream): Parsed
    requires HeaderSize(hs)
    decreases |s.bytes|, if s.header == 0 then 1 else 0
  {
    if s.header == 0 then
      if |s.bytes| < hs then Parsed([], s, false)
      else Parse(hs, Stream(Length(s.bytes[..hs]), s.bytes[hs..]))
    else if |s.bytes| < s.header || s.header < 0 then Parsed([], s, false)
    else if s.header >= LIMIT then Parsed([], Stream(0, []), true)
    else
      var p := Parse(hs, Stream(0, s.bytes[s.header..]));
      Parsed([s.bytes[..s.header]] + p.packets, p.left, p.rejected)
  }

  // The same when nobody takes the packets: `_forward` then reads nothing, and only headers leave the buffer.
  function Skim(hs: nat, s: Stream): Parsed
    requires HeaderSize(hs)
    decreases |s.bytes|, if s.header == 0 then 0 else 1
  {
    if s.header == 0 then
      if |s.bytes| < hs then Parsed([], s, false)
      else Skim(hs, Stream(Length(s.bytes[..hs]), s.bytes[hs..]))
    else if |s.bytes| < s.header || s.header < 0 then Parsed([], s, false)
    else if s.header >= LIMIT then Parsed([], Stream(0, []), true)
    else Skim(hs, Stream(0, s.bytes))
  }

  function Handled(hs: nat, s: Stream, taken: bool): Parsed
    requires HeaderSize(hs)
  {
    if taken then Parse(hs, s) else Skim(hs, s)
  }

  lemma ParseHeader(hs: nat, s: Stream)
    requires HeaderSize(hs) && s.header == 0 && |s.bytes| >= hs
    ensures Parse(hs, s) == Parse(hs, Stream(Length(s.bytes[..hs]), s.bytes[hs..]))
  {
  }

  lemma ParseWait(hs: nat, s: Stream)
    requires HeaderSize(hs) && (s.header < 0 || |s.bytes| < if s.header == 0 then hs else s.header)
    ensures Parse(hs, s) == Parsed([], s, false)
  {
  }

  lemma ParseBody(hs: nat, s: Stream)
    requires HeaderSize(hs) && 0 < s.header <= |s.bytes|
    ensures Parse(hs, s) ==
      if s.header >= LIMIT then Parsed([], Stream(0, []), true)
      else Then(Parsed([s.bytes[..s.header]], Stream(0, []), false), Parse(hs, Stream(0, s.bytes[s.header..])))
  {
  }

  // ----- However the bytes arrive -----

  function Then(p: Parsed, q: Parsed): Parsed {
    Parsed(p.packets + q.packets, q.left, q.rejected)
  }

  lemma Cut(a: bytes, b: bytes, n: nat)
    requires n <= |a|
    ensures (a + b)[..n] == a[..n] && (a + b)[n..] == a[n..] + b
  {
  }

  lemma {:induction false} ThenAssoc(p: Parsed, q: Parsed, r: Parsed)
    ensures Then(p, Then(q, r)) == Then(Then(p, q), r)
    ensures p.packets == [] ==> Then(p, q) == q
  {
    assert p.packets + (q.packets + r.packets) == (p.packets + q.packets) + r.packets;
    assert p.packets == [] ==> p.packets + q.packets == q.packets;
  }

  // More bytes: what was found stays found, and the rest is parsed as if all had come at once.
  lemma {:induction false} ParseMore(hs: nat, s: Stream, more: bytes)
    requires HeaderSize(hs) && !Parse(hs, s).rejected
    ensures var p := Parse(hs, s);
      Parse(hs, s.(bytes := s.bytes + more)) == Then(p, Parse(hs, p.left.(bytes := p.left.bytes + more)))
    decreases |s.bytes|, if s.header == 0 then 1 else 0
  {
    hide Length;
    hide Parse;
    var t := s.(bytes := s.bytes + more);
    if s.header == 0 && |s.bytes| >= hs {
      ParseHeader(hs, s);
      ParseHeader(hs, t);
      Cut(s.bytes, more, hs);
      ParseMore(hs, Stream(Length(s.bytes[..hs]), s.bytes[hs..]), more);
    } else if 0 < s.header <= |s.bytes| {
      ParseBody(hs, s);
      ParseBody(hs, t);
      Cut(s.bytes, more, s.header);
      ParseMore(hs, Stream(0, s.bytes[s.header..]), more);
      var q := Parse(hs, Stream(0, s.bytes[s.header..]));
      ThenAssoc(Parsed([s.bytes[..s.header]], Stream(0, []), false), q,
          Parse(hs, q.left.(bytes := q.left.bytes + more)));
    } else {
      ParseWait(hs, s);
      ThenAssoc(Parse(hs, s), Parse(hs, t), Parse(hs, t));
    }
  }

  // Once a packet is rejected, later bytes change nothing.
  lemma {:induction false} ParseRejected(hs: nat, s: Stream, more: bytes)
    requires HeaderSize(hs) && Parse(hs, s).rejected
    ensures Parse(hs, s.(bytes := s.bytes + more)) == Parse(hs, s)
    decreases |s.bytes|, if s.header == 0 then 1 else 0
  {
    hide Length;
    hide Parse;
    var t := s.(bytes := s.bytes + more);
    if s.header == 0 && |s.bytes| >= hs {
      ParseHeader(hs, s);
      ParseHeader(hs, t);
      Cut(s.bytes, more, hs);
      ParseRejected(hs, Stream(Length(s.bytes[..hs]), s.bytes[hs..]), more);
    } else if 0 < s.header <= |s.bytes| {
      ParseBody(hs, s);
      ParseBody(hs, t);
      if s.header < LIMIT {
        Cut(s.bytes, more, s.header);
        ParseRejected(hs, Stream(0, s.bytes[s.header..]), more);
      }
    } else {
      ParseWait(hs, s);
    }
  }

  function Concat(chunks: seq<bytes>): bytes {
    if chunks == [] then [] else Concat(chunks[..|chunks| - 1]) + chunks[|chunks| - 1]
  }

  // dispatch_message chunk after chunk: all that is forwarded up to a rejection, and what is left.
  function Feed(hs: nat, chunks: seq<bytes>): Parsed
    requires HeaderSize(hs)
  {
    if chunks == [] then Parsed([], Stream(0, []), false)
    else
      var p := Feed(hs, chunks[..|chunks| - 1]);
      if p.rejected then p
      else Then(p, Parse(hs, p.left.(bytes := p.left.bytes + chunks[|chunks| - 1])))
  }

  lemma {:induction false} FeedSplits(hs: nat, chunks: seq<bytes>)
    requires HeaderSize(hs)
    ensures Feed(hs, chunks) == Parse(hs, Stream(0, Concat(chunks)))
  {
    if chunks != [] {
      var front, last := chunks[..|chunks| - 1], chunks[|chunks| - 1];
      FeedSplits(hs, front);
      if Feed(hs, front).rejected {
        ParseRejected(hs, Stream(0, Concat(front)), last);
      } else {
        ParseMore(hs, Stream(0, Concat(front)), last);
      }
    }
  }

  // ----- What a stream of packets is -----

  predicate Sendable(hs: nat, p: bytes) {
    HeaderSize(hs) && |p| < LIMIT && (hs == 2 ==> |p| < 65536)
  }

  function Frames(hs: nat, ps: seq<bytes>): bytes
    requires forall i | 0 <= i < |ps| :: Sendable(hs, ps[i])
  {
    if ps == [] then [] else
      assert Sendable(hs, ps[0]);
      HeaderOf(hs, |ps[0]|) + ps[0] + Frames(hs, ps[1..])
  }

  function Filled(ps: seq<bytes>): seq<bytes> {
    if ps == [] then [] else (if ps[0] == [] then [] else [ps[0]]) + Filled(ps[1..])
  }

  lemma FramesFirst(hs: nat, ps: seq<bytes>)
    requires ps != [] && HeaderSize(hs) && forall i | 0 <= i < |ps| :: Sendable(hs, ps[i])
    ensures Sendable(hs, ps[0]) && |ps[0]| < LIMIT && |ps[0]| < (if hs == 2 then 65536 else HALF)
    ensures Frames(hs, ps) == HeaderOf(hs, |ps[0]|) + ps[0] + Frames(hs, ps[1..])
  {
    assert Sendable(hs, ps[0]);
  }

  lemma {:induction false} ParseFrames(hs: nat, ps: seq<bytes>, tail: bytes)
    requires HeaderSize(hs) && forall i | 0 <= i < |ps| :: Sendable(hs, ps[i])
    ensures Parse(hs, Stream(0, Frames(hs, ps) + tail)) == Then(Parsed(Filled(ps), Stream(0, []), false),
      Parse(hs, Stream(0, tail)))
  {
    hide Length;
    hide HeaderOf;
    hide Parse;
    if ps == [] {
      assert Frames(hs, ps) + tail == tail;
    } else {
      FramesFirst(hs, ps);
      var h, p, rest := HeaderOf(hs, |ps[0]|), ps[0], Frames(hs, ps[1..]) + tail;
      var b := Frames(hs, ps) + tail;
      hide Frames;
      assert b == h + (p + rest);
      ParseHeader(hs, Stream(0, b));
      assert b[..hs] == h && b[hs..] == p + rest;
      ParseFrames(hs, ps[1..], tail);
      if p != [] {
        ParseBody(hs, Stream(|p|, p + rest));
        assert (p + rest)[..|p|] == p && (p + rest)[|p|..] == rest;
        ThenAssoc(Parsed([p], Stream(0, []), false), Parsed(Filled(ps[1..]), Stream(0, []), false),
            Parse(hs, Stream(0, tail)));
      } else {
        assert p + rest == rest;
        assert Filled(ps) == Filled(ps[1..]);
      }
    }
  }

  // The packets are handled as they should be exactly when somebody takes them or there are none.
  lemma {:induction false} HandledExact(hs: nat, s: Stream, taken: bool)
    requires HeaderSize(hs)
    ensures Handled(hs, s, taken) == Parse(hs, s) <==> taken || Parse(hs, s).packets == []
  {
    SkimNone(hs, s);
  }

  lemma {:induction false} SkimNone(hs: nat, s: Stream)
    requires HeaderSize(hs)
    ensures Skim(hs, s).packets == []
    ensures Parse(hs, s).packets == [] ==> Skim(hs, s) == Parse(hs, s)
    decreases |s.bytes|, if s.header == 0 then 0 else 1
  {
    hide Length;
    if s.header == 0 && |s.bytes| >= hs {
      SkimNone(hs, Stream(Length(s.bytes[..hs]), s.bytes[hs..]));
    } else if 0 < s.header <= |s.bytes| && s.header < LIMIT {
      SkimNone(hs, Stream(0, s.bytes));
    }
  }

  // Of a packet that nobody takes, the bytes are read as headers next.
  lemma {:induction false} SkimFrame(hs: nat, p: bytes, rest: bytes)
    requires HeaderSize(hs) && Sendable(hs, p)
    ensures Skim(hs, Stream(0, HeaderOf(hs, |p|) + p + rest)) == Skim(hs, Stream(0, p + rest))
  {
    hide Length;
    hide HeaderOf;
    var h := HeaderOf(hs, |p|);
    var b := h + p + rest;
    assert b[..hs] == h && b[hs..] == p + rest;
  }

  // So a packet before anybody is there to take it can cost a later one that somebody takes.
  lemma {:induction false} FrameLost()
    ensures Sendable(2, [7]) && Frames(2, [[7]]) == [0, 1, 7]
    ensures Parse(2, Stream(0, [0, 1, 7])).packets == [[7]]
    ensures Skim(2, Stream(0, [0, 1, 7])) == Parsed([], Stream(0, [7]), false)
    ensures Parse(2, Stream(0, [7] + [0, 1, 7])) == Parsed([], Stream(1792, [1, 7]), false)
  {
    FramesFirst(2, [[7]]);
    var b: bytes := [0, 1, 7];
    assert b[..2] == [0, 1] && b[2..] == [7] && b[2..][..1] == [7] && b[2..][1..] == [];
    var c: bytes := [7] + b;
    assert c[..2] == [7, 0] && c[2..] == [1, 7];
  }

  // The bytes of a stream that are not parsed yet, with the header that was.
  function Unparsed(hs: nat, s: Stream): bytes
    requires HeaderSize(hs) && 0 <= s.header < if hs == 2 then 65536 else HALF
  {
    if s.header == 0 then s.bytes else HeaderOf(hs, s.header) + s.bytes
  }

  // `b` is the frames of the packets `ps` (the packets found, with empty ones between) and then exactly
  // the bytes that are left, which are no whole frame.
  ghost predicate Explains(hs: nat, b: bytes, ps: seq<bytes>, p: Parsed)
    requires HeaderSize(hs)
  {
    && (forall i | 0 <= i < |ps| :: Sendable(hs, ps[i]))
    && Filled(ps) == p.packets
    && 0 <= p.left.header < (if hs == 2 then 65536 else HALF)
    && b == Frames(hs, ps) + Unparsed(hs, p.left)
    && |p.left.bytes| < (if p.left.header == 0 then hs else p.left.header)
  }

  lemma {:induction false} ExplainsMore(hs: nat, h: bytes, p: bytes, rest: bytes, ps: seq<bytes>, q: Parsed)
    requires HeaderSize(hs) && Sendable(hs, p) && h == HeaderOf(hs, |p|) && Explains(hs, rest, ps, q)
    ensures Explains(hs, h + p + rest, [p] + ps, Then(Parsed(if p == [] then [] else [p], Stream(0, []), false), q))
  {
    hide Length;
    hide HeaderOf;
    assert ([p] + ps)[1..] == ps;
    FramesFirst(hs, [p] + ps);
    hide Unparsed;
    assert h + p + rest == h + p + Frames(hs, ps) + Unparsed(hs, q.left);
  }

  // Whatever the bytes, the parse explains all of them.
  lemma {:induction false} ParseExact(hs: nat, b: bytes) returns (ps: seq<bytes>)
    requires HeaderSize(hs)
    requires var p := Parse(hs, Stream(0, b)); !p.rejected && p.left.header >= 0
    ensures Explains(hs, b, ps, Parse(hs, Stream(0, b)))
    decreases |b|
  {
    hide Length;
    hide HeaderOf;
    hide Parse;
    if |b| < hs {
      ParseWait(hs, Stream(0, b));
      return [];
    }
    var h, rest := b[..hs], b[hs..];
    var n := Length(h);
    assert b == h + rest;
    ParseHeader(hs, Stream(0, b));
    Waits(hs, n, rest);
    HeaderOfLength(h);
    if 0 < n && |rest| < n {
      ParseWait(hs, Stream(n, rest));
      return [];
    }
    var p := rest[..n];
    assert b == h + p + rest[n..];
    if n == 0 {
      assert rest[n..] == rest;
    } else {
      ParseBody(hs, Stream(n, rest));
    }
    hide Explains;
    var qs := ParseExact(hs, rest[n..]);
    ExplainsMore(hs, h, p, rest[n..], qs, Parse(hs, Stream(0, rest[n..])));
    ps := [p] + qs;
    ThenAssoc(Parsed([], Stream(0, []), false), Parse(hs, Stream(0, rest[n..])), Parse(hs, Stream(0, [])));
  }

  lemma Waits(hs: nat, n: int, rest: bytes)
    requires HeaderSize(hs) && Parse(hs, Stream(n, rest)).left.header >= 0
    ensures n >= 0
  {
  }

  // Any packets, cut into any chunks, arrive as they were sent.
  lemma {:induction false} PacketsArrive(hs: nat, ps: seq<bytes>, chunks: seq<bytes>)
    requires HeaderSize(hs) && forall i | 0 <= i < |ps| :: Sendable(hs, ps[i])
    requires Concat(chunks) == Frames(hs, ps)
    ensures Feed(hs, chunks) == Parsed(Filled(ps), Stream(0, []), false)
  {
    FeedSplits(hs, chunks);
    ParseFrames(hs, ps, []);
    assert Frames(hs, ps) + [] == Frames(hs, ps);
  }

  // A packet that is too long stops the stream, but only when all of it is there.
  lemma {:induction false} TooLong(hs: nat, ps: seq<bytes>, h: bytes, tail: bytes)
    requires HeaderSize(hs) && |h| == hs && Length(h) >= LIMIT && forall i | 0 <= i < |ps| :: Sendable(hs, ps[i])
    ensures var p := Parse(hs, Stream(0, Frames(hs, ps) + (h + tail)));
      && p.packets == Filled(ps)
      && (p.rejected <==> |tail| >= Length(h))
      && p.left == if p.rejected then Stream(0, []) else Stream(Length(h), tail)
  {
    hide Length;
    hide HeaderOf;
    hide Unparsed;
    hide Parse;
    ParseFrames(hs, ps, h + tail);
    assert (h + tail)[..hs] == h && (h + tail)[hs..] == tail;
    ParseHeader(hs, Stream(0, h + tail));
    if |tail| >= Length(h) {
      ParseBody(hs, Stream(Length(h), tail));
    } else {
      ParseWait(hs, Stream(Length(h), tail));
    }
  }

  // A length of 2^31 or more is a negative int: from then on nothing is delivered, whatever comes.
  lemma {:induction false} NegativeLength(hs: nat, ps: seq<bytes>, h: bytes, tail: bytes)
    requires HeaderSize(hs) && |h| == hs && Length(h) < 0 && forall i | 0 <= i < |ps| :: Sendable(hs, ps[i])
    ensures Parse(hs, Stream(0, Frames(hs, ps) + (h + tail))) == Parsed(Filled(ps), Stream(Length(h), tail), false)
  {
    hide Length;
    hide HeaderOf;
    hide Parse;
    ParseFrames(hs, ps, h + tail);
    Cut(h, tail, hs);
    assert h[..hs] == h && h[hs..] + tail == tail;
    ParseHeader(hs, Stream(0, h + tail));
    ParseWait(hs, Stream(Length(h), tail));
  }
}
