/**
 WebSocket frames (section 5.2 of RFC 6455) and messages cut into frames (section 5.4), as a server's
 receive loop and a client's read take them.
 */
module WebSocket {
  import opened Words

  const MAX_FRAME_SIZE: nat := 262144

  // ----- Masking -----

  function XorBits(a: nat, b: nat, n: nat): (r: nat)
    ensures r < Pow2(n)
  {
    if n == 0 then 0 else (a % 2 + b % 2) % 2 + 2 * XorBits(a / 2, b / 2, n - 1)
  }

  function Pow2(n: nat): nat {
    if n == 0 then 1 else 2 * Pow2(n - 1)
  }

  function Xor(a: byte, b: byte): byte {
    assert Pow2(8) == 256 by {
      assert Pow2(4) == 16;
    }
    XorBits(a, b, 8)
  }

  lemma XorBitsStep(a: nat, b: nat, n: nat)
    requires n > 0
    ensures XorBits(a, b, n) == (a % 2 + b % 2) % 2 + 2 * XorBits(a / 2, b / 2, n - 1)
  {
  }

  lemma HalfBound(a: nat, n: nat)
    ensures n == 0 && a < Pow2(n) ==> a == 0
    ensures n > 0 && a < Pow2(n) ==> a / 2 < Pow2(n - 1)
  {
  }

  lemma {:induction false} XorBitsTwice(a: nat, b: nat, n: nat)
    requires a < Pow2(n)
    ensures XorBits(XorBits(a, b, n), b, n) == a
  {
    hide Pow2;
    hide XorBits;
    HalfBound(a, n);
    XorBitsNone(a, b);
    if n > 0 {
      var bit, x := (a % 2 + b % 2) % 2, XorBits(a / 2, b / 2, n - 1);
      XorBitsTwice(a / 2, b / 2, n - 1);
      LowBit(a % 2, b % 2, x);
      XorBitsStep(a, b, n);
      XorBitsStep(bit + 2 * x, b, n);
      assert a == a % 2 + 2 * (a / 2);
    }
  }

  lemma XorBitsNone(a: nat, b: nat)
    ensures XorBits(a, b, 0) == 0
  {
  }

  lemma LowBit(a: nat, b: nat, x: nat)
    requires a < 2 && b < 2
    ensures var r := (a + b) % 2 + 2 * x; r / 2 == x && r % 2 == (a + b) % 2 && (r % 2 + b) % 2 == a
  {
  }

  predicate Key(k: bytes) { |k| == 4 }

  // crypt.xor_str with a key of four bytes
  function Masked(s: bytes, key: bytes): (r: bytes)
    requires Key(key)
    ensures |r| == |s|
  {
    seq(|s|, i requires 0 <= i < |s| => Xor(s[i], key[i % 4]))
  }

  lemma {:induction false} MaskedTwice(s: bytes, key: bytes)
    requires Key(key)
    ensures Masked(Masked(s, key), key) == s
  {
    assert Pow2(8) == 256 by {
      assert Pow2(4) == 16;
    }
    forall i | 0 <= i < |s|
      ensures Masked(Masked(s, key), key)[i] == s[i]
    {
      XorBitsTwice(s[i], key[i % 4], 8);
    }
  }

  // ----- Big-endian numbers -----

  function Big(n: nat, k: nat): (b: bytes)
    ensures |b| == k
  {
    if k == 0 then [] else Big(n / 256, k - 1) + [n % 256]
  }

  function FromBig(b: bytes): nat {
    if b == [] then 0 else 256 * FromBig(b[..|b| - 1]) + b[|b| - 1] as int
  }

  function Pow256(k: nat): (r: nat)
    ensures r >= 1
  {
    if k == 0 then 1 else 256 * Pow256(k - 1)
  }

  lemma {:induction false} FromBigBig(n: nat, k: nat)
    requires n < Pow256(k)
    ensures FromBig(Big(n, k)) == n
  {
    if k > 0 {
      FromBigBig(n / 256, k - 1);
      assert Big(n, k)[..k - 1] == Big(n / 256, k - 1);
    }
  }

  // ">I8" gives a Lua integer.
  const MAXINT: nat := 0x8000_0000_0000_0000

  function Integer64(n: nat): int {
    if n < MAXINT then n else n - 2 * MAXINT
  }

  // ----- Frames -----

  predicate OpCode(op: nat) { op == 0 || op == 1 || op == 2 || op == 8 || op == 9 || op == 10 }

  datatype Frame = Frame(fin: bool, op: nat, payload: bytes)

  predicate FrameOk(f: Frame) { OpCode(f.op) && |f.payload| < MAXINT }

  predicate KeyOk(key: Option<bytes>) { key.Some? ==> Key(key.value) }

  function LengthBytes(mask: nat, n: nat): bytes
    requires mask == 0 || mask == 128
  {
    if n < 126 then [mask + n]
    else if n <= 0xffff then [mask + 126] + Big(n, 2)
    else [mask + 127] + Big(n, 8)
  }

  // The bytes of a frame, as write_frame makes them; it always sets the fin bit.
  function FrameBytes(f: Frame, key: Option<bytes>): bytes
    requires FrameOk(f) && KeyOk(key)
  {
    [(if f.fin then 128 else 0) + f.op] + LengthBytes(if key.Some? then 128 else 0, |f.payload|)
    + Body(f, key)
  }

  datatype Read = Got(frame: Frame, rest: bytes) | TooLarge | BadOp | Ended

  function ReadPayload(fin: bool, op: nat, mask: bool, n: int, server: bool, s: bytes): Read {
    if server && n > MAX_FRAME_SIZE then TooLarge
    else if mask && |s| < 4 then Ended
    else
      var body := if mask then s[4..] else s;
      var size: nat := if n > 0 then n else 0;
      if |body| < size then Ended
      else if !OpCode(op) then BadOp
      else Got(Frame(fin, op, if mask then Masked(body[..size], s[..4]) else body[..size]), body[size..])
  }

  // read_frame. (A length of 2^63 or more is negative for Lua, and then no payload is read.)
  function ReadFrame(s: bytes, server: bool): Read {
    if |s| < 2 then Ended
    else
      var fin, op, mask, n := s[0] >= 128, s[0] % 16, s[1] >= 128, s[1] % 128;
      if n == 126 then
        if |s| < 4 then Ended else ReadPayload(fin, op, mask, FromBig(s[2..4]), server, s[4..])
      else if n == 127 then
        if |s| < 10 then Ended else ReadPayload(fin, op, mask, Integer64(FromBig(s[2..10])), server, s[10..])
      else ReadPayload(fin, op, mask, n, server, s[2..])
  }

  lemma Pow256At()
    ensures Pow256(2) == 0x1_0000 && Pow256(8) == 2 * MAXINT
  {
    assert Pow256(4) == 0x1_0000_0000;
  }

  // The payload is read back, masked or not.
  lemma {:induction false} ReadPayloadBack(f: Frame, key: Option<bytes>, server: bool, rest: bytes)
    requires FrameOk(f) && KeyOk(key)
    ensures var s := Body(f, key) + rest;
      ReadPayload(f.fin, f.op, key.Some?, |f.payload|, server, s) ==
        if server && |f.payload| > MAX_FRAME_SIZE then TooLarge else Got(f, rest)
  {
    match key
    case None =>
      assert (f.payload + rest)[..|f.payload|] == f.payload && (f.payload + rest)[|f.payload|..] == rest;
    case Some(k) =>
      var m := Masked(f.payload, k);
      MaskedTwice(f.payload, k);
      var s := k + m + rest;
      assert s[..4] == k && s[4..] == m + rest;
      assert (m + rest)[..|m|] == m && (m + rest)[|m|..] == rest;
  }

  lemma ReadShort(b0: byte, b1: byte, tail: bytes, server: bool)
    requires b1 % 128 < 126
    ensures ReadFrame([b0, b1] + tail, server) == ReadPayload(b0 >= 128, b0 % 16, b1 >= 128, b1 % 128, server, tail)
  {
    assert ([b0, b1] + tail)[2..] == tail;
  }

  lemma ReadMedium(b0: byte, b1: byte, l: bytes, tail: bytes, server: bool)
    requires b1 % 128 == 126 && |l| == 2
    ensures ReadFrame([b0, b1] + l + tail, server) == ReadPayload(b0 >= 128, b0 % 16, b1 >= 128, FromBig(l), server,
      tail)
  {
    hide ReadPayload;
    hide FromBig;
    var s := [b0, b1] + l + tail;
    assert s[2..4] == l && s[4..] == tail;
  }

  lemma ReadLong(b0: byte, b1: byte, l: bytes, tail: bytes, server: bool)
    requires b1 % 128 == 127 && |l| == 8
    ensures ReadFrame([b0, b1] + l + tail, server) == ReadPayload(b0 >= 128, b0 % 16, b1 >= 128,
      Integer64(FromBig(l)), server, tail)
  {
    hide ReadPayload;
    hide FromBig;
    var s := [b0, b1] + l + tail;
    assert s[2..10] == l && s[10..] == tail;
  }

  // What follows the length of a frame.
  function Body(f: Frame, key: Option<bytes>): bytes
    requires KeyOk(key)
  {
    match key
    case None => f.payload
    case Some(k) => k + Masked(f.payload, k)
  }

  lemma FrameParts(f: Frame, key: Option<bytes>, rest: bytes)
    requires FrameOk(f) && KeyOk(key)
    ensures OpCode(f.op) && |f.payload| < MAXINT
    ensures var s := FrameBytes(f, key) + rest; var n := |f.payload|;
      var b0 := (if f.fin then 128 else 0) + f.op; var m := if key.Some? then 128 else 0;
      && (n < 126 ==> s == [b0, m + n] + (Body(f, key) + rest))
      && (126 <= n <= 0xffff ==> s == [b0, m + 126] + Big(n, 2) + (Body(f, key) + rest))
      && (n > 0xffff ==> s == [b0, m + 127] + Big(n, 8) + (Body(f, key) + rest))
  {
    hide Masked;
    hide Big;
  }

  lemma Signed(n: nat)
    requires n < MAXINT
    ensures n < 2 * MAXINT && Integer64(n) == n
  {
  }

  lemma Flags(fin: bool, op: nat, masked: bool, n: nat)
    requires OpCode(op) && n < 128
    ensures var b0 := (if fin then 128 else 0) + op; var b1 := (if masked then 128 else 0) + n;
      b0 < 256 && (b0 >= 128 <==> fin) && b0 % 16 == op && b1 < 256 && (b1 >= 128 <==> masked) && b1 % 128 == n
  {
  }

  // read_frame undoes write_frame, for every opcode, length and mask, fin or not.
  lemma {:induction false} ReadFrameBack(f: Frame, key: Option<bytes>, server: bool, rest: bytes)
    requires FrameOk(f) && KeyOk(key)
    ensures ReadFrame(FrameBytes(f, key) + rest, server) ==
      if server && |f.payload| > MAX_FRAME_SIZE then TooLarge else Got(f, rest)
  {
    hide *;
    var n := |f.payload|;
    var b0 := (if f.fin then 128 else 0) + f.op;
    var m := if key.Some? then 128 else 0;
    var tail := Body(f, key) + rest;
    ReadPayloadBack(f, key, server, rest);
    FrameParts(f, key, rest);
    Pow256At();
    if n < 126 {
      Flags(f.fin, f.op, key.Some?, n);
      ReadShort(b0, m + n, tail, server);
    } else if n <= 0xffff {
      Flags(f.fin, f.op, key.Some?, 126);
      FromBigBig(n, 2);
      ReadMedium(b0, m + 126, Big(n, 2), tail, server);
    } else {
      Flags(f.fin, f.op, key.Some?, 127);
      FromBigBig(n, 8);
      Signed(n);
      ReadLong(b0, m + 127, Big(n, 8), tail, server);
    }
  }

  // The examples of section 5.7 of RFC 6455: "Hello" in a text frame, plain and masked, and in a ping; the
  // headers of 256 and of 65536 bytes in a binary frame.
  lemma FrameExamples()
    ensures FrameBytes(Frame(true, 1, HELLO), None) == [0x81, 0x05] + HELLO
    ensures FrameBytes(Frame(true, 1, HELLO), Some([0x37, 0xfa, 0x21, 0x3d])) ==
      [0x81, 0x85, 0x37, 0xfa, 0x21, 0x3d, 0x7f, 0x9f, 0x4d, 0x51, 0x58]
    ensures FrameBytes(Frame(true, 9, HELLO), None) == [0x89, 0x05] + HELLO
    ensures FrameBytes(Frame(false, 1, HELLO), None) == [0x01, 0x05] + HELLO
    ensures FrameBytes(Frame(true, 8, []), None) == [0x88, 0x00]
  {
    HelloMasked();
    hide Masked;
  }

  const HELLO: bytes := [0x48, 0x65, 0x6c, 0x6c, 0x6f]

  lemma HelloMasked()
    ensures Masked(HELLO, [0x37, 0xfa, 0x21, 0x3d]) == [0x7f, 0x9f, 0x4d, 0x51, 0x58]
  {
    hide Xor;
    XorExamples();
  }

  // The lowest two bits of the exclusive or.
  function Two(a: nat, b: nat): nat { (a % 2 + b % 2) % 2 + 2 * ((a / 2 % 2 + b / 2 % 2) % 2) }

  lemma XorTwo(a: nat, b: nat, n: nat)
    requires n >= 2
    ensures XorBits(a, b, n) == Two(a, b) + 4 * XorBits(a / 4, b / 4, n - 2)
  {
    hide XorBits;
    XorBitsStep(a, b, n);
    XorBitsStep(a / 2, b / 2, n - 1);
    assert a / 2 / 2 == a / 4 && b / 2 / 2 == b / 4;
  }

  // Of digits to the base 4, the third one when both are there and differ.
  lemma TwoIs(a: nat, b: nat)
    requires a < 4 && b < 4
    ensures Two(a, b) == if a == b then 0 else if a == 0 then b else if b == 0 then a else 6 - a - b
  {
    assert a == 0 || a == 1 || a == 2 || a == 3;
    assert b == 0 || b == 1 || b == 2 || b == 3;
  }

  lemma LowTwo(a: nat, x: nat)
    requires a < 4
    ensures (4 * x + a) % 2 == a % 2 && (4 * x + a) / 2 % 2 == a / 2 % 2 && (4 * x + a) / 4 == x
  {
    assert (4 * x + a) / 2 == 2 * x + a / 2;
  }

  lemma TwoLow(a: nat, b: nat, x: nat, y: nat)
    requires a < 4 && b < 4
    ensures Two(4 * x + a, 4 * y + b) == Two(a, b)
  {
    LowTwo(a, x);
    LowTwo(b, y);
  }

  lemma XorDigit(a: nat, b: nat, x: nat, y: nat, n: nat)
    requires a < 4 && b < 4
    ensures XorBits(4 * x + a, 4 * y + b, n + 2) == Two(a, b) + 4 * XorBits(x, y, n)
  {
    hide Two;
    hide XorBits;
    LowTwo(a, x);
    LowTwo(b, y);
    TwoLow(a, b, x, y);
    XorTwo(4 * x + a, 4 * y + b, n + 2);
  }

  lemma XorDigits(a: seq<nat>, b: seq<nat>, n: nat)
    requires |a| == |b| == n && forall i | 0 <= i < n :: a[i] < 4 && b[i] < 4
    ensures XorBits(Digits(a), Digits(b), 2 * n) == Digits(TwoAll(a, b))
    decreases n
  {
    hide Two;
    hide XorBits;
    if n > 0 {
      XorDigits(a[..n - 1], b[..n - 1], n - 1);
      XorDigit(a[n - 1], b[n - 1], Digits(a[..n - 1]), Digits(b[..n - 1]), 2 * n - 2);
      assert TwoAll(a, b)[..n - 1] == TwoAll(a[..n - 1], b[..n - 1]);
    } else {
      XorBitsNone(0, 0);
    }
  }

  function Digits(a: seq<nat>): nat { if a == [] then 0 else 4 * Digits(a[..|a| - 1]) + a[|a| - 1] }

  function TwoAll(a: seq<nat>, b: seq<nat>): seq<nat>
    requires |a| == |b|
  {
    seq(|a|, i requires 0 <= i < |a| => Two(a[i], b[i]))
  }

  lemma DigitsAre(a: nat, b: nat, c: nat, d: nat)
    ensures Digits([a, b, c, d]) == 64 * a + 16 * b + 4 * c + d
  {
    assert [a, b, c, d][..3] == [a, b, c] && [a, b, c][..2] == [a, b] && [a, b][..1] == [a] && [a][..0] == [];
    assert Digits([a]) == a;
    assert Digits([a, b]) == 4 * a + b;
    assert Digits([a, b, c]) == 16 * a + 4 * b + c;
  }

  lemma XorFour(a: nat, b: nat, c: nat, d: nat, e: nat, f: nat, g: nat, h: nat)
    requires a < 4 && b < 4 && c < 4 && d < 4 && e < 4 && f < 4 && g < 4 && h < 4
    ensures Xor(64 * a + 16 * b + 4 * c + d, 64 * e + 16 * f + 4 * g + h) ==
      64 * Two(a, e) + 16 * Two(b, f) + 4 * Two(c, g) + Two(d, h)
  {
    hide Two;
    XorDigits([a, b, c, d], [e, f, g, h], 4);
    DigitsAre(a, b, c, d);
    DigitsAre(e, f, g, h);
    DigitsAre(Two(a, e), Two(b, f), Two(c, g), Two(d, h));
    assert TwoAll([a, b, c, d], [e, f, g, h]) == [Two(a, e), Two(b, f), Two(c, g), Two(d, h)];
    hide XorBits;
  }

  lemma XorExamples()
    ensures Xor(0x48, 0x37) == 0x7f && Xor(0x65, 0xfa) == 0x9f && Xor(0x6c, 0x21) == 0x4d
    ensures Xor(0x6c, 0x3d) == 0x51 && Xor(0x6f, 0x37) == 0x58
  {
    hide Xor;
    hide Two;
    XorFour(1, 0, 2, 0, 0, 3, 1, 3);
    XorFour(1, 2, 1, 1, 3, 3, 2, 2);
    XorFour(1, 2, 3, 0, 0, 2, 0, 1);
    XorFour(1, 2, 3, 0, 0, 3, 3, 1);
    XorFour(1, 2, 3, 3, 0, 3, 1, 3);
    forall a: nat, b: nat | a < 4 && b < 4
      ensures Two(a, b) == if a == b then 0 else if a == 0 then b else if b == 0 then a else 6 - a - b
    {
      TwoIs(a, b);
    }
  }

  lemma {:induction false} LongHeaders(p: bytes)
    requires |p| < MAXINT
    ensures |p| == 256 ==> FrameBytes(Frame(true, 2, p), None) == [0x82, 0x7E, 0x01, 0x00] + p
    ensures |p| == 65536 ==> FrameBytes(Frame(true, 2, p), None) == [0x82, 0x7F, 0, 0, 0, 0, 0, 0x01, 0, 0] + p
    ensures MAX_FRAME_SIZE == 256 * 1024
  {
    hide Big;
    BigExamples();
  }

  lemma BigExamples()
    ensures Big(256, 2) == [1, 0] && Big(65536, 8) == [0, 0, 0, 0, 0, 1, 0, 0]
  {
    assert Big(1, 1) == [1];
    assert Big(0, 2) == [0, 0];
    assert Big(0, 4) == [0, 0, 0, 0];
    assert Big(0, 5) == [0, 0, 0, 0, 0];
    assert Big(1, 6) == [0, 0, 0, 0, 0, 1];
    assert Big(256, 7) == [0, 0, 0, 0, 0, 1, 0];
  }

  // A length of 2^63 or more is negative for Lua: it passes the server's limit, no payload is read, and what
  // follows is taken for the next frame.
  lemma {:induction false} HugeLength(fin: bool, op: nat, n: nat, key: Option<bytes>, rest: bytes, server: bool)
    requires OpCode(op) && MAXINT <= n < 2 * MAXINT && KeyOk(key)
    ensures var b0 := (if fin then 128 else 0) + op; var b1 := (if key.Some? then 128 else 0) + 127;
      && b0 < 256
      && ReadFrame([b0, b1] + Big(n, 8) + ((if key.Some? then key.value else []) + rest), server) ==
           Got(Frame(fin, op, []), rest)
  {
    hide ReadFrame;
    hide Big;
    hide FromBig;
    hide Pow256;
    Flags(fin, op, key.Some?, 127);
    Pow256At();
    FromBigBig(n, 8);
    var body := (if key.Some? then key.value else []) + rest;
    ReadLong((if fin then 128 else 0) + op, (if key.Some? then 128 else 0) + 127, Big(n, 8), body, server);
    assert key.Some? ==> body[..4] == key.value && body[4..] == rest && Masked([], key.value) == [];
    assert [] + rest == rest && rest[..0] == [] && rest[0..] == rest;
  }

  // ----- The server's loop -----

  // What the server does for its handler and its peer.
  datatype Action =
    | Message(payload: bytes, op: nat)
    | Write(bytes: bytes)
    | PingSeen
    | PongSeen
    | CloseSeen(payload: bytes)

  datatype End = Closed | Broken | Oversize | Unknown

  datatype Served = Served(actions: seq<Action>, end: End)

  // Frames of a message whose last frame has not come: the first opcode and the bytes so far.
  datatype Partial = Partial(op: nat, data: bytes)

  const PONG: nat := 10

  // One frame: the loop ends, or goes on with the partial message `next`.
  datatype Turn = Stop(actions: seq<Action>, end: End) | Go(actions: seq<Action>, next: Option<Partial>)

  function ServerTurn(f: Frame, p: Option<Partial>): Turn
    requires FrameOk(f)
  {
    if f.op == 8 then Stop([Write(FrameBytes(Frame(true, 8, []), None)), CloseSeen(f.payload)], Closed)
    else if f.op == 9 then Go([Write(FrameBytes(Frame(true, PONG, f.payload), None)), PingSeen], p)
    else if f.op == 10 then Go([PongSeen], p)
    else if f.fin && p.None? then Go([Message(f.payload, f.op)], None)
    else
      var q := Joined(f, p);
      if |q.data| > MAX_FRAME_SIZE then Stop([], Oversize)
      else if f.fin then Go([Message(q.data, q.op)], None)
      else Go([], Some(q))
  }

  // What resolve_accept makes of the bytes `s`.
  function Serve(s: bytes, p: Option<Partial>): Served
    decreases |s|
  {
    match ReadFrame(s, true)
    case TooLarge => Served([], Oversize)
    case BadOp => Served([], Unknown)
    case Ended => Served([], Broken)
    case Got(f, rest) =>
      ReadShorter(s, true);
      match ServerTurn(f, p)
      case Stop(actions, end) => Served(actions, end)
      case Go(actions, next) => Before(actions, Serve(rest, next))
  }

  function Joined(f: Frame, p: Option<Partial>): Partial {
    if p.None? then Partial(f.op, f.payload) else Partial(p.value.op, p.value.data + f.payload)
  }

  function Before(actions: seq<Action>, s: Served): Served {
    Served(actions + s.actions, s.end)
  }

  lemma {:induction false} ReadShorter(s: bytes, server: bool)
    ensures ReadFrame(s, server).Got? ==>
      |ReadFrame(s, server).rest| < |s| && OpCode(ReadFrame(s, server).frame.op)
      && (server ==> |ReadFrame(s, server).frame.payload| <= MAX_FRAME_SIZE)
  {
  }

  function Concat(parts: seq<bytes>): bytes {
    if parts == [] then [] else Concat(parts[..|parts| - 1]) + parts[|parts| - 1]
  }

  // The loop of resolve_accept, with its three variables. The end of the stream is the end of `s`.
  method ServeLoop(s: bytes) returns (actions: seq<Action>, end: End)
    ensures Served(actions, end) == Serve(s, None)
  {
    hide ReadFrame;
    hide Serve;
    var recvBuf: seq<bytes>, recvCount: nat, firstOp: Option<nat> := [], 0, None;
    var rest := s;
    actions := [];
    BeforeNone(Serve(s, None));
    while true
      invariant recvCount == |Concat(recvBuf)| && (recvBuf == [] <==> firstOp.None?)
      invariant Serve(s, None) == Before(actions, Serve(rest, Gathered(recvBuf, firstOp)))
      decreases |rest|
    {
      ghost var p := Gathered(recvBuf, firstOp);
      ServeStep(rest, p);
      ReadShorter(rest, true);
      match ReadFrame(rest, true) {
        case TooLarge => end := Oversize; break;
        case BadOp => end := Unknown; break;
        case Ended => end := Broken; break;
        case Got(f, after) =>
          if f.op == 8 {
            actions := actions + [Write(FrameBytes(Frame(true, 8, []), None)), CloseSeen(f.payload)];
            end := Closed;
            break;
          } else if f.op == 9 {
            var news := [Write(FrameBytes(Frame(true, PONG, f.payload), None)), PingSeen];
            BeforeTwice(actions, news, Serve(after, p));
            actions := actions + news;
          } else if f.op == 10 {
            BeforeTwice(actions, [PongSeen], Serve(after, p));
            actions := actions + [PongSeen];
          } else if f.fin && recvBuf == [] {
            BeforeTwice(actions, [Message(f.payload, f.op)], Serve(after, None));
            actions := actions + [Message(f.payload, f.op)];
          } else {
            assert (recvBuf + [f.payload])[..|recvBuf|] == recvBuf && [] + f.payload == f.payload;
            recvBuf := recvBuf + [f.payload];
            recvCount := recvCount + |f.payload|;
            if recvCount > MAX_FRAME_SIZE {
              end := Oversize;
              break;
            }
            firstOp := if firstOp.None? then Some(f.op) else firstOp;
            if f.fin {
              BeforeTwice(actions, [Message(Concat(recvBuf), firstOp.value)], Serve(after, None));
              actions := actions + [Message(Concat(recvBuf), firstOp.value)];
              recvBuf, recvCount, firstOp := [], 0, None;
            } else {
              BeforeNone(Serve(after, Gathered(recvBuf, firstOp)));
            }
          }
          rest := after;
      }
    }
  }

  // The partial message that recv_buf and first_op hold.
  function Gathered(recvBuf: seq<bytes>, firstOp: Option<nat>): Option<Partial> {
    if firstOp.None? then None else Some(Partial(firstOp.value, Concat(recvBuf)))
  }

  lemma ServeStep(s: bytes, p: Option<Partial>)
    ensures var r := ReadFrame(s, true);
      && (r.TooLarge? ==> Serve(s, p) == Served([], Oversize))
      && (r.BadOp? ==> Serve(s, p) == Served([], Unknown))
      && (r.Ended? ==> Serve(s, p) == Served([], Broken))
      && (r.Got? ==> FrameOk(r.frame) && |r.rest| < |s|)
      && (r.Got? && ServerTurn(r.frame, p).Stop? ==>
           Serve(s, p) == Served(ServerTurn(r.frame, p).actions, ServerTurn(r.frame, p).end))
      && (r.Got? && ServerTurn(r.frame, p).Go? ==>
           Serve(s, p) == Before(ServerTurn(r.frame, p).actions, Serve(r.rest, ServerTurn(r.frame, p).next)))
  {
    ReadShorter(s, true);
    hide ReadFrame;
    hide ServerTurn;
  }

  lemma BeforeNone(s: Served)
    ensures Before([], s) == s
  {
  }

  lemma BeforeTwice(a: seq<Action>, b: seq<Action>, s: Served)
    ensures Before(a, Before(b, s)) == Before(a + b, s)
  {
    assert a + (b + s.actions) == (a + b) + s.actions;
  }

  // A close frame, whatever came before it: the server answers with an empty one and is done.
  lemma {:induction false} CloseServed(payload: bytes, key: Option<bytes>, p: Option<Partial>, rest: bytes)
    requires |payload| <= MAX_FRAME_SIZE && KeyOk(key)
    ensures Serve(FrameBytes(Frame(true, 8, payload), key) + rest, p) ==
      Served([Write([0x88, 0x00]), CloseSeen(payload)], Closed)
  {
    hide ReadFrame;
    hide FrameBytes;
    ReadFrameBack(Frame(true, 8, payload), key, true, rest);
    FrameExamples();
  }

  // A ping is answered by a pong with its payload, a pong by nothing; neither touches a message in parts.
  lemma {:induction false} PingServed(payload: bytes, key: Option<bytes>, p: Option<Partial>, rest: bytes)
    requires |payload| <= MAX_FRAME_SIZE && KeyOk(key)
    ensures Serve(FrameBytes(Frame(true, 9, payload), key) + rest, p) ==
      Before([Write(FrameBytes(Frame(true, 10, payload), None)), PingSeen], Serve(rest, p))
    ensures Serve(FrameBytes(Frame(true, 10, payload), key) + rest, p) == Before([PongSeen], Serve(rest, p))
  {
    hide ReadFrame;
    hide FrameBytes;
    ReadFrameBack(Frame(true, 9, payload), key, true, rest);
    ReadFrameBack(Frame(true, 10, payload), key, true, rest);
  }

  // ----- Messages in frames -----

  // The frames of a message, with control frames between them. Each has a key, or none.
  datatype Piece =
    | Part(data: bytes, key: Option<bytes>)
    | Ping(data: bytes, key: Option<bytes>)
    | Pong(data: bytes, key: Option<bytes>)

  predicate PieceOk(x: Piece) { KeyOk(x.key) && |x.data| < MAXINT }

  // No frame is too long for a server.
  predicate Small(pieces: seq<Piece>) {
    forall i | 0 <= i < |pieces| :: |pieces[i].data| <= MAX_FRAME_SIZE
  }

  // The frames of what is left of a message with opcode `op`; a message ends with its last part.
  ghost predicate PiecesOk(pieces: seq<Piece>) {
    pieces != [] && pieces[|pieces| - 1].Part? && forall i | 0 <= i < |pieces| :: PieceOk(pieces[i])
  }

  // Frames of a message whose first part has not been sent (`first`) or has.
  function PieceBytes(op: nat, pieces: seq<Piece>, first: bool): bytes
    requires (op == 1 || op == 2) && forall i | 0 <= i < |pieces| :: PieceOk(pieces[i])
  {
    if pieces == [] then []
    else
      var x := pieces[0];
      assert PieceOk(x);
      FrameBytes(FrameOf(op, x, first, |pieces| == 1), x.key) + PieceBytes(op, pieces[1..], first && !x.Part?)
  }

  function FrameOf(op: nat, x: Piece, first: bool, last: bool): Frame {
    match x
    case Part(data, _) => Frame(last, if first then op else 0, data)
    case Ping(data, _) => Frame(true, 9, data)
    case Pong(data, _) => Frame(true, 10, data)
  }

  function Payload(pieces: seq<Piece>): bytes {
    if pieces == [] then [] else (if pieces[0].Part? then pieces[0].data else []) + Payload(pieces[1..])
  }

  // The answers to the control frames.
  function Controls(pieces: seq<Piece>): seq<Action>
    requires forall i | 0 <= i < |pieces| :: PieceOk(pieces[i])
  {
    if pieces == [] then []
    else
      assert PieceOk(pieces[0]);
      ControlsOf(pieces[0]) + Controls(pieces[1..])
  }

  // Before a piece with opcode 0, 1 or 2 the loop's state is what the parts so far make.
  ghost predicate Awaits(op: nat, p: Option<Partial>) {
    (op == 1 || op == 2) && (p.Some? ==> p.value.op == op)
  }

  function SoFar(p: Option<Partial>): bytes { if p.None? then [] else p.value.data }

  lemma {:induction false} ServeFrame(f: Frame, key: Option<bytes>, p: Option<Partial>, rest: bytes)
    requires FrameOk(f) && KeyOk(key) && |f.payload| <= MAX_FRAME_SIZE
    ensures ServerTurn(f, p).Stop? ==>
      Serve(FrameBytes(f, key) + rest, p) == Served(ServerTurn(f, p).actions, ServerTurn(f, p).end)
    ensures ServerTurn(f, p).Go? ==>
      Serve(FrameBytes(f, key) + rest, p) == Before(ServerTurn(f, p).actions, Serve(rest, ServerTurn(f, p).next))
  {
    ReadFrameBack(f, key, true, rest);
    ServeStep(FrameBytes(f, key) + rest, p);
  }

  lemma PiecesParts(op: nat, pieces: seq<Piece>, first: bool, rest: bytes)
    requires (op == 1 || op == 2) && PiecesOk(pieces)
    ensures PieceOk(pieces[0]) && FrameOk(FrameOf(op, pieces[0], first, |pieces| == 1))
    ensures |pieces| > 1 ==> PiecesOk(pieces[1..])
    ensures |pieces| == 1 ==> pieces[0].Part? && pieces[1..] == []
    ensures PieceBytes(op, pieces, first) + rest ==
      FrameBytes(FrameOf(op, pieces[0], first, |pieces| == 1),
          pieces[0].key) + (PieceBytes(op, pieces[1..], first && !pieces[0].Part?) + rest)
    ensures Payload(pieces) == (if pieces[0].Part? then pieces[0].data else []) + Payload(pieces[1..])
    ensures Controls(pieces) == ControlsOf(pieces[0]) + Controls(pieces[1..])
  {
    hide FrameBytes;
    if |pieces| > 1 {
      assert pieces[1..][|pieces| - 2] == pieces[|pieces| - 1];
    }
  }

  function ControlsOf(x: Piece): seq<Action>
    requires PieceOk(x)
  {
    match x
    case Part(_, _) => []
    case Ping(data, _) => [Write(FrameBytes(Frame(true, PONG, data), None)), PingSeen]
    case Pong(_, _) => [PongSeen]
  }

  // What the loop does for what is left of a message.
  ghost function Delivered(op: nat, pieces: seq<Piece>, p: Option<Partial>): seq<Action>
    requires forall i | 0 <= i < |pieces| :: PieceOk(pieces[i])
  {
    Controls(pieces) + [Message(SoFar(p) + Payload(pieces), op)]
  }

  lemma {:induction false} DeliveredStep(op: nat, pieces: seq<Piece>, p: Option<Partial>)
    requires Awaits(op, p) && PiecesOk(pieces) && PieceOk(pieces[0])
      && FrameOk(FrameOf(op, pieces[0], p.None?, |pieces| == 1))
    requires |SoFar(p)| + |Payload(pieces)| <= MAX_FRAME_SIZE
    ensures var t := ServerTurn(FrameOf(op, pieces[0], p.None?, |pieces| == 1), p);
      && t.Go?
      && (|pieces| == 1 ==> t.next.None? && t.actions == Delivered(op, pieces, p))
      && (|pieces| > 1 ==>
            && Awaits(op, t.next) && (t.next.None? <==> p.None? && !pieces[0].Part?)
            && PiecesOk(pieces[1..]) && |SoFar(t.next)| + |Payload(pieces[1..])| <= MAX_FRAME_SIZE
            && t.actions + Delivered(op, pieces[1..], t.next) == Delivered(op, pieces, p))
  {
    hide FrameBytes;
    hide PieceBytes;
    hide ServerTurn;
    hide Payload;
    hide Controls;
    hide ControlsOf;
    hide SoFar;
    PiecesParts(op, pieces, p.None?, []);
    TurnOf(op, pieces[0], p, |pieces| == 1);
    var x, tail := pieces[0], Payload(pieces[1..]);
    if |pieces| > 1 {
      assert SoFar(p) + ((if x.Part? then x.data else []) + tail) ==
          (SoFar(p) + (if x.Part? then x.data else [])) + tail;
      assert ControlsOf(x) + (Controls(pieces[1..]) + [Message(SoFar(p) + Payload(pieces), op)]) ==
          Delivered(op, pieces, p);
    } else {
      NonePieces();
      PartControls(x);
      assert x.data + [] == x.data;
      assert Controls(pieces) == [] + [] == [];
    }
  }

  // What one frame of a message does.
  lemma {:induction false} TurnOf(op: nat, x: Piece, p: Option<Partial>, last: bool)
    requires Awaits(op, p) && PieceOk(x) && FrameOk(FrameOf(op, x, p.None?, last)) && (last ==> x.Part?)
    requires x.Part? ==> |SoFar(p)| + |x.data| <= MAX_FRAME_SIZE
    ensures var t := ServerTurn(FrameOf(op, x, p.None?, last), p);
      && t.Go?
      && (!last ==> t.actions == ControlsOf(x) && SoFar(t.next) == SoFar(p) + (if x.Part? then x.data else []))
      && (!last ==> Awaits(op, t.next) && (t.next.None? <==> p.None? && !x.Part?))
      && (last ==> t.next.None? && t.actions == [Message(SoFar(p) + x.data, op)])
  {
    hide FrameBytes;
    assert [] + x.data == x.data;
  }

  lemma PartControls(x: Piece)
    requires PieceOk(x) && x.Part?
    ensures ControlsOf(x) == []
  {
  }

  lemma NonePieces()
    ensures Payload([]) == [] && Controls([]) == []
  {
  }

  // A message of any number of frames, with control frames anywhere between them, is delivered once,
  // whole, with its first opcode; each ping is answered.
  lemma {:induction false} MessageServed(op: nat, pieces: seq<Piece>, p: Option<Partial>, rest: bytes)
    requires Awaits(op, p) && PiecesOk(pieces) && Small(pieces) && |SoFar(p)| + |Payload(pieces)| <= MAX_FRAME_SIZE
    ensures Serve(PieceBytes(op, pieces, p.None?) + rest, p) == Before(Delivered(op, pieces, p), Serve(rest, None))
    decreases |pieces|
  {
    hide Serve;
    hide FrameBytes;
    hide PieceBytes;
    hide ServerTurn;
    hide Delivered;
    hide Payload;
    hide SoFar;
    hide Before;
    var x := pieces[0];
    var f := FrameOf(op, x, p.None?, |pieces| == 1);
    var more := PieceBytes(op, pieces[1..], p.None? && !x.Part?);
    PiecesParts(op, pieces, p.None?, rest);
    ServeFrame(f, x.key, p, more + rest);
    DeliveredStep(op, pieces, p);
    if |pieces| > 1 {
      var t := ServerTurn(f, p);
      MessageServed(op, pieces[1..], t.next, rest);
      BeforeTwice(t.actions, Delivered(op, pieces[1..], t.next), Serve(rest, None));
    } else {
      PieceBytesNone(op, p.None? && !x.Part?);
      assert more + rest == rest;
    }
  }

  lemma PieceBytesNone(op: nat, first: bool)
    requires op == 1 || op == 2
    ensures PieceBytes(op, [], first) == []
  {
  }

  // A message that is too long is never delivered: the loop ends with an error.
  lemma {:induction false} MessageRefused(op: nat, pieces: seq<Piece>, p: Option<Partial>, rest: bytes)
    requires Awaits(op, p) && PiecesOk(pieces) && |SoFar(p)| + |Payload(pieces)| > MAX_FRAME_SIZE
    requires |SoFar(p)| <= MAX_FRAME_SIZE
    ensures var r := Serve(PieceBytes(op, pieces, p.None?) + rest, p);
      r.end == Oversize && forall a | a in r.actions :: !a.Message?
    decreases |pieces|
  {
    hide FrameBytes;
    hide PieceBytes;
    hide Serve;
    var x := pieces[0];
    var f := FrameOf(op, x, p.None?, |pieces| == 1);
    var more := PieceBytes(op, pieces[1..], p.None? && !x.Part?);
    PiecesParts(op, pieces, p.None?, rest);
    if |x.data| > MAX_FRAME_SIZE {
      ReadFrameBack(f, x.key, true, more + rest);
      ServeStep(FrameBytes(f, x.key) + (more + rest), p);
      return;
    }
    ServeFrame(f, x.key, p, more + rest);
    var t := ServerTurn(f, p);
    if |pieces| == 1 {
      assert Payload(pieces[1..]) == [];
    } else if t.Go? {
      MessageRefused(op, pieces[1..], t.next, rest);
    }
  }

  // ----- A conversation -----

  datatype Sent = Sent(op: nat, pieces: seq<Piece>)

  ghost predicate SentOk(m: Sent) {
    (m.op == 1 || m.op == 2) && PiecesOk(m.pieces)
  }

  // A server takes it.
  ghost predicate Taken(m: Sent) {
    Small(m.pieces) && |Payload(m.pieces)| <= MAX_FRAME_SIZE
  }

  ghost function AllBytes(ms: seq<Sent>): bytes
    requires forall i | 0 <= i < |ms| :: SentOk(ms[i])
  {
    if ms == [] then []
    else
      assert SentOk(ms[0]);
      PieceBytes(ms[0].op, ms[0].pieces, true) + AllBytes(ms[1..])
  }

  ghost function AllActions(ms: seq<Sent>): seq<Action>
    requires forall i | 0 <= i < |ms| :: SentOk(ms[i])
  {
    if ms == [] then []
    else
      assert SentOk(ms[0]);
      Delivered(ms[0].op, ms[0].pieces, None) + AllActions(ms[1..])
  }

  function Messages(actions: seq<Action>): seq<Action> {
    if actions == [] then [] else (if actions[0].Message? then [actions[0]] else []) + Messages(actions[1..])
  }

  lemma MessagesFirst(x: Action, rest: seq<Action>)
    ensures Messages([x] + rest) == (if x.Message? then [x] else []) + Messages(rest)
  {
  }

  lemma {:induction false} MessagesAppend(a: seq<Action>, b: seq<Action>)
    ensures Messages(a + b) == Messages(a) + Messages(b)
  {
    hide Messages;
    if a == [] {
      assert a + b == b;
      NoMessages();
    } else {
      assert a + b == [a[0]] + (a[1..] + b) && a == [a[0]] + a[1..];
      MessagesAppend(a[1..], b);
      MessagesFirst(a[0], a[1..]);
      MessagesFirst(a[0], a[1..] + b);
    }
  }

  lemma {:induction false} ControlsNoMessages(pieces: seq<Piece>)
    requires forall i | 0 <= i < |pieces| :: PieceOk(pieces[i])
    ensures Messages(Controls(pieces)) == []
  {
    if pieces != [] {
      assert PieceOk(pieces[0]);
      ControlsNoMessages(pieces[1..]);
      MessagesAppend(ControlsOf(pieces[0]), Controls(pieces[1..]));
      ControlNoMessage(pieces[0]);
    }
  }

  lemma ControlNoMessage(x: Piece)
    requires PieceOk(x)
    ensures Messages(ControlsOf(x)) == []
  {
    hide FrameBytes;
    if x.Ping? {
      assert ControlsOf(x)[1..] == [PingSeen] && [PingSeen][1..] == [];
    }
  }

  lemma AllParts(ms: seq<Sent>, rest: bytes)
    requires ms != [] && forall i | 0 <= i < |ms| :: SentOk(ms[i])
    ensures SentOk(ms[0]) && Awaits(ms[0].op, None) && |SoFar(None)| == 0
    ensures AllBytes(ms) + rest == PieceBytes(ms[0].op, ms[0].pieces, true) + (AllBytes(ms[1..]) + rest)
    ensures AllActions(ms) == Delivered(ms[0].op, ms[0].pieces, None) + AllActions(ms[1..])
  {
    hide PieceBytes;
    hide Delivered;
    assert SentOk(ms[0]);
  }

  // A run of messages is served one after the other.
  lemma {:induction false} ConversationServed(ms: seq<Sent>, rest: bytes)
    requires forall i | 0 <= i < |ms| :: SentOk(ms[i]) && Taken(ms[i])
    ensures Serve(AllBytes(ms) + rest, None) == Before(AllActions(ms), Serve(rest, None))
  {
    hide Serve;
    hide PieceBytes;
    hide Delivered;
    if ms == [] {
      assert AllBytes(ms) + rest == rest;
      BeforeNone(Serve(rest, None));
    } else {
      AllParts(ms, rest);
      hide AllBytes;
      hide AllActions;
      hide Before;
      assert Taken(ms[0]);
      MessageServed(ms[0].op, ms[0].pieces, None, AllBytes(ms[1..]) + rest);
      ConversationServed(ms[1..], rest);
      BeforeTwice(Delivered(ms[0].op, ms[0].pieces, None), AllActions(ms[1..]), Serve(rest, None));
    }
  }

  lemma {:induction false} DeliveredMessages(op: nat, pieces: seq<Piece>)
    requires forall i | 0 <= i < |pieces| :: PieceOk(pieces[i])
    ensures Messages(Delivered(op, pieces, None)) == [Message(Payload(pieces), op)]
  {
    ControlsNoMessages(pieces);
    var last := Message([] + Payload(pieces), op);
    MessagesAppend(Controls(pieces), [last]);
    assert [] + Payload(pieces) == Payload(pieces) && [last][1..] == [];
  }

  // Exactly the messages that were sent are delivered, in order.
  lemma {:induction false} ConversationMessages(ms: seq<Sent>)
    requires forall i | 0 <= i < |ms| :: SentOk(ms[i])
    ensures Messages(AllActions(ms)) == seq(|ms|, i requires 0 <= i < |ms| => Message(Payload(ms[i].pieces), ms[i].op))
  {
    hide Delivered;
    hide Messages;
    hide SentOk;
    hide Payload;
    hide PieceOk;
    if ms == [] {
      NoMessages();
    } else {
      AllParts(ms, []);
      hide AllActions;
      SentParts(ms[0]);
      ConversationMessages(ms[1..]);
      MessagesAppend(Delivered(ms[0].op, ms[0].pieces, None), AllActions(ms[1..]));
      DeliveredMessages(ms[0].op, ms[0].pieces);
      SentActions(Message(Payload(ms[0].pieces), ms[0].op), Messages(AllActions(ms[1..])), ms);
    }
  }

  lemma SentParts(m: Sent)
    requires SentOk(m)
    ensures forall i | 0 <= i < |m.pieces| :: PieceOk(m.pieces[i])
  {
  }

  lemma SentActions(x: Action, rest: seq<Action>, ms: seq<Sent>)
    requires ms != [] && x == Message(Payload(ms[0].pieces), ms[0].op)
    requires rest == seq(|ms| - 1, i requires 0 <= i < |ms| - 1 => Message(Payload(ms[1..][i].pieces), ms[1..][i].op))
    ensures [x] + rest == seq(|ms|, i requires 0 <= i < |ms| => Message(Payload(ms[i].pieces), ms[i].op))
  {
    hide Payload;
  }

  lemma NoMessages()
    ensures Messages([]) == []
  {
  }

  // ----- The client's read -----

  datatype Answer =
    | Whole(payload: bytes, rest: bytes, pongs: seq<bytes>)    // a message, and the pongs written before
    | ClosedBy(payload: bytes)
    | Failed

  // What M.read makes of the bytes `s`, with the parts of a message in `buf`.
  function Receive(s: bytes, buf: Option<bytes>, pongs: seq<bytes>): Answer
    decreases |s|
  {
    match ReadFrame(s, false)
    case Got(f, rest) =>
      ReadShorter(s, false);
      if f.op == 8 then ClosedBy(f.payload)
      else if f.op == 9 then Receive(rest, buf, pongs + [f.payload])
      else if f.op == 10 then Receive(rest, buf, pongs)
      else
        var data := (if buf.Some? then buf.value else []) + f.payload;
        if f.fin then Whole(data, rest, pongs) else Receive(rest, Some(data), pongs)
    case _ => Failed
  }

  lemma {:induction false} PingRead(payload: bytes, key: Option<bytes>, buf: Option<bytes>, pongs: seq<bytes>,
      rest: bytes)
    requires |payload| < MAXINT && KeyOk(key)
    ensures Receive(FrameBytes(Frame(true, 9, payload), key) + rest, buf, pongs) ==
      Receive(rest, buf, pongs + [payload])
    ensures Receive(FrameBytes(Frame(true, 10, payload), key) + rest, buf, pongs) == Receive(rest, buf, pongs)
  {
    hide ReadFrame;
    hide FrameBytes;
    ReadFrameBack(Frame(true, 9, payload), key, false, rest);
    ReadFrameBack(Frame(true, 10, payload), key, false, rest);
  }

  // A close frame, whatever came before it, ends the read with its payload.
  lemma {:induction false} CloseRead(payload: bytes, key: Option<bytes>, buf: Option<bytes>, pongs: seq<bytes>,
      rest: bytes)
    requires |payload| < MAXINT && KeyOk(key)
    ensures Receive(FrameBytes(Frame(true, 8, payload), key) + rest, buf, pongs) == ClosedBy(payload)
  {
    hide ReadFrame;
    hide FrameBytes;
    ReadFrameBack(Frame(true, 8, payload), key, false, rest);
  }

  // M.read
  method ClientRead(s: bytes) returns (r: Answer)
    ensures r == Receive(s, None, [])
  {
    hide ReadFrame;
    var recvBuf: Option<seq<bytes>>, pongs: seq<bytes>, rest := None, [], s;
    while true
      invariant Receive(s, None, []) == Receive(rest, if recvBuf.Some? then Some(Concat(recvBuf.value)) else None,
        pongs)
      decreases |rest|
    {
      ReadShorter(rest, false);
      match ReadFrame(rest, false) {
        case Got(f, after) =>
          if f.op == 8 {
            return ClosedBy(f.payload);
          } else if f.op == 9 {
            pongs := pongs + [f.payload];
          } else if f.op != 10 {
            assert [] + f.payload == f.payload;
            if f.fin && recvBuf.None? {
              return Whole(f.payload, after, pongs);
            }
            var buf := if recvBuf.None? then [] else recvBuf.value;
            assert (buf + [f.payload])[..|buf|] == buf;
            recvBuf := Some(buf + [f.payload]);
            if f.fin {
              return Whole(Concat(recvBuf.value), after, pongs);
            }
          }
          rest := after;
        case _ => return Failed;
      }
    }
  }

  function Pings(pieces: seq<Piece>): seq<bytes> {
    if pieces == [] then [] else (if pieces[0].Ping? then [pieces[0].data] else []) + Pings(pieces[1..])
  }

  function Held(buf: Option<bytes>): bytes { if buf.Some? then buf.value else [] }

  lemma {:induction false} ReceiveFrame(f: Frame, key: Option<bytes>, buf: Option<bytes>, pongs: seq<bytes>,
      rest: bytes)
    requires FrameOk(f) && KeyOk(key)
    ensures var r := Receive(FrameBytes(f, key) + rest, buf, pongs);
      && (f.op == 9 ==> r == Receive(rest, buf, pongs + [f.payload]))
      && (f.op == 10 ==> r == Receive(rest, buf, pongs))
      && (f.op <= 2 && f.fin ==> r == Whole(Held(buf) + f.payload, rest, pongs))
      && (f.op <= 2 && !f.fin ==> r == Receive(rest, Some(Held(buf) + f.payload), pongs))
  {
    ReadFrameBack(f, key, false, rest);
    hide ReadFrame;
    hide FrameBytes;
  }

  // What a read returns for what is left of a message.
  function WholeOf(buf: Option<bytes>, pieces: seq<Piece>, rest: bytes, pongs: seq<bytes>): Answer {
    Whole(Held(buf) + Payload(pieces), rest, pongs + Pings(pieces))
  }

  lemma {:induction false} WholeStep(buf: Option<bytes>, pieces: seq<Piece>, rest: bytes, pongs: seq<bytes>)
    requires pieces != []
    ensures var x, tail := pieces[0], pieces[1..];
      && (x.Part? ==> WholeOf(Some(Held(buf) + x.data), tail, rest, pongs) == WholeOf(buf, pieces, rest, pongs))
      && (x.Part? && tail == [] ==> Whole(Held(buf) + x.data, rest, pongs) == WholeOf(buf, pieces, rest, pongs))
      && (x.Ping? ==> WholeOf(buf, tail, rest, pongs + [x.data]) == WholeOf(buf, pieces, rest, pongs))
      && (x.Pong? ==> WholeOf(buf, tail, rest, pongs) == WholeOf(buf, pieces, rest, pongs))
  {
    var x, data, pings := pieces[0], Payload(pieces[1..]), Pings(pieces[1..]);
    assert Held(buf) + (x.data + data) == (Held(buf) + x.data) + data;
    assert (pongs + [x.data]) + pings == pongs + ([x.data] + pings);
    assert [] + data == data && [] + pings == pings && x.data + [] == x.data && pongs + [] == pongs;
  }

  // One read takes one message off the stream, of any length, and answers the pings in it.
  lemma {:induction false} MessageRead(op: nat, pieces: seq<Piece>, buf: Option<bytes>, pongs: seq<bytes>, rest: bytes)
    requires (op == 1 || op == 2) && PiecesOk(pieces)
    ensures Receive(PieceBytes(op, pieces, buf.None?) + rest, buf, pongs) == WholeOf(buf, pieces, rest, pongs)
    decreases |pieces|
  {
    hide FrameBytes;
    hide PieceBytes;
    hide Receive;
    hide WholeOf;
    var x := pieces[0];
    var f := FrameOf(op, x, buf.None?, |pieces| == 1);
    var more := PieceBytes(op, pieces[1..], buf.None? && !x.Part?);
    PiecesParts(op, pieces, buf.None?, rest);
    ReceiveFrame(f, x.key, buf, pongs, more + rest);
    WholeStep(buf, pieces, rest, pongs);
    if |pieces| == 1 {
      PieceBytesNone(op, false);
      assert more + rest == rest;
    } else {
      MessageRead(op, pieces[1..], if x.Part? then Some(Held(buf) + x.data) else buf,
          if x.Ping? then pongs + [x.data] else pongs, rest);
    }
  }

  // Reading again and again gives the payloads of the messages, in order.
  function ReadAll(s: bytes, n: nat): seq<bytes>
    decreases n
  {
    if n == 0 then []
    else match Receive(s, None, [])
      case Whole(payload, rest, _) => [payload] + ReadAll(rest, n - 1)
      case _ => []
  }

  lemma {:induction false} ConversationRead(ms: seq<Sent>, rest: bytes)
    requires forall i | 0 <= i < |ms| :: SentOk(ms[i])
    ensures ReadAll(AllBytes(ms) + rest, |ms|) == seq(|ms|, i requires 0 <= i < |ms| => Payload(ms[i].pieces))
  {
    hide Receive;
    hide PieceBytes;
    hide Payload;
    hide Pings;
    if ms != [] {
      AllParts(ms, rest);
      hide AllBytes;
      MessageRead(ms[0].op, ms[0].pieces, None, [], AllBytes(ms[1..]) + rest);
      ConversationRead(ms[1..], rest);
      assert [] + Payload(ms[0].pieces) == Payload(ms[0].pieces);
    }
  }

  // ----- Closing -----

  // read_close
  function ReadClose(payload: bytes): Option<(nat, bytes)> {
    if |payload| > 2 then Some((FromBig(payload[..2]), payload[2..])) else None
  }

  // The payload that M.close sends.
  function CloseBytes(code: nat, reason: bytes): bytes { Big(code, 2) + reason }

  // The code reaches the other side exactly when there is a reason.
  lemma {:induction false} CloseArrives(code: nat, reason: bytes)
    requires code < 65536
    ensures ReadClose(CloseBytes(code, reason)) == Some((code, reason)) <==> reason != []
  {
    Pow256At();
    FromBigBig(code, 2);
    var b := CloseBytes(code, reason);
    assert b[..2] == Big(code, 2) && b[2..] == reason;
  }
}
