/**
 The gate's receive buffers: each connection's bytes are a chain of messages, and the messages of all
 connections come from one pool and go back to its free list.
 */
module DataBuffer {
  import opened Words
  import opened Chains
  import opened Packets

  const MESSAGEPOOL: nat := 1023

  datatype Message = Message(buffer: bytes, size: nat, next: Option<nat>)

  datatype Buffer = Buffer(header: int, offset: nat, size: nat, head: Option<nat>, tail: Option<nat>)

  const EMPTY: Buffer := Buffer(0, 0, 0, None, None)

  // Who holds each message: a connection (its number), the free list, or the function at work.
  const FREE: int := -1
  const HELD: int := -2

  // ----- Chains of messages -----

  ghost predicate LinkOk(mem: seq<Message>, nodes: seq<nat>, i: nat)
    requires i < |nodes|
  {
    nodes[i] < |mem| && mem[nodes[i]].next == First(nodes[i + 1..])
  }

  ghost predicate Owned(owner: seq<int>, x: nat, who: int) {
    x < |owner| && owner[x] == who
  }

  // The chain from `head` is `nodes`, and these are all the messages of `who`.
  ghost predicate ChainOk(mem: seq<Message>, owner: seq<int>, who: int, head: Option<nat>, nodes: seq<nat>) {
    && Distinct(nodes)
    && head == First(nodes)
    && (forall i | 0 <= i < |nodes| :: LinkOk(mem, nodes, i))
    && (forall x :: x in nodes <==> Owned(owner, x, who))
  }

  ghost predicate PoolOk(mem: seq<Message>, owner: seq<int>, freelist: Option<nat>, free: seq<nat>) {
    |owner| == |mem| && ChainOk(mem, owner, FREE, freelist, free)
  }

  ghost function Bytes(mem: seq<Message>, nodes: seq<nat>): bytes
  {
    if nodes == [] then []
    else (if nodes[0] < |mem| then mem[nodes[0]].buffer else []) + Bytes(mem, nodes[1..])
  }

  function Last(nodes: seq<nat>): Option<nat> {
    if nodes == [] then None else Some(nodes[|nodes| - 1])
  }

  // The chain of a connection, while bytes are being taken from it.
  ghost predicate PartOk(mem: seq<Message>, owner: seq<int>, c: nat, b: Buffer, nodes: seq<nat>) {
    && ChainOk(mem, owner, c, b.head, nodes)
    && b.tail == Last(nodes)
    && (forall x | x in nodes :: x < |mem| && mem[x].size == |mem[x].buffer|)
  }

  // What has been read of the first message.
  ghost predicate OffsetOk(mem: seq<Message>, b: Buffer, nodes: seq<nat>) {
    if nodes == [] then b.offset == 0 else nodes[0] < |mem| && b.offset <= |mem[nodes[0]].buffer|
  }

  ghost predicate BufferOk(mem: seq<Message>, owner: seq<int>, c: nat, b: Buffer, nodes: seq<nat>) {
    PartOk(mem, owner, c, b, nodes) && OffsetOk(mem, b, nodes) && b.offset + b.size == |Bytes(mem, nodes)|
  }

  ghost function Rest(mem: seq<Message>, b: Buffer, nodes: seq<nat>): bytes {
    if b.offset <= |Bytes(mem, nodes)| then Bytes(mem, nodes)[b.offset..] else []
  }

  // Nothing changes for connections other than `c`.
  ghost predicate Frame(mem: seq<Message>, owner: seq<int>, mem': seq<Message>, owner': seq<int>, c: int) {
    && |mem| <= |mem'| && |owner| == |mem| && |owner'| == |mem'|
    && (forall x | 0 <= x < |mem| && owner[x] >= 0 && owner[x] != c :: mem'[x] == mem[x] && owner'[x] == owner[x])
    && (forall x | 0 <= x < |mem'| && owner'[x] >= 0 && owner'[x] != c :: x < |mem| && owner'[x] == owner[x])
  }

  lemma {:induction false} BytesFrame(mem: seq<Message>, mem': seq<Message>, nodes: seq<nat>)
    requires forall x | x in nodes :: x < |mem| && x < |mem'| && mem'[x].buffer == mem[x].buffer
    ensures Bytes(mem', nodes) == Bytes(mem, nodes)
  {
    if nodes != [] {
      BytesFrame(mem, mem', nodes[1..]);
    }
  }

  lemma {:induction false} BytesAppend(mem: seq<Message>, nodes: seq<nat>, m: nat)
    requires m < |mem|
    ensures Bytes(mem, nodes + [m]) == Bytes(mem, nodes) + mem[m].buffer
  {
    if nodes == [] {
      assert nodes + [m] == [m];
      assert Bytes(mem, [m]) == mem[m].buffer + Bytes(mem, []);
    } else {
      assert (nodes + [m])[1..] == nodes[1..] + [m];
      BytesAppend(mem, nodes[1..], m);
    }
  }

  lemma {:induction false} FrameBuffer(mem: seq<Message>, owner: seq<int>, mem': seq<Message>, owner': seq<int>,
      c: int, d: nat, b: Buffer, nodes: seq<nat>)
    requires Frame(mem, owner, mem', owner', c) && d != c && BufferOk(mem, owner, d, b, nodes)
    ensures BufferOk(mem', owner', d, b, nodes) && Bytes(mem', nodes) == Bytes(mem, nodes)
  {
    assert forall x | x in nodes :: Owned(owner, x, d) && mem'[x] == mem[x];
    BytesFrame(mem, mem', nodes);
    forall i | 0 <= i < |nodes|
      ensures LinkOk(mem', nodes, i)
    {
      assert LinkOk(mem, nodes, i);
    }
    forall x
      ensures x in nodes <==> Owned(owner', x, d)
    {
      assert x in nodes <==> Owned(owner, x, d);
    }
  }

  // The head of the chain goes back to the pool.
  lemma {:induction false} ReturnChain(mem: seq<Message>, owner: seq<int>, c: nat, nodes: seq<nat>,
      freelist: Option<nat>, free: seq<nat>)
    requires PoolOk(mem, owner, freelist, free) && nodes != [] && ChainOk(mem, owner, c, Some(nodes[0]), nodes)
    ensures nodes[0] < |mem| && mem[nodes[0]].next == First(nodes[1..])
    ensures var mem', owner' := mem[nodes[0] := Message([], 0, freelist)], owner[nodes[0] := FREE];
      && PoolOk(mem', owner', Some(nodes[0]), [nodes[0]] + free)
      && ChainOk(mem', owner', c, First(nodes[1..]), nodes[1..])
      && Frame(mem, owner, mem', owner', c)
  {
    var m := nodes[0];
    assert LinkOk(mem, nodes, 0);
    assert Owned(owner, m, c) && m !in free;
    var mem', owner' := mem[m := Message([], 0, freelist)], owner[m := FREE];
    DistinctTail(nodes);
    var free', nodes' := [m] + free, nodes[1..];
    LinksFront(mem, mem', free, m, freelist);
    LinksTail(mem, mem', nodes);
    forall x
      ensures x in nodes' <==> Owned(owner', x, c)
      ensures x in free' <==> Owned(owner', x, FREE)
    {
      assert x in nodes <==> Owned(owner, x, c);
      assert x in free <==> Owned(owner, x, FREE);
    }
  }

  lemma {:induction false} LinksFront(mem: seq<Message>, mem': seq<Message>, nodes: seq<nat>, m: nat, head: Option<nat>)
    requires m < |mem'| == |mem| && mem'[m].next == head == First(nodes) && m !in nodes
    requires forall x | x in nodes && x < |mem| :: mem'[x] == mem[x]
    requires forall i | 0 <= i < |nodes| :: LinkOk(mem, nodes, i)
    ensures forall i | 0 <= i < |[m] + nodes| :: LinkOk(mem', [m] + nodes, i)
  {
    var nodes' := [m] + nodes;
    forall i | 0 <= i < |nodes'|
      ensures LinkOk(mem', nodes', i)
    {
      if i > 0 {
        assert LinkOk(mem, nodes, i - 1) && nodes'[i + 1..] == nodes[i..] && nodes[i - 1] in nodes;
      } else {
        assert nodes'[1..] == nodes;
      }
    }
  }

  lemma {:induction false} LinksTail(mem: seq<Message>, mem': seq<Message>, nodes: seq<nat>)
    requires nodes != [] && |mem'| == |mem|
    requires forall x | x in nodes[1..] && x < |mem| :: mem'[x] == mem[x]
    requires forall i | 0 <= i < |nodes| :: LinkOk(mem, nodes, i)
    ensures forall i | 0 <= i < |nodes[1..]| :: LinkOk(mem', nodes[1..], i)
  {
    var nodes' := nodes[1..];
    forall i | 0 <= i < |nodes'|
      ensures LinkOk(mem', nodes', i)
    {
      assert LinkOk(mem, nodes, i + 1) && nodes'[i + 1..] == nodes[i + 2..];
      assert nodes'[i] in nodes';
    }
  }

  // The head of the free list is taken.
  lemma {:induction false} TakeChain(mem: seq<Message>, owner: seq<int>, freelist: Option<nat>, free: seq<nat>, c: int)
    requires PoolOk(mem, owner, freelist, free) && freelist.Some?
    ensures freelist.value < |mem|
    ensures PoolOk(mem, owner[freelist.value := HELD], mem[freelist.value].next, free[1..])
    ensures Frame(mem, owner, mem, owner[freelist.value := HELD], c)
  {
    var m := freelist.value;
    assert LinkOk(mem, free, 0) && Owned(owner, m, FREE);
    var owner', free' := owner[m := HELD], free[1..];
    DistinctTail(free);
    LinksTail(mem, mem, free);
    forall x
      ensures x in free' <==> Owned(owner', x, FREE)
    {
      assert x in free <==> Owned(owner, x, FREE);
    }
  }

  // A new block: its first message is taken, the others are the free list.
  function Block(n: nat): (b: seq<Message>)
    ensures |b| == MESSAGEPOOL
  {
    seq(MESSAGEPOOL, i => Message([], 0, if 0 < i < MESSAGEPOOL - 1 then Some(n + i + 1) else None))
  }

  function BlockTail(n: nat): (f: seq<nat>)
    ensures |f| == MESSAGEPOOL - 1
  {
    seq(MESSAGEPOOL - 1, i requires 0 <= i < MESSAGEPOOL - 1 => n + 1 + i)
  }

  lemma {:induction false} GrowChain(mem: seq<Message>, owner: seq<int>, free: seq<nat>, c: int)
    requires PoolOk(mem, owner, None, free)
    ensures var n := |mem|; var owner' := owner + [HELD] + seq(MESSAGEPOOL - 1, _ => FREE);
      && PoolOk(mem + Block(n), owner', Some(n + 1), BlockTail(n))
      && Frame(mem, owner, mem + Block(n), owner', c)
      && Owned(owner', n, HELD)
  {
    var n := |mem|;
    var mem', owner' := mem + Block(n), owner + [HELD] + seq(MESSAGEPOOL - 1, _ => FREE);
    var free' := BlockTail(n);
    assert free == [];
    forall i | 0 <= i < |free'|
      ensures LinkOk(mem', free', i)
    {
      assert mem'[n + 1 + i] == Block(n)[1 + i];
    }
    forall x: nat
      ensures x in free' <==> Owned(owner', x, FREE)
    {
      assert x in free <==> Owned(owner, x, FREE);
      if n < x < n + MESSAGEPOOL {
        assert free'[x - n - 1] == x;
      }
    }
  }

  // A message in hand is put at the end of a chain.
  lemma {:induction false} AttachChain(mem: seq<Message>, owner: seq<int>, c: nat, b: Buffer, nodes: seq<nat>,
      freelist: Option<nat>, free: seq<nat>, m: nat, data: bytes)
    requires PoolOk(mem, owner, freelist, free) && BufferOk(mem, owner, c, b, nodes) && Owned(owner, m, HELD)
    ensures b.tail.Some? ==> b.tail.value < |mem| && b.tail.value != m
    ensures b.head.Some? <==> b.tail.Some?
    ensures var put := mem[m := Message(data, |data|, None)];
      var mem' := if b.tail.Some? then put[b.tail.value := put[b.tail.value].(next := Some(m))] else put;
      var b' := b.(size := b.size + |data|, head := if b.head.Some? then b.head else Some(m), tail := Some(m));
      && PoolOk(mem', owner[m := c], freelist, free)
      && BufferOk(mem', owner[m := c], c, b', nodes + [m])
      && Rest(mem', b', nodes + [m]) == Rest(mem, b, nodes) + data
      && Frame(mem, owner, mem', owner[m := c], c)
  {
    hide Owned;
    hide LinkOk;
    hide Frame;
    hide Bytes;
    hide Rest;
    AttachBasics(mem, owner, c, b, nodes, freelist, free, m);
    var put := mem[m := Message(data, |data|, None)];
    var mem' := if b.tail.Some? then put[b.tail.value := put[b.tail.value].(next := Some(m))] else put;
    AttachBytes(mem, mem', b, nodes, m);
    AttachLinks(mem, mem', nodes, m);
    DistinctAppend(nodes, m);
    assert forall x | x in free && x < |mem| :: mem'[x] == mem[x];
    SameLinks(mem, mem', free);
    AttachMine(owner, nodes, c, m);
    AttachOther(owner, free, FREE, c, m);
    assert b.tail.Some? ==> Owned(owner, b.tail.value, c);
    AttachFrame(mem, owner, mem', c, m, b.tail);
  }

  lemma {:induction false} AttachBytes(mem: seq<Message>, mem': seq<Message>, b: Buffer, nodes: seq<nat>, m: nat)
    requires m < |mem'| && b.offset + b.size == |Bytes(mem, nodes)|
    requires forall x | x in nodes :: x < |mem| && x < |mem'| && mem'[x].buffer == mem[x].buffer
    ensures Bytes(mem', nodes + [m]) == Bytes(mem, nodes) + mem'[m].buffer
    ensures forall b': Buffer {:trigger Rest(mem', b', nodes + [m])} | b'.offset == b.offset ::
      Rest(mem', b', nodes + [m]) == Rest(mem, b, nodes) + mem'[m].buffer
  {
    BytesAppend(mem', nodes, m);
    BytesFrame(mem, mem', nodes);
  }

  lemma {:induction false} SameLinks(mem: seq<Message>, mem': seq<Message>, nodes: seq<nat>)
    requires |mem'| == |mem| && forall x | x in nodes && x < |mem| :: mem'[x] == mem[x]
    requires forall i | 0 <= i < |nodes| :: LinkOk(mem, nodes, i)
    ensures forall i | 0 <= i < |nodes| :: LinkOk(mem', nodes, i)
  {
    forall i | 0 <= i < |nodes|
      ensures LinkOk(mem', nodes, i)
    {
      assert LinkOk(mem, nodes, i) && nodes[i] in nodes;
    }
  }

  lemma {:induction false} AttachMine(owner: seq<int>, nodes: seq<nat>, c: nat, m: nat)
    requires Owned(owner, m, HELD) && forall x :: x in nodes <==> Owned(owner, x, c)
    ensures forall x :: x in nodes + [m] <==> Owned(owner[m := c], x, c)
  {
    forall x
      ensures x in nodes + [m] <==> Owned(owner[m := c], x, c)
    {
      assert x in nodes <==> Owned(owner, x, c);
    }
  }

  lemma {:induction false} AttachOther(owner: seq<int>, nodes: seq<nat>, who: int, c: nat, m: nat)
    requires Owned(owner, m, HELD) && who != HELD && who != c && forall x :: x in nodes <==> Owned(owner, x, who)
    ensures forall x :: x in nodes <==> Owned(owner[m := c], x, who)
  {
    forall x
      ensures x in nodes <==> Owned(owner[m := c], x, who)
    {
      assert x in nodes <==> Owned(owner, x, who);
    }
  }

  lemma {:induction false} AttachFrame(mem: seq<Message>, owner: seq<int>, mem': seq<Message>, c: nat, m: nat,
      tail: Option<nat>)
    requires |owner| == |mem| == |mem'| && Owned(owner, m, HELD) && (tail.Some? ==> Owned(owner, tail.value, c))
    requires forall x | 0 <= x < |mem| && x != m && Some(x) != tail :: mem'[x] == mem[x]
    ensures Frame(mem, owner, mem', owner[m := c], c)
  {
  }

  lemma {:induction false} AttachBasics(mem: seq<Message>, owner: seq<int>, c: nat, b: Buffer, nodes: seq<nat>,
      freelist: Option<nat>, free: seq<nat>, m: nat)
    requires PoolOk(mem, owner, freelist, free) && BufferOk(mem, owner, c, b, nodes) && Owned(owner, m, HELD)
    ensures b.tail.Some? ==> b.tail.value < |mem| && b.tail.value != m && b.tail.value in nodes
    ensures b.head.Some? <==> b.tail.Some?
    ensures m !in nodes && m !in free && m < |mem|
    ensures forall x | x in free :: x !in nodes
    ensures forall i | 0 <= i < |nodes| :: LinkOk(mem, nodes, i)
  {
    if nodes != [] {
      assert nodes[|nodes| - 1] in nodes;
    }
    forall x | x in free
      ensures x !in nodes
    {
      assert Owned(owner, x, FREE) && !Owned(owner, x, c);
    }
  }

  lemma {:induction false} AttachLinks(mem: seq<Message>, mem': seq<Message>, nodes: seq<nat>, m: nat)
    requires m < |mem| && |mem'| == |mem| && m !in nodes && Distinct(nodes) && mem'[m].next == None
    requires forall i | 0 <= i < |nodes| :: LinkOk(mem, nodes, i)
    requires nodes != [] ==> nodes[|nodes| - 1] < |mem| && mem'[nodes[|nodes| - 1]].next == Some(m)
    requires forall x | x in nodes && Some(x) != Last(nodes) :: x < |mem| && mem'[x] == mem[x]
    ensures forall i | 0 <= i < |nodes + [m]| :: LinkOk(mem', nodes + [m], i)
  {
    var nodes' := nodes + [m];
    forall i | 0 <= i < |nodes'|
      ensures LinkOk(mem', nodes', i)
    {
      if i + 1 < |nodes| {
        assert LinkOk(mem, nodes, i) && nodes[i] != nodes[|nodes| - 1] && nodes[i] in nodes;
        assert nodes'[i + 1..][0] == nodes[i + 1] == nodes[i + 1..][0];
      } else if i + 1 == |nodes| {
        assert LinkOk(mem, nodes, i) && nodes'[i + 1..] == [m];
      }
    }
  }

  // ----- All buffers and the pool -----

  datatype State = State(mem: seq<Message>, owner: seq<int>, freelist: Option<nat>, free: seq<nat>, db: seq<Buffer>,
      chains: seq<seq<nat>>)

  // Everything is in order, but bytes are being taken from connection `c`.
  ghost predicate MidOk(s: State, c: nat) {
    && PoolOk(s.mem, s.owner, s.freelist, s.free)
    && |s.db| == |s.chains| && c < |s.db|
    && PartOk(s.mem, s.owner, c, s.db[c], s.chains[c])
    && (forall d | 0 <= d < |s.db| && d != c :: BufferOk(s.mem, s.owner, d, s.db[d], s.chains[d]))
  }

  ghost predicate StateOk(s: State) {
    && PoolOk(s.mem, s.owner, s.freelist, s.free)
    && |s.db| == |s.chains|
    && (forall d | 0 <= d < |s.db| :: BufferOk(s.mem, s.owner, d, s.db[d], s.chains[d]))
  }

  // Nobody but the free list and the connections holds a message (`but` aside).
  ghost predicate Settled(owner: seq<int>, n: nat, but: int) {
    forall x | 0 <= x < |owner| && x != but :: owner[x] == FREE || 0 <= owner[x] < n
  }

  // Every message of the pool is either on the free list or in the chain of exactly one connection, once.
  lemma {:induction false} MessageHome(s: State, x: nat)
    requires StateOk(s) && Settled(s.owner, |s.db|, -1) && x < |s.mem|
    ensures x in s.free <==> forall d | 0 <= d < |s.chains| :: x !in s.chains[d]
    ensures forall d, e | 0 <= d < |s.chains| && 0 <= e < |s.chains| && x in s.chains[d] && x in s.chains[e] :: d == e
    ensures Distinct(s.free) && forall d | 0 <= d < |s.chains| :: Distinct(s.chains[d])
  {
    assert x in s.free <==> Owned(s.owner, x, FREE);
    forall d | 0 <= d < |s.chains|
      ensures x in s.chains[d] <==> Owned(s.owner, x, d)
      ensures Distinct(s.chains[d])
    {
      assert BufferOk(s.mem, s.owner, d, s.db[d], s.chains[d]);
    }
    if !Owned(s.owner, x, FREE) {
      assert x in s.chains[s.owner[x]];
    }
  }

  // Buffers other than `c` are as they were.
  ghost predicate OthersSame(s: State, s': State, c: nat) {
    && |s'.db| == |s.db| && |s'.chains| == |s.chains| == |s.db|
    && (forall d | 0 <= d < |s.db| && d != c ::
          s'.db[d] == s.db[d] && s'.chains[d] == s.chains[d] && Bytes(s'.mem, s.chains[d]) == Bytes(s.mem, s.chains[d]))
  }

  ghost function StreamOf(s: State, c: nat): Stream
    requires c < |s.db| == |s.chains|
  {
    Stream(s.db[c].header, Rest(s.mem, s.db[c], s.chains[c]))
  }

  ghost function Streams(s: State): (r: seq<Stream>)
    requires |s.db| == |s.chains|
    ensures |r| == |s.db|
  {
    seq(|s.db|, c requires 0 <= c < |s.db| => StreamOf(s, c))
  }

  lemma {:induction false} StreamsUpdate(s: State, s': State, c: nat)
    requires OthersSame(s, s', c) && c < |s.db|
    ensures Streams(s') == Streams(s)[c := StreamOf(s', c)]
  {
    forall d | 0 <= d < |s.db| && d != c
      ensures StreamOf(s', d) == StreamOf(s, d)
    {
      assert s'.db[d] == s.db[d];
    }
  }

  lemma {:induction false} MidWhole(s: State, c: nat)
    requires c < |s.db| == |s.chains|
    ensures StateOk(s) <==>
      MidOk(s, c) && OffsetOk(s.mem, s.db[c], s.chains[c])
          && s.db[c].offset + s.db[c].size == |Bytes(s.mem, s.chains[c])|
    ensures StateOk(s) ==> |StreamOf(s, c).bytes| == s.db[c].size
  {
  }

  // A step that changes only buffer `c`, the pool and the messages that neither holds.
  lemma {:induction false} OthersKeep(s: State, s': State, c: nat)
    requires MidOk(s, c) && Frame(s.mem, s.owner, s'.mem, s'.owner, c)
    requires |s'.db| == |s.db| && |s'.chains| == |s.chains|
    requires forall d | 0 <= d < |s.db| && d != c :: s'.db[d] == s.db[d] && s'.chains[d] == s.chains[d]
    ensures OthersSame(s, s', c)
    ensures forall d | 0 <= d < |s.db| && d != c :: BufferOk(s'.mem, s'.owner, d, s'.db[d], s'.chains[d])
  {
    forall d | 0 <= d < |s.db| && d != c
      ensures BufferOk(s'.mem, s'.owner, d, s'.db[d], s'.chains[d])
        && Bytes(s'.mem, s.chains[d]) == Bytes(s.mem, s.chains[d])
    {
      assert BufferOk(s.mem, s.owner, d, s.db[d], s.chains[d]);
      FrameBuffer(s.mem, s.owner, s'.mem, s'.owner, c, d, s.db[d], s.chains[d]);
    }
  }

  // _return_message
  ghost function Returned(s: State, c: nat): State
    requires c < |s.db| == |s.chains| && s.chains[c] != [] && s.chains[c][0] < |s.mem| == |s.owner|
  {
    var nodes := s.chains[c];
    s.(mem := s.mem[nodes[0] := Message([], 0, s.freelist)], owner := s.owner[nodes[0] := FREE],
       freelist := Some(nodes[0]), free := [nodes[0]] + s.free,
       db := s.db[c := s.db[c].(head := s.mem[nodes[0]].next,
           tail := if s.mem[nodes[0]].next.None? then None else s.db[c].tail)],
       chains := s.chains[c := nodes[1..]])
  }

  lemma {:induction false} ReturnedMid(s: State, c: nat)
    requires MidOk(s, c) && s.db[c].head.Some?
    ensures s.chains[c] != [] && s.chains[c][0] == s.db[c].head.value < |s.mem| == |s.owner|
    ensures MidOk(Returned(s, c), c) && OthersSame(s, Returned(s, c), c)
    ensures Bytes(s.mem, s.chains[c]) == s.mem[s.chains[c][0]].buffer + Bytes(Returned(s, c).mem, s.chains[c][1..])
    ensures s.mem[s.chains[c][0]].size == |s.mem[s.chains[c][0]].buffer|
    ensures s.mem[s.chains[c][0]].next.None? ==> s.db[c].tail == s.db[c].head
  {
    var nodes := s.chains[c];
    assert nodes[0] in nodes;
    ReturnChain(s.mem, s.owner, c, nodes, s.freelist, s.free);
    var s' := Returned(s, c);
    OthersKeep(s, s', c);
    DistinctTail(nodes);
    BytesFrame(s.mem, s'.mem, nodes[1..]);
    assert |nodes| > 1 ==> nodes[1..][|nodes| - 2] == nodes[|nodes| - 1];
    assert First(nodes[1..]).None? <==> |nodes| == 1;
  }

  // databuffer_push, the message `m` taken.
  ghost function Pushed(s: State, c: nat, m: nat, data: bytes): State
    requires c < |s.db| == |s.chains| && m < |s.mem| == |s.owner|
    requires s.db[c].tail.Some? ==> s.db[c].tail.value < |s.mem|
  {
    var b := s.db[c];
    var put := s.mem[m := Message(data, |data|, None)];
    s.(mem := if b.tail.Some? then put[b.tail.value := put[b.tail.value].(next := Some(m))] else put,
       owner := s.owner[m := c],
       db := s.db[c := b.(size := b.size + |data|, head := if b.head.Some? then b.head else Some(m), tail := Some(m))],
       chains := s.chains[c := s.chains[c] + [m]])
  }

  lemma {:induction false} PushedOk(s: State, c: nat, m: nat, data: bytes)
    requires StateOk(s) && c < |s.db| && Owned(s.owner, m, HELD)
    ensures m < |s.mem| == |s.owner| && |s.chains| == |s.db|
    ensures s.db[c].tail.Some? ==> s.db[c].tail.value < |s.mem| && s.db[c].tail.value != m
    ensures s.db[c].head.Some? <==> s.db[c].tail.Some?
    ensures var s' := Pushed(s, c, m, data);
      && StateOk(s') && OthersSame(s, s', c)
      && StreamOf(s', c) == StreamOf(s, c).(bytes := StreamOf(s, c).bytes + data)
  {
    assert BufferOk(s.mem, s.owner, c, s.db[c], s.chains[c]);
    AttachChain(s.mem, s.owner, c, s.db[c], s.chains[c], s.freelist, s.free, m, data);
    OthersKeep(s, Pushed(s, c, m, data), c);
  }

  // The message at the head of the free list is taken.
  ghost function Taken(s: State): State
    requires s.freelist.Some? && s.freelist.value < |s.mem| == |s.owner| && s.free != []
  {
    s.(owner := s.owner[s.freelist.value := HELD], freelist := s.mem[s.freelist.value].next, free := s.free[1..])
  }

  lemma {:induction false} TakenOk(s: State)
    requires StateOk(s) && s.freelist.Some?
    ensures s.freelist.value < |s.mem| == |s.owner| && s.free != [] && |s.db| == |s.chains|
    ensures StateOk(Taken(s)) && Streams(Taken(s)) == Streams(s)
  {
    TakeChain(s.mem, s.owner, s.freelist, s.free, HELD);
    AllKeep(s, Taken(s));
    assert forall d | 0 <= d < |s.db| :: StreamOf(Taken(s), d) == StreamOf(s, d);
  }

  // A new block: its first message is taken.
  ghost function Grown(s: State): State {
    var n := |s.mem|;
    s.(mem := s.mem + Block(n), owner := s.owner + [HELD] + seq(MESSAGEPOOL - 1, _ => FREE), freelist := Some(n + 1),
        free := BlockTail(n))
  }

  lemma {:induction false} GrownOk(s: State)
    requires StateOk(s) && s.freelist.None?
    ensures |s.db| == |s.chains| && |s.mem| == |s.owner|
    ensures StateOk(Grown(s)) && Streams(Grown(s)) == Streams(s) && Owned(Grown(s).owner, |s.mem|, HELD)
  {
    GrowChain(s.mem, s.owner, s.free, HELD);
    AllKeep(s, Grown(s));
    assert forall d | 0 <= d < |s.db| :: StreamOf(Grown(s), d) == StreamOf(s, d);
  }

  lemma {:induction false} AllKeep(s: State, s': State)
    requires StateOk(s) && Frame(s.mem, s.owner, s'.mem, s'.owner, HELD)
    requires s'.db == s.db && s'.chains == s.chains
    ensures forall d | 0 <= d < |s.db| ::
      BufferOk(s'.mem, s'.owner, d, s'.db[d], s'.chains[d]) && Bytes(s'.mem, s.chains[d]) == Bytes(s.mem, s.chains[d])
  {
    forall d | 0 <= d < |s.db|
      ensures BufferOk(s'.mem, s'.owner, d, s'.db[d], s'.chains[d])
        && Bytes(s'.mem, s.chains[d]) == Bytes(s.mem, s.chains[d])
    {
      FrameBuffer(s.mem, s.owner, s'.mem, s'.owner, HELD, d, s.db[d], s.chains[d]);
    }
  }

  // ----- Reading -----

  // `out` has been read from what `s` held, and `need` bytes are still to be read.
  ghost predicate Reading(s: State, t: State, c: nat, out: bytes, need: nat) {
    && c < |s.db| == |s.chains|
    && MidOk(t, c) && OthersSame(s, t, c) && OffsetOk(t.mem, t.db[c], t.chains[c])
    && t.db[c].header == s.db[c].header
    && t.db[c].offset + t.db[c].size + need == |Bytes(t.mem, t.chains[c])|
    && out + Rest(t.mem, t.db[c], t.chains[c]) == StreamOf(s, c).bytes
  }

  lemma StateParts(s: State)
    requires StateOk(s)
    ensures |s.db| == |s.chains|
  {
  }

  lemma {:induction false} ReadingStart(s: State, t: State, c: nat, sz: nat)
    requires StateOk(s) && c < |s.db| && sz <= s.db[c].size
      && t == s.(db := s.db[c := s.db[c].(size := s.db[c].size - sz)])
    ensures Reading(s, t, c, [], sz)
  {
    MidWhole(s, c);
  }

  lemma {:induction false} ReadingHead(s: State, t: State, c: nat, out: bytes, need: nat)
    requires Reading(s, t, c, out, need) && need > 0
    ensures c < |t.db| == |t.chains| && t.db[c].head.Some? && t.db[c].head.value < |t.mem| && MidOk(t, c)
    ensures t.chains[c] != [] && t.chains[c][0] == t.db[c].head.value
    ensures var m := t.mem[t.db[c].head.value];
      && t.db[c].offset <= m.size == |m.buffer|
      && Bytes(t.mem, t.chains[c]) == m.buffer + Bytes(t.mem, t.chains[c][1..])
  {
    assert t.chains[c][0] in t.chains[c];
  }

  // Part of the first message is the last that is needed.
  lemma {:induction false} ReadingPart(s: State, t: State, c: nat, out: bytes, need: nat)
    requires Reading(s, t, c, out, need) && need > 0 && c < |t.db| && t.db[c].head.Some? && t.db[c].head.value < |t.mem|
    requires var m := t.mem[t.db[c].head.value]; t.db[c].offset + need < m.size == |m.buffer|
    ensures var m := t.mem[t.db[c].head.value];
      Reading(s, t.(db := t.db[c := t.db[c].(offset := t.db[c].offset + need)]), c,
          out + m.buffer[t.db[c].offset..][..need], 0)
  {
    ReadingHead(s, t, c, out, need);
    var m, o, all := t.mem[t.db[c].head.value], t.db[c].offset, Bytes(t.mem, t.chains[c]);
    hide Bytes;
    assert all[o..] == m.buffer[o..][..need] + all[o + need..];
    assert out + all[o..] == out + m.buffer[o..][..need] + all[o + need..];
  }

  // All that is left of the first message is taken.
  lemma {:induction false} ReadingNext(s: State, t: State, u: State, c: nat, out: bytes, need: nat)
    requires Reading(s, t, c, out, need) && need > 0 && MidOk(u, c) && OthersSame(t, u, c)
    requires t.db[c].head.Some? && t.db[c].head.value < |t.mem|
    requires t.chains[c] != [] && u.chains[c] == t.chains[c][1..]
      && u.db[c] == t.db[c].(head := u.db[c].head, tail := u.db[c].tail)
    requires var m := t.mem[t.db[c].head.value];
      && t.db[c].offset <= m.size == |m.buffer| <= t.db[c].offset + need
      && Bytes(t.mem, t.chains[c]) == m.buffer + Bytes(u.mem, u.chains[c])
    ensures var m := t.mem[t.db[c].head.value];
      Reading(s, u.(db := u.db[c := u.db[c].(offset := 0)]), c, out + m.buffer[t.db[c].offset..],
          need - (m.size - t.db[c].offset))
  {
    var m, o, all, left := t.mem[t.db[c].head.value], t.db[c].offset, Bytes(t.mem, t.chains[c]),
        Bytes(u.mem, u.chains[c]);
    hide Bytes;
    assert all[o..] == m.buffer[o..] + left;
    assert left[0..] == left;
    assert out + all[o..] == out + m.buffer[o..] + left;
    var v := u.(db := u.db[c := u.db[c].(offset := 0)]);
    assert OthersSame(s, v, c) by {
      forall d | 0 <= d < |s.db| && d != c
        ensures v.db[d] == s.db[d] && v.chains[d] == s.chains[d]
          && Bytes(v.mem, s.chains[d]) == Bytes(s.mem, s.chains[d])
      {
        assert t.db[d] == s.db[d] && u.db[d] == t.db[d];
      }
    }
    assert OffsetOk(v.mem, v.db[c], v.chains[c]) by {
      if v.chains[c] != [] {
        assert v.chains[c][0] in v.chains[c];
      }
    }
  }

  lemma {:induction false} ReadingEnd(s: State, t: State, c: nat, out: bytes)
    requires Reading(s, t, c, out, 0)
    ensures StateOk(t) && c < |Streams(s)| == |t.db|
    ensures var all := Streams(s)[c].bytes;
      |out| <= |all| && out == all[..|out|] && Streams(t) == Streams(s)[c := Stream(s.db[c].header, all[|out|..])]
  {
    assert StreamOf(s, c).bytes[|out|..] == StreamOf(t, c).bytes;
    MidWhole(t, c);
    StreamsUpdate(s, t, c);
  }

  class Buffers {
    var mem: seq<Message>          // the messages of all pool blocks
    var freelist: Option<nat>
    var db: seq<Buffer>            // one buffer for each connection
    ghost var owner: seq<int>
    ghost var free: seq<nat>
    ghost var chains: seq<seq<nat>>

    ghost function View(): State
      reads this
    {
      State(mem, owner, freelist, free, db, chains)
    }

    ghost predicate Valid()
      reads this
    {
      StateOk(View()) && Settled(owner, |db|, -1)
    }

    // Each connection's header and bytes not yet read.
    ghost function Contents(): seq<Stream>
      reads this
      requires StateOk(View())
    {
      Streams(View())
    }

    constructor (connections: nat)
      ensures Valid() && Contents() == seq(connections, _ => Stream(0, []))
    {
      mem, freelist := [], None;
      db := seq(connections, _ => EMPTY);
      owner, free, chains := [], [], seq(connections, _ => []);
      new;
      assert forall x: nat :: !Owned(owner, x, FREE);
      assert forall d | 0 <= d < |db| :: BufferOk(mem, owner, d, db[d], chains[d]);
      assert forall d | 0 <= d < |db| :: StreamOf(View(), d) == Stream(0, []);
    }

    // _return_message
    method ReturnMessage(c: nat)
      requires MidOk(View(), c) && db[c].head.Some? && Settled(owner, |db|, -1)
      modifies this
      ensures MidOk(View(), c) && OthersSame(old(View()), View(), c) && Settled(owner, |db|, -1)
      ensures old(chains[c]) != [] && free == [old(chains[c])[0]] + old(free)
      ensures |chains| == |db| == old(|db|)
      ensures old(chains[c]) != [] && chains[c] == old(chains[c])[1..]
        && old(chains[c])[0] == old(db[c]).head.value < |old(mem)|
      ensures db[c] == old(db[c]).(head := db[c].head, tail := db[c].tail)
      ensures old(Bytes(mem, chains[c])) == old(mem)[old(db[c]).head.value].buffer + Bytes(mem, chains[c])
    {
      ghost var s := View();
      ReturnedMid(s, c);
      hide MidOk;
      hide OthersSame;
      hide Bytes;
      var m: nat := db[c].head.value;
      if mem[m].next.None? {
        db := db[c := db[c].(head := None, tail := None)];
      } else {
        db := db[c := db[c].(head := mem[m].next)];
      }
      mem := mem[m := Message([], 0, freelist)];
      freelist := Some(m);
      owner, free, chains := owner[m := FREE], [m] + free, chains[c := chains[c][1..]];
      assert View() == Returned(s, c);
    }

    // databuffer_read
    method Read(c: nat, sz: nat) returns (out: bytes)
      requires Valid() && c < |db| && 0 < sz <= db[c].size
      modifies this
      ensures Valid() && |db| == old(|db|) && sz <= |old(Contents())[c].bytes|
      ensures out == old(Contents())[c].bytes[..sz]
      ensures Contents() == old(Contents())[c := Stream(old(db[c].header), old(Contents())[c].bytes[sz..])]
      ensures SameMessages(free, chains[c], old(free), old(chains[c]))
    {
      hide StateOk;
      hide MidOk;
      hide Reading;
      hide OthersSame;
      hide Settled;
      hide SameMessages;
      hide Streams;
      hide Bytes;
      StateParts(View());
      ghost var s := View();
      MidWhole(s, c);
      SameNone(free, chains[c]);
      out := [];
      var need: nat := sz;
      db := db[c := db[c].(size := db[c].size - sz)];
      ReadingStart(s, View(), c, sz);
      while true
        invariant Reading(s, View(), c, out, need) && need > 0 && |out| + need == sz
        invariant Settled(owner, |db|, -1) && c < |chains| && SameMessages(free, chains[c], s.free, s.chains[c])
        decreases |chains[c]|
      {
        ReadingHead(s, View(), c, out, need);
        var current: nat := db[c].head.value;
        var bsz: nat := mem[current].size - db[c].offset;
        var data := mem[current].buffer[db[c].offset..];
        if bsz > need {
          ReadingPart(s, View(), c, out, need);
          out := out + data[..need];
          db := db[c := db[c].(offset := db[c].offset + need)];
          need := 0;
          break;
        }
        ghost var t := View();
        SameReturned(free, chains[c], s.free, s.chains[c]);
        ReturnMessage(c);
        ReadingNext(s, t, View(), c, out, need);
        out := out + data;
        need := need - bsz;
        db := db[c := db[c].(offset := 0)];
        if need == 0 {
          break;
        }
      }
      assert need == 0 && Reading(s, View(), c, out, 0);
      ReadingEnd(s, View(), c, out);
    }

    // The message that databuffer_push takes from the free list, or from a new block.
    method TakeMessage() returns (m: nat)
      requires Valid()
      modifies this`mem, this`freelist, this`owner, this`free
      ensures StateOk(View()) && Settled(owner, |db|, m) && Owned(owner, m, HELD) && m < |mem|
      ensures Contents() == old(Contents())
    {
      ghost var s := View();
      if freelist.Some? {
        TakenOk(s);
        hide StateOk;
        hide StreamOf;
        m := freelist.value;
        owner, free := owner[m := HELD], free[1..];
        freelist := mem[m].next;
        assert View() == Taken(s);
      } else {
        GrownOk(s);
        hide StateOk;
        hide StreamOf;
        m := |mem|;
        NewBlock();
        freelist := Some(m + 1);
        owner, free := owner + [HELD] + seq(MESSAGEPOOL - 1, _ => FREE), BlockTail(m);
        assert View() == Grown(s);
      }
    }

    // The messages of a new block, linked from the second on.
    method NewBlock()
      modifies this`mem
      ensures mem == old(mem) + Block(|old(mem)|)
    {
      var n := |mem|;
      mem := mem + seq(MESSAGEPOOL, _ => Message([], 0, None));
      for i := 1 to MESSAGEPOOL
        invariant |mem| == n + MESSAGEPOOL && mem[..n] == old(mem)
        invariant forall x | n <= x < n + MESSAGEPOOL ::
          mem[x] == Message([], 0, if n < x < n + i then Some(x + 1) else None)
      {
        mem := mem[n + i := Message([], 0, Some(n + i + 1))];
      }
      mem := mem[n + MESSAGEPOOL - 1 := Message([], 0, None)];
      assert mem[n..] == Block(n);
      assert mem == mem[..n] + mem[n..];
    }

    // databuffer_push
    method Push(c: nat, data: bytes)
      requires Valid() && c < |db|
      modifies this
      ensures Valid() && |db| == old(|db|)
      ensures Contents() == old(Contents())[c := Stream(old(db[c].header), old(Contents())[c].bytes + data)]
    {
      var m := TakeMessage();
      ghost var s := View();
      PushedOk(s, c, m, data);
      StreamsUpdate(s, Pushed(s, c, m, data), c);
      hide StateOk;
      hide OthersSame;
      hide StreamOf;
      hide Streams;
      hide Owned;
      Link(c, m, data);
    }

    // The message gets its data and becomes the last of the chain.
    method Link(c: nat, m: nat, data: bytes)
      requires c < |db| == |chains| && m < |mem| == |owner|
      requires db[c].head.Some? <==> db[c].tail.Some?
      requires db[c].tail.Some? ==> db[c].tail.value < |mem| && db[c].tail.value != m
      modifies this
      ensures View() == Pushed(old(View()), c, m, data)
    {
      mem := mem[m := Message(data, |data|, None)];
      db := db[c := db[c].(size := db[c].size + |data|)];
      if db[c].head.None? {
        db := db[c := db[c].(head := Some(m), tail := Some(m))];
      } else {
        var t: nat := db[c].tail.value;
        mem := mem[t := mem[t].(next := Some(m))];
        db := db[c := db[c].(tail := Some(m))];
      }
      owner, chains := owner[m := c], chains[c := chains[c] + [m]];
    }

    // databuffer_readheader: the length of the packet to come, or -1 if it is not all there yet.
    method ReadHeader(c: nat, headerSize: nat) returns (r: int)
      requires Valid() && c < |db| && HeaderSize(headerSize)
      modifies this
      ensures Valid() && |db| == old(|db|)
      ensures var s := old(Contents())[c]; var t := HeaderRead(headerSize, s);
        && Contents() == old(Contents())[c := t]
        && r == if |t.bytes| < t.header || (s.header == 0 && |s.bytes| < headerSize) then -1 else t.header
    {
      MidWhole(View(), c);
      hide StateOk;
      hide Length;
      if db[c].header == 0 {
        if db[c].size < headerSize {
          return -1;
        }
        var plen := Read(c, headerSize);
        ghost var s := View();
        db := db[c := db[c].(header := Length(plen))];
        HeaderOk(s, c, Length(plen));
        MidWhole(View(), c);
      }
      if db[c].size < db[c].header {
        return -1;
      }
      return db[c].header;
    }

    // databuffer_reset
    method Reset(c: nat)
      requires Valid() && c < |db|
      modifies this
      ensures Valid() && |db| == old(|db|)
      ensures Contents() == old(Contents())[c := Stream(0, old(Contents())[c].bytes)]
    {
      HeaderOk(View(), c, 0);
      hide StateOk;
      db := db[c := db[c].(header := 0)];
    }

    // databuffer_clear
    method Clear(c: nat)
      requires Valid() && c < |db|
      modifies this
      ensures Valid() && |db| == old(|db|)
      ensures Contents() == old(Contents())[c := Stream(0, [])]
      ensures db[c] == EMPTY && chains[c] == []
      ensures forall x :: x in free <==> x in old(free) || x in old(chains[c])
    {
      ghost var s := View();
      MidWhole(s, c);
      SameNone(free, chains[c]);
      hide StateOk;
      hide SameMessages;
      while db[c].head.Some?
        invariant MidOk(View(), c) && OthersSame(s, View(), c) && Settled(owner, |db|, -1)
        invariant SameMessages(free, chains[c], s.free, s.chains[c])
        decreases |chains[c]|
      {
        ghost var t := View();
        SameReturned(free, chains[c], s.free, s.chains[c]);
        ReturnMessage(c);
        OthersTrans(s, t, View(), c);
      }
      ClearedOk(s, View(), c);
      SameAll(free, s.free, s.chains[c]);
      db := db[c := EMPTY];
    }
  }

  // The free list and the chain hold the messages that they held before.
  ghost predicate SameMessages(free: seq<nat>, chain: seq<nat>, free0: seq<nat>, chain0: seq<nat>) {
    forall x :: x in free || x in chain <==> x in free0 || x in chain0
  }

  lemma SameNone(free: seq<nat>, chain: seq<nat>)
    ensures SameMessages(free, chain, free, chain)
  {
  }

  lemma SameAll(free: seq<nat>, free0: seq<nat>, chain0: seq<nat>)
    requires SameMessages(free, [], free0, chain0)
    ensures forall x :: x in free <==> x in free0 || x in chain0
  {
  }

  lemma SameReturned(free: seq<nat>, chain: seq<nat>, free0: seq<nat>, chain0: seq<nat>)
    requires SameMessages(free, chain, free0, chain0)
    ensures chain != [] ==> SameMessages([chain[0]] + free, chain[1..], free0, chain0)
  {
    if chain != [] {
      assert chain == [chain[0]] + chain[1..];
      forall x
        ensures x in [chain[0]] + free || x in chain[1..] <==> x in free || x in chain
      {
      }
    }
  }

  // What databuffer_readheader makes of a stream.
  function HeaderRead(hs: nat, s: Stream): Stream
    requires HeaderSize(hs)
  {
    if s.header == 0 && |s.bytes| >= hs then Stream(Length(s.bytes[..hs]), s.bytes[hs..]) else s
  }

  lemma {:induction false} HeaderOk(s: State, c: nat, h: int)
    requires StateOk(s) && c < |s.db|
    ensures var s' := s.(db := s.db[c := s.db[c].(header := h)]);
      StateOk(s') && Streams(s') == Streams(s)[c := Stream(h, Streams(s)[c].bytes)]
  {
    StreamsUpdate(s, s.(db := s.db[c := s.db[c].(header := h)]), c);
  }

  lemma {:induction false} OthersTrans(s: State, t: State, u: State, c: nat)
    requires OthersSame(s, t, c) && OthersSame(t, u, c)
    ensures OthersSame(s, u, c)
  {
    forall d | 0 <= d < |s.db| && d != c
      ensures u.db[d] == s.db[d] && u.chains[d] == s.chains[d] && Bytes(u.mem, s.chains[d]) == Bytes(s.mem, s.chains[d])
    {
      assert t.db[d] == s.db[d] && u.db[d] == t.db[d];
    }
  }

  lemma {:induction false} ClearedOk(s: State, t: State, c: nat)
    requires OthersSame(s, t, c) && MidOk(t, c) && t.db[c].head.None?
    ensures var u := t.(db := t.db[c := EMPTY]);
      StateOk(u) && Streams(u) == Streams(s)[c := Stream(0, [])] && t.chains[c] == []
  {
    var u := t.(db := t.db[c := EMPTY]);
    assert OthersSame(s, u, c);
    StreamsUpdate(s, u, c);
  }
}

