/**
 The gate: socket events of many connections in any order. Each connection has a slot of the table
 and a buffer; packets go to the broker, to the connection's agent or to the watchdog.
 */
module Gate {
  import opened Words
  import opened Packets
  import HashId
  import DataBuffer

  datatype Connection = Connection(id: int, agent: nat, client: nat)

  // A packet and the service that gets it: an agent gets it as if the client had sent it, the watchdog is
  // told the identifier in the slot.
  datatype Delivery =
    | ToBroker(broker: nat, packet: bytes)
    | ToAgent(client: nat, agent: nat, packet: bytes)
    | ToWatchdog(watchdog: nat, id: int, packet: bytes)

  // What is known of an open connection.
  datatype Peer = Peer(stream: Stream, conn: Connection)

  class Service {
    const headerSize: nat
    const hash: HashId.Table
    const buf: DataBuffer.Buffers
    var conn: seq<Connection>
    var broker: nat
    var watchdog: nat
    ghost var forwarded: seq<Delivery>
    ghost var closed: seq<int>      // the sockets closed by the gate

    ghost predicate Valid()
      reads this, hash, buf, hash.id, hash.hash
    {
      && HeaderSize(headerSize)
      && hash.Valid() && buf.Valid()
      && |conn| == |buf.db| == hash.cap
      && (forall s | 0 <= s < |conn| && hash.id[s].id == -1 :: Vacant(buf.Contents(), conn, s))
    }

    // The gate as a map from identifiers to connections.
    ghost function Peers(): map<int, Peer>
      reads this, hash, buf, hash.id, hash.hash
      requires Valid()
    {
      PeersOf(hash.Map(), buf.Contents(), conn)
    }

    // gate_init
    constructor (max: nat, size: nat, watch: nat)
      requires HeaderSize(size)
      ensures Valid() && Peers() == map[] && hash.cap == max && forwarded == [] && closed == []
      ensures broker == 0 && watchdog == watch && headerSize == size
    {
      headerSize := size;
      hash := new HashId.Table(max);
      buf := new DataBuffer.Buffers(max);
      conn := seq(max, _ => Connection(-1, 0, 0));
      broker, watchdog := 0, watch;
      forwarded, closed := [], [];
    }

    // _forward; it reads the packet only when there is somebody to take it.
    method Forward(c: nat, size: nat)
      requires buf.Valid() && c < |conn| && c < |buf.db| && 0 < size <= |buf.Contents()[c].bytes|
      modifies buf, this`forwarded
      ensures buf.Valid() && |buf.db| == old(|buf.db|)
      ensures var s := old(buf.Contents())[c];
        && if Taken(broker, watchdog, conn[c]) then
             && buf.Contents() == old(buf.Contents())[c := s.(bytes := s.bytes[size..])]
             && forwarded == old(forwarded) + [Route(broker, watchdog, conn[c], s.bytes[..size])]
           else buf.Contents() == old(buf.Contents()) && forwarded == old(forwarded)
      ensures var packet := old(buf.Contents())[c].bytes[..size];
        && (broker != 0 ==> forwarded == old(forwarded) + [ToBroker(broker, packet)])
        && (broker == 0 && conn[c].agent != 0 ==>
              forwarded == old(forwarded) + [ToAgent(conn[c].client, conn[c].agent, packet)])
        && (broker == 0 && conn[c].agent == 0 && watchdog != 0 ==>
              forwarded == old(forwarded) + [ToWatchdog(watchdog, conn[c].id, packet)])
        && (broker == conn[c].agent == watchdog == 0 ==> forwarded == old(forwarded))
    {
      if broker == 0 && conn[c].agent == 0 && watchdog == 0 {
        return;
      }
      DataBuffer.MidWhole(buf.View(), c);
      var temp := buf.Read(c, size);
      if broker != 0 {
        forwarded := forwarded + [ToBroker(broker, temp)];
      } else if conn[c].agent != 0 {
        forwarded := forwarded + [ToAgent(conn[c].client, conn[c].agent, temp)];
      } else {
        forwarded := forwarded + [ToWatchdog(watchdog, conn[c].id, temp)];
      }
    }

    // dispatch_message
    method DispatchMessage(c: nat, id: int, data: bytes)
      requires buf.Valid() && HeaderSize(headerSize) && c < |conn| && c < |buf.db|
      modifies buf, this`forwarded, this`closed
      ensures buf.Valid() && |buf.db| == old(|buf.db|)
      ensures var s := old(buf.Contents())[c];
        var p := Handled(headerSize, s.(bytes := s.bytes + data), Taken(broker, watchdog, conn[c]));
        && buf.Contents() == old(buf.Contents())[c := p.left]
        && forwarded == old(forwarded) + RouteAll(broker, watchdog, conn[c], p.packets)
        && closed == if p.rejected then old(closed) + [id] else old(closed)
    {
      ghost var streams, out := buf.Contents(), forwarded;
      buf.Push(c, data);
      ghost var taken := Taken(broker, watchdog, conn[c]);
      ghost var p := Handled(headerSize, buf.Contents()[c], taken);
      ghost var done: seq<bytes> := [];
      ParsingStart(headerSize, streams, buf.Contents(), c, taken);
      hide Parsing;
      hide Handled;
      hide Taken;
      hide Length;
      hide DataBuffer.HeaderRead;
      hide DataBuffer.StateOk;
      hide DataBuffer.Streams;
      hide Route;
      while true
        invariant buf.Valid() && |buf.db| == |streams| && c < |buf.db|
        invariant Parsing(headerSize, streams, buf.Contents(), c, p, done, taken)
        invariant forwarded == out + RouteAll(broker, watchdog, conn[c], done) && closed == old(closed)
        decreases |buf.Contents()[c].bytes|, if buf.Contents()[c].header == 0 then 0 else 1
      {
        var more;
        more, done := Turn(c, id, streams, p, out, done, taken);
        if !more {
          return;
        }
      }
    }

    // One turn of its loop: false at the end of the data.
    method Turn(c: nat, id: int, ghost start: seq<Stream>, ghost p: Parsed, ghost out: seq<Delivery>,
        ghost done: seq<bytes>, ghost taken: bool)
      returns (more: bool, ghost next: seq<bytes>)
      requires buf.Valid() && HeaderSize(headerSize) && c < |conn| && |buf.db| == |start| && c < |buf.db|
      requires taken == Taken(broker, watchdog, conn[c])
      requires Parsing(headerSize, start, buf.Contents(), c, p, done, taken)
      requires forwarded == out + RouteAll(broker, watchdog, conn[c], done)
      modifies buf, this`forwarded, this`closed
      ensures buf.Valid() && |buf.db| == |start|
      ensures forwarded == out + RouteAll(broker, watchdog, conn[c], next)
      ensures more ==> Parsing(headerSize, start, buf.Contents(), c, p, next, taken) && closed == old(closed)
      ensures more ==> Shorter(buf.Contents()[c], old(buf.Contents())[c])
      ensures !more ==> next == p.packets && buf.Contents() == start[c := p.left]
      ensures !more ==> closed == if p.rejected then old(closed) + [id] else old(closed)
    {
      hide Parsing;
      hide Handled;
      hide Length;
      hide DataBuffer.HeaderRead;
      hide DataBuffer.StateOk;
      hide DataBuffer.Streams;
      hide RouteAll;
      hide Route;
      hide Taken;
      hide Shorter;
      ghost var now := buf.Contents();
      ParsingStep(headerSize, start, now, c, p, done, taken);
      next := done;
      var size := buf.ReadHeader(c, headerSize);
      if size < 0 {
        return false, next;
      }
      if size >= 0x1000000 {
        buf.Clear(c);
        closed := closed + [id];
        return false, next;
      }
      if size > 0 {
        ghost var packet := buf.Contents()[c].bytes[..size];
        RouteMore(broker, watchdog, conn[c], done, packet);
        assert done + [] == done;
        next := done + if taken then [packet] else [];
        Forward(c, size);
        buf.Reset(c);
        assert buf.Contents() == now[c := Stream(0, buf.Contents()[c].bytes)];
      }
      more := true;
    }

    // ----- Events -----

    // SKYNET_SOCKET_TYPE_DATA
    method Data(id: nat, data: bytes)
      requires Valid()
      modifies this`forwarded, this`closed, buf
      ensures Valid()
      ensures id !in old(Peers()) ==>
        Peers() == old(Peers()) && forwarded == old(forwarded) && closed == old(closed) + [id]
      ensures id in old(Peers()) ==>
        var peer := old(Peers())[id];
        var p := Handled(headerSize, peer.stream.(bytes := peer.stream.bytes + data),
          Taken(broker, watchdog, peer.conn));
        && Peers() == old(Peers())[id := peer.(stream := p.left)]
        && forwarded == old(forwarded) + RouteAll(broker, watchdog, peer.conn, p.packets)
        && closed == if p.rejected then old(closed) + [id] else old(closed)
      ensures id in old(Peers()) ==>
        forall i | |old(forwarded)| <= i < |forwarded| ::
          var cn := old(Peers())[id].conn;
          && (broker != 0 ==> forwarded[i] == ToBroker(broker, forwarded[i].packet))
          && (broker == 0 && cn.agent != 0 ==> forwarded[i] == ToAgent(cn.client, cn.agent, forwarded[i].packet))
          && (broker == 0 && cn.agent == 0 ==> forwarded[i] == ToWatchdog(watchdog, cn.id, forwarded[i].packet))
    {
      hide HashId.TableOk;
      hide HashId.Content;
      hide HashId.DistinctIds;
      hide HashId.UsedSlots;
      hide HashId.PowerOfTwo;
      hide DataBuffer.StateOk;
      hide DataBuffer.Streams;
      hide RouteAll;
      hide Handled;
      hide Taken;
      hide Injective;
      TableIds(hash.id[..], hash.hash[..], hash.chains);
      ghost var streams := buf.Contents();
      IdsOk(hash.id[..]);
      var slot := hash.Lookup(id);
      if slot >= 0 {
        RouteTo(broker, watchdog, conn[slot]);
        DispatchMessage(slot, id, data);
        PeersData(hash.Map(), streams, conn, id, buf.Contents()[slot]);
      } else {
        closed := closed + [id];
      }
    }

    // SKYNET_SOCKET_TYPE_ACCEPT
    method Accept(id: nat)
      requires Valid() && id !in Peers()
      modifies this`conn, this`closed, hash`count, hash`chains, hash.id, hash.hash
      ensures Valid() && forwarded == old(forwarded)
      ensures |old(Peers())| == hash.cap ==> Peers() == old(Peers()) && closed == old(closed) + [id]
      ensures |old(Peers())| < hash.cap ==>
        Peers() == old(Peers())[id := Peer(Stream(0, []), Connection(id, 0, 0))] && closed == old(closed)
    {
      hide HashId.TableOk;
      hide HashId.Content;
      hide HashId.DistinctIds;
      hide HashId.UsedSlots;
      hide HashId.PowerOfTwo;
      hide DataBuffer.StateOk;
      hide DataBuffer.Streams;
      hide PeersOf;
      hide Injective;
      hide Ids;
      if IsFull() {
        closed := closed + [id];
      } else {
        AcceptFree(id);
      }
    }

    // hashid_full
    function IsFull(): (r: bool)
      reads this, hash, buf, hash.id, hash.hash
      requires Valid()
      ensures r <==> |Peers()| == hash.cap
      ensures |Peers()| <= hash.cap
      ensures r <==> hash.Full()
      ensures Peers().Keys == hash.Map().Keys
    {
      PeersKeys(hash.id[..], buf.Contents(), conn);
      hash.Full()
    }

    method AcceptFree(id: nat)
      requires Valid() && id !in Peers() && !IsFull()
      modifies this`conn, hash`count, hash`chains, hash.id, hash.hash
      ensures Valid() && Peers() == old(Peers())[id := Peer(Stream(0, []), Connection(id, 0, 0))]
    {
      hide HashId.TableOk;
      hide HashId.Content;
      hide HashId.DistinctIds;
      hide HashId.UsedSlots;
      hide HashId.PowerOfTwo;
      hide DataBuffer.StateOk;
      hide DataBuffer.Streams;
      hide PeersOf;
      hide Injective;
      hide Ids;
      var slot := AddSlot(id);
      conn := conn[slot := conn[slot].(id := id)];
      PeersAt(hash.Map(), buf.Contents(), old(conn), conn, id);
    }

    // The slot for a new socket.
    method AddSlot(id: nat) returns (slot: nat)
      requires Valid() && id !in Peers() && !IsFull()
      modifies hash`count, hash`chains, hash.id, hash.hash
      ensures Valid() && id in hash.Map() && hash.Map()[id] == slot < |conn|
      ensures Injective(hash.Map()) && hash.id[slot].id != -1
      ensures buf.Contents()[slot] == Stream(0, []) && conn[slot] == Connection(-1, 0, 0)
      ensures Peers() == old(Peers())[id := Peer(Stream(0, []), Connection(-1, 0, 0))]
    {
      ghost var nodes, ids := hash.id[..], hash.Map();
      TableIds(nodes, hash.hash[..], hash.chains);
      slot := hash.Insert(id);
      TableIds(hash.id[..], hash.hash[..], hash.chains);
      IdsOk(hash.id[..]);
      InsertedIds(nodes, hash.id[..], id, slot);
      PeersInsert(ids, buf.Contents(), conn, id, slot);
      hide HashId.TableOk;
      hide HashId.Content;
      hide HashId.DistinctIds;
      hide HashId.UsedSlots;
      hide HashId.PowerOfTwo;
      hide DataBuffer.StateOk;
      hide DataBuffer.Streams;
      hide Injective;
      hide Ids;
    }

    // The connect command: the connection's slot gets an agent but no identifier.
    method Connect(fd: nat, source: nat)
      requires Valid() && fd !in Peers()
      modifies this`conn, hash`count, hash`chains, hash.id, hash.hash
      ensures Valid() && forwarded == old(forwarded) && closed == old(closed)
      ensures |old(Peers())| == hash.cap ==> Peers() == old(Peers())
      ensures |old(Peers())| < hash.cap ==>
        Peers() == old(Peers())[fd := Peer(Stream(0, []), Connection(-1, source, 0))]
    {
      hide HashId.TableOk;
      hide HashId.Content;
      hide HashId.DistinctIds;
      hide HashId.UsedSlots;
      hide HashId.PowerOfTwo;
      hide DataBuffer.StateOk;
      hide DataBuffer.Streams;
      hide PeersOf;
      hide Injective;
      hide Ids;
      if !IsFull() {
        var slot := AddSlot(fd);
        ForwardAgent(fd, source, 0);
      }
    }

    // The broker command: `handle` is what its name stands for, 0 if nothing.
    method SetBroker(handle: nat)
      requires Valid()
      modifies this`broker
      ensures Valid() && broker == handle && Peers() == old(Peers())
    {
      broker := handle;
    }

    // _forward_agent
    method ForwardAgent(fd: nat, agent: nat, client: nat)
      requires Valid()
      modifies this`conn
      ensures Valid()
      ensures fd !in old(Peers()) ==> Peers() == old(Peers())
      ensures fd in old(Peers()) ==>
        Peers() ==
            old(Peers())[fd := old(Peers())[fd].(conn := old(Peers())[fd].conn.(agent := agent, client := client))]
    {
      hide HashId.TableOk;
      hide HashId.Content;
      hide HashId.DistinctIds;
      hide HashId.UsedSlots;
      hide HashId.PowerOfTwo;
      hide DataBuffer.StateOk;
      hide DataBuffer.Streams;
      hide Injective;
      TableIds(hash.id[..], hash.hash[..], hash.chains);
      IdsOk(hash.id[..]);
      var slot := hash.Lookup(fd);
      if slot >= 0 {
        conn := conn[slot := conn[slot].(agent := agent, client := client)];
        PeersAt(hash.Map(), buf.Contents(), old(conn), conn, fd);
      }
    }

    // SKYNET_SOCKET_TYPE_CLOSE and SKYNET_SOCKET_TYPE_ERROR
    method Close(id: nat)
      requires Valid()
      modifies this`conn, buf, hash`count, hash`chains, hash.id, hash.hash
      ensures Valid() && forwarded == old(forwarded) && closed == old(closed)
      ensures Peers() == old(Peers()) - {id}
    {
      hide HashId.TableOk;
      hide HashId.Content;
      hide HashId.DistinctIds;
      hide HashId.UsedSlots;
      hide HashId.PowerOfTwo;
      hide DataBuffer.StateOk;
      hide DataBuffer.Streams;
      hide PeersOf;
      hide Injective;
      hide Ids;
      ghost var nodes, ids, streams := hash.id[..], hash.Map(), buf.Contents();
      TableIds(nodes, hash.hash[..], hash.chains);
      IdsOk(nodes);
      PeersNone(ids, streams, conn, id);
      var slot := hash.Remove(id);
      TableIds(hash.id[..], hash.hash[..], hash.chains);
      RemovedIds(nodes, hash.id[..], id);
      if slot >= 0 {
        buf.Clear(slot);
        conn := conn[slot := Connection(-1, 0, 0)];
        PeersRemove(ids, streams, buf.Contents(), old(conn), conn, id);
      }
    }
  }

  ghost predicate Vacant(streams: seq<Stream>, conn: seq<Connection>, s: nat) {
    s < |streams| && s < |conn| && streams[s] == Stream(0, []) && conn[s] == Connection(-1, 0, 0)
  }

  ghost function PeersOf(ids: map<int, nat>, streams: seq<Stream>, conn: seq<Connection>): map<int, Peer> {
    map v | v in ids && ids[v] < |streams| && ids[v] < |conn| :: Peer(streams[ids[v]], conn[ids[v]])
  }

  ghost predicate Injective(ids: map<int, nat>) {
    forall v, w | v in ids && w in ids && v != w :: ids[v] != ids[w]
  }

  lemma {:induction false} IdsOk(nodes: seq<HashId.Node>)
    requires HashId.DistinctIds(nodes)
    ensures var ids := HashId.Content(nodes);
      && Injective(ids)
      && (forall v | v in ids :: ids[v] < |nodes| && nodes[ids[v]].id == v >= 0)
  {
    forall v | v in HashId.Content(nodes)
      ensures var s := HashId.Content(nodes)[v]; s < |nodes| && nodes[s].id == v >= 0
    {
      HashId.ContentAt(nodes, v);
    }
  }

  lemma {:induction false} PeersData(ids: map<int, nat>, streams: seq<Stream>, conn: seq<Connection>, v: int,
      st: Stream)
    requires Injective(ids) && v in ids && ids[v] < |streams| == |conn|
    ensures PeersOf(ids, streams[ids[v] := st], conn) == PeersOf(ids, streams, conn)[v := Peer(st, conn[ids[v]])]
  {
    var a, b := PeersOf(ids, streams[ids[v] := st], conn), PeersOf(ids, streams, conn)[v := Peer(st, conn[ids[v]])];
    forall w
      ensures w in a <==> w in b
      ensures w in a ==> a[w] == b[w]
    {
      if w in ids && w != v {
        assert ids[w] != ids[v];
      }
    }
  }

  lemma {:induction false} PeersKeys(nodes: seq<HashId.Node>, streams: seq<Stream>, conn: seq<Connection>)
    requires HashId.DistinctIds(nodes) && |nodes| == |streams| == |conn|
    ensures PeersOf(HashId.Content(nodes), streams, conn).Keys == HashId.Content(nodes).Keys
    ensures |PeersOf(HashId.Content(nodes), streams, conn)| == |HashId.Content(nodes)| <= |nodes|
  {
    IdsOk(nodes);
    HashId.ContentSize(nodes);
    var p := PeersOf(HashId.Content(nodes), streams, conn);
    assert p.Keys == HashId.Content(nodes).Keys;
    assert |p| == |p.Keys| && |HashId.Content(nodes)| == |HashId.Content(nodes).Keys|;
  }

  ghost predicate Ids(nodes: seq<HashId.Node>) {
    HashId.DistinctIds(nodes) && forall s | 0 <= s < |nodes| :: nodes[s].id >= -1
  }

  // What the map says about the slots.
  lemma {:induction false} SlotIds(nodes: seq<HashId.Node>, nodes': seq<HashId.Node>, s: nat)
    requires Ids(nodes) && Ids(nodes') && s < |nodes| == |nodes'|
    requires forall v ::
      v in HashId.Content(nodes) && HashId.Content(nodes)[v] == s <==>
          v in HashId.Content(nodes') && HashId.Content(nodes')[v] == s
    ensures nodes'[s].id == nodes[s].id
  {
    HashId.ContentAt(nodes, nodes[s].id);
    HashId.ContentAt(nodes', nodes[s].id);
    HashId.ContentAt(nodes, nodes'[s].id);
    HashId.ContentAt(nodes', nodes'[s].id);
    assert HashId.Used(nodes, s) <==> nodes[s].id >= 0;
    assert HashId.Used(nodes', s) <==> nodes'[s].id >= 0;
  }

  lemma {:induction false} InsertedIds(nodes: seq<HashId.Node>, nodes': seq<HashId.Node>, v: nat, slot: nat)
    requires Ids(nodes) && Ids(nodes') && slot < |nodes| == |nodes'|
    requires v !in HashId.Content(nodes) && slot !in HashId.Content(nodes).Values
    requires HashId.Content(nodes') == HashId.Content(nodes)[v := slot]
    ensures nodes[slot].id == -1 && nodes'[slot].id == v
    ensures forall s | 0 <= s < |nodes| && s != slot :: nodes'[s].id == nodes[s].id
  {
    HashId.ContentAt(nodes', v);
    HashId.ContentAt(nodes, nodes[slot].id);
    assert nodes[slot].id >= 0 ==> HashId.Used(nodes, slot);
    forall s | 0 <= s < |nodes| && s != slot
      ensures nodes'[s].id == nodes[s].id
    {
      SlotIds(nodes, nodes', s);
    }
  }

  lemma {:induction false} RemovedIds(nodes: seq<HashId.Node>, nodes': seq<HashId.Node>, v: nat)
    requires Ids(nodes) && Ids(nodes') && |nodes| == |nodes'|
    requires HashId.Content(nodes') == HashId.Content(nodes) - {v}
    ensures forall s | 0 <= s < |nodes| && !(v in HashId.Content(nodes) && HashId.Content(nodes)[v] == s) ::
      nodes'[s].id == nodes[s].id
  {
    forall s | 0 <= s < |nodes| && !(v in HashId.Content(nodes) && HashId.Content(nodes)[v] == s)
      ensures nodes'[s].id == nodes[s].id
    {
      SlotIds(nodes, nodes', s);
    }
  }

  lemma {:induction false} PeersInsert(ids: map<int, nat>, streams: seq<Stream>, conn: seq<Connection>, v: int,
      slot: nat)
    requires v !in ids && slot !in ids.Values && slot < |streams| == |conn|
    ensures PeersOf(ids[v := slot], streams, conn) == PeersOf(ids, streams, conn)[v := Peer(streams[slot], conn[slot])]
  {
  }

  lemma {:induction false} PeersRemove(ids: map<int, nat>, streams: seq<Stream>, streams': seq<Stream>,
      conn: seq<Connection>, conn': seq<Connection>, v: int)
    requires Injective(ids) && v in ids && ids[v] < |streams| == |conn|
    requires |streams'| == |streams| && |conn'| == |conn|
    requires streams' == streams[ids[v] := streams'[ids[v]]] && conn' == conn[ids[v] := conn'[ids[v]]]
    ensures PeersOf(ids - {v}, streams', conn') == PeersOf(ids, streams, conn) - {v}
  {
    forall w | w in ids && w != v
      ensures ids[w] != ids[v]
    {
    }
  }

  lemma {:induction false} PeersNone(ids: map<int, nat>, streams: seq<Stream>, conn: seq<Connection>, v: int)
    ensures v !in ids ==> ids - {v} == ids && PeersOf(ids, streams, conn) - {v} == PeersOf(ids, streams, conn)
  {
  }

  lemma {:induction false} TableIds(nodes: seq<HashId.Node>, heads: seq<Option<nat>>, chains: seq<seq<nat>>)
    requires HashId.TableOk(nodes, heads, chains)
    ensures Ids(nodes) && HashId.DistinctIds(nodes)
  {
  }

  // The state of a connection's slot changes.
  lemma {:induction false} PeersAt(ids: map<int, nat>, streams: seq<Stream>, conn: seq<Connection>,
      conn': seq<Connection>, v: int)
    requires Injective(ids) && v in ids && ids[v] < |streams| == |conn| == |conn'|
    requires conn' == conn[ids[v] := conn'[ids[v]]]
    ensures PeersOf(ids, streams, conn') == PeersOf(ids, streams, conn)[v := Peer(streams[ids[v]], conn'[ids[v]])]
  {
    var a, b := PeersOf(ids, streams, conn'), PeersOf(ids, streams, conn)[v := Peer(streams[ids[v]], conn'[ids[v]])];
    forall w
      ensures w in a <==> w in b
      ensures w in a ==> a[w] == b[w]
    {
      if w in ids && w != v {
        assert ids[w] != ids[v];
      }
    }
  }

  // Somebody takes the packets of the connection.
  predicate Taken(broker: nat, watchdog: nat, cn: Connection) {
    broker != 0 || watchdog != 0 || cn.agent != 0
  }

  function Route(broker: nat, watchdog: nat, cn: Connection, packet: bytes): Delivery {
    if broker != 0 then ToBroker(broker, packet)
    else if cn.agent != 0 then ToAgent(cn.client, cn.agent, packet)
    else ToWatchdog(watchdog, cn.id, packet)
  }

  function RouteAll(broker: nat, watchdog: nat, cn: Connection, packets: seq<bytes>): (r: seq<Delivery>)
    ensures |r| == |packets|
  {
    seq(|packets|, i requires 0 <= i < |packets| => Route(broker, watchdog, cn, packets[i]))
  }

  // Who gets them: the broker, else the agent of the connection, else the watchdog.
  lemma RouteTo(broker: nat, watchdog: nat, cn: Connection)
    ensures forall packets, i {:trigger RouteAll(broker, watchdog, cn, packets)[i]} | 0 <= i < |packets| ::
      var d := RouteAll(broker, watchdog, cn, packets)[i];
      && d.packet == packets[i]
      && (broker != 0 ==> d == ToBroker(broker, packets[i]))
      && (broker == 0 && cn.agent != 0 ==> d == ToAgent(cn.client, cn.agent, packets[i]))
      && (broker == 0 && cn.agent == 0 ==> d == ToWatchdog(watchdog, cn.id, packets[i]))
  {
  }

  lemma RouteMore(broker: nat, watchdog: nat, cn: Connection, packets: seq<bytes>, packet: bytes)
    ensures RouteAll(broker, watchdog, cn, packets + [packet]) ==
      RouteAll(broker, watchdog, cn, packets) + [Route(broker, watchdog, cn, packet)]
  {
  }

  // ----- The loop of dispatch_message -----

  // From `start`, slot `c` has been parsed as far as `now`: `done` are the packets of `p` so far.
  ghost predicate Parsing(hs: nat, start: seq<Stream>, now: seq<Stream>, c: nat, p: Parsed, done: seq<bytes>,
      taken: bool)
    requires HeaderSize(hs)
  {
    && |now| == |start| && c < |now| && now == start[c := now[c]]
    && p == Then(Parsed(done, Stream(0, []), false), Handled(hs, now[c], taken))
  }

  lemma {:induction false} ParsingStart(hs: nat, start: seq<Stream>, now: seq<Stream>, c: nat, taken: bool)
    requires HeaderSize(hs) && c < |start| && |now| == |start| && now == start[c := now[c]]
    ensures Parsing(hs, start, now, c, Handled(hs, now[c], taken), [], taken)
  {
    var p := Handled(hs, now[c], taken);
    ThenAssoc(Parsed([], Stream(0, []), false), p, p);
  }

  // What one turn of the loop forwards of a whole packet, and what it leaves.
  function Remaining(t: Stream, taken: bool): (r: Stream)
    requires 0 < t.header <= |t.bytes|
  {
    Stream(0, if taken then t.bytes[t.header..] else t.bytes)
  }

  function Passed(t: Stream, taken: bool): seq<bytes>
    requires 0 < t.header <= |t.bytes|
  {
    if taken then [t.bytes[..t.header]] else []
  }

  ghost predicate Shorter(s: Stream, t: Stream) {
    |s.bytes| < |t.bytes| || (|s.bytes| == |t.bytes| && s.header == 0 && t.header != 0)
  }

  // One turn of the loop.
  lemma {:induction false} ParsingStep(hs: nat, start: seq<Stream>, now: seq<Stream>, c: nat, p: Parsed,
      done: seq<bytes>, taken: bool)
    requires HeaderSize(hs) && Parsing(hs, start, now, c, p, done, taken)
    ensures |now| == |start| && c < |now|
    ensures var s := now[c]; var t := DataBuffer.HeaderRead(hs, s);
      if |t.bytes| < t.header || t.header < 0 || (s.header == 0 && |s.bytes| < hs) then
        !p.rejected && p.packets == done && now[c := t] == start[c := p.left]
      else if t.header >= LIMIT then
        p.rejected && p.packets == done && now[c := Stream(0, [])] == start[c := p.left]
      else if t.header > 0 then
        Parsing(hs, start, now[c := Remaining(t, taken)], c, p, done + Passed(t, taken), taken)
            && Shorter(Remaining(t, taken), s)
      else Parsing(hs, start, now[c := t], c, p, done, taken) && Shorter(t, s)
  {
    var s := now[c];
    var t := DataBuffer.HeaderRead(hs, s);
    HandleStep(hs, s, taken);
    HeaderReadShorter(hs, s);
    hide Handled;
    hide DataBuffer.HeaderRead;
    if 0 < t.header < LIMIT && t.header <= |t.bytes| {
      ThenAssoc(Parsed(done, Stream(0, []), false), Parsed(Passed(t, taken), Stream(0, []), false),
          Handled(hs, Remaining(t, taken), taken));
    }
  }

  lemma HeaderReadShorter(hs: nat, s: Stream)
    requires HeaderSize(hs)
    ensures var t := DataBuffer.HeaderRead(hs, s);
      |t.bytes| <= |s.bytes| && (|t.bytes| == |s.bytes| ==> t.header == s.header)
  {
  }

  // One turn of the loop of dispatch_message, as the parse of the stream.
  lemma {:induction false} HandleStep(hs: nat, s: Stream, taken: bool)
    requires HeaderSize(hs)
    ensures var t := DataBuffer.HeaderRead(hs, s); var q := Handled(hs, s, taken);
      if |t.bytes| < t.header || t.header < 0 || (s.header == 0 && |s.bytes| < hs) then q == Parsed([], t, false)
      else if t.header >= LIMIT then q == Parsed([], Stream(0, []), true)
      else if t.header > 0 then
        q == Then(Parsed(Passed(t, taken), Stream(0, []), false), Handled(hs, Remaining(t, taken), taken))
      else q == Handled(hs, t, taken) && |t.bytes| < |s.bytes|
  {
    hide Length;
    hide Parse;
    var t := DataBuffer.HeaderRead(hs, s);
    if !taken {
      assert s.header != 0 || |s.bytes| >= hs ==> Skim(hs, s) == Skim(hs, t);
    } else if s.header == 0 && |s.bytes| < hs {
      ParseWait(hs, s);
    } else {
      if s.header == 0 {
        ParseHeader(hs, s);
      }
      if t.header < 0 || |t.bytes| < t.header {
        ParseWait(hs, t);
      } else if t.header > 0 {
        ParseBody(hs, t);
      }
    }
  }

  // ----- Many connections -----

  datatype Event =
    | Opened(id: nat)                                 // a client is accepted
    | Dialed(id: nat, source: nat)                    // the connect command, the socket being `id`
    | Assigned(id: nat, agent: nat, client: nat)      // the forward command
    | Brokered(handle: nat)                           // the broker command
    | Received(id: nat, data: bytes)
    | Gone(id: nat)

  // A packet that came on socket `id`, and who got it.
  datatype Packet = Packet(id: int, to: Delivery)

  datatype Run = Run(peers: map<int, Peer>, broker: nat, out: seq<Packet>)

  function Tagged(id: int, ds: seq<Delivery>): (r: seq<Packet>)
    ensures |r| == |ds|
  {
    seq(|ds|, i requires 0 <= i < |ds| => Packet(id, ds[i]))
  }

  // What the gate does with data of connection `id`.
  function DataParsed(hs: nat, watch: nat, r: Run, id: int, data: bytes): Parsed
    requires HeaderSize(hs) && id in r.peers
  {
    var peer := r.peers[id];
    Handled(hs, peer.stream.(bytes := peer.stream.bytes + data), Taken(r.broker, watch, peer.conn))
  }

  // One event of a gate for `cap` connections with watchdog `watch`; a connection that finds the gate full is
  // refused.
  function Next(hs: nat, cap: nat, watch: nat, r: Run, e: Event): Run
    requires HeaderSize(hs)
  {
    match e
    case Opened(id) =>
      if |r.peers| >= cap then r else r.(peers := r.peers[id := Peer(Stream(0, []), Connection(id, 0, 0))])
    case Dialed(id, source) =>
      if |r.peers| >= cap then r else r.(peers := r.peers[id := Peer(Stream(0, []), Connection(-1, source, 0))])
    case Assigned(id, agent, client) =>
      if id !in r.peers then r
      else r.(peers := r.peers[id := r.peers[id].(conn := r.peers[id].conn.(agent := agent, client := client))])
    case Brokered(handle) => r.(broker := handle)
    case Gone(id) => r.(peers := r.peers - {id})
    case Received(id, data) =>
      if id !in r.peers then r
      else
        var p := DataParsed(hs, watch, r, id, data);
        r.(peers := r.peers[id := r.peers[id].(stream := p.left)],
           out := r.out + Tagged(id, RouteAll(r.broker, watch, r.peers[id].conn, p.packets)))
  }

  function After(hs: nat, cap: nat, watch: nat, es: seq<Event>): Run
    requires HeaderSize(hs)
  {
    if es == [] then Run(map[], 0, [])
    else Next(hs, cap, watch, After(hs, cap, watch, es[..|es| - 1]), es[|es| - 1])
  }

  // Who gets the packets of an event: the broker there is then, else the agent that the connection has then,
  // from its client, else the watchdog, with the identifier that was accepted.
  lemma {:induction false} NextTo(hs: nat, cap: nat, watch: nat, r: Run, e: Event, i: nat)
    requires HeaderSize(hs) && |r.out| <= i < |Next(hs, cap, watch, r, e).out|
    ensures e.Received? && e.id in r.peers
    ensures var p, cn := Next(hs, cap, watch, r, e).out[i], r.peers[e.id].conn;
      && p.id == e.id
      && (r.broker != 0 ==> p.to == ToBroker(r.broker, p.to.packet))
      && (r.broker == 0 && cn.agent != 0 ==> p.to == ToAgent(cn.client, cn.agent, p.to.packet))
      && (r.broker == 0 && cn.agent == 0 ==> p.to == ToWatchdog(watch, cn.id, p.to.packet))
  {
    hide DataParsed;
    hide Route;
    if e.Received? && e.id in r.peers {
      RouteTo(r.broker, watch, r.peers[e.id].conn);
    }
  }

  // What was forwarded of the packets of connection `id`.
  function Only(id: int, out: seq<Packet>): seq<bytes> {
    if out == [] then []
    else Only(id, out[..|out| - 1]) + (if out[|out| - 1].id == id then [out[|out| - 1].to.packet] else [])
  }

  // The data of connection `id` since it was opened for the last time.
  function ChunksOf(id: int, es: seq<Event>): seq<bytes> {
    if es == [] then []
    else match es[|es| - 1]
      case Received(d, data) => ChunksOf(id, es[..|es| - 1]) + (if d == id then [data] else [])
      case Gone(d) => if d == id then [] else ChunksOf(id, es[..|es| - 1])
      case _ => ChunksOf(id, es[..|es| - 1])
  }

  lemma OnlyMore(id: int, out: seq<Packet>, p: Packet)
    ensures Only(id, out + [p]) == Only(id, out) + if p.id == id then [p.to.packet] else []
  {
    assert (out + [p])[..|out|] == out;
  }

  lemma {:induction false} OnlyTagged(id: int, out: seq<Packet>, d: int, packets: seq<bytes>, ds: seq<Delivery>)
    requires |ds| == |packets| && forall i | 0 <= i < |ds| :: ds[i].packet == packets[i]
    ensures Only(id, out + Tagged(d, ds)) == Only(id, out) + if d == id then packets else []
    decreases |ds|
  {
    hide Only;
    if ds == [] {
      assert out + Tagged(d, ds) == out;
    } else {
      var n := |ds| - 1;
      assert packets == packets[..n] + [packets[n]];
      OnlyTagged(id, out, d, packets[..n], ds[..n]);
      OnlyMore(id, out + Tagged(d, ds[..n]), Packet(d, ds[n]));
      assert out + Tagged(d, ds) == out + Tagged(d, ds[..n]) + [Packet(d, ds[n])];
    }
  }

  lemma FeedNone(hs: nat)
    requires HeaderSize(hs)
    ensures Feed(hs, []) == Parsed([], Stream(0, []), false)
  {
  }

  lemma FeedMore(hs: nat, chunks: seq<bytes>, data: bytes)
    requires HeaderSize(hs)
    ensures var p := Feed(hs, chunks);
      Feed(hs, chunks + [data]) == if p.rejected then p else Then(p, Parse(hs, p.left.(bytes := p.left.bytes + data)))
  {
    assert (chunks + [data])[..|chunks|] == chunks;
  }

  // The connection is opened by the event, or closed.
  predicate Begins(e: Event, id: nat) { e == Opened(id) || (e.Dialed? && e.id == id) }

  predicate Touches(e: Event, id: nat) { Begins(e, id) || e == Gone(id) }

  // Somebody takes the packets of `id` when the event brings some.
  predicate TakenBy(watch: nat, r: Run, e: Event, id: nat) {
    e.Received? && e.id == id && id in r.peers ==> Taken(r.broker, watch, r.peers[id].conn)
  }

  // An event that neither opens nor closes connection `id`.
  lemma {:induction false} NextOnly(hs: nat, cap: nat, watch: nat, r: Run, e: Event, id: nat)
    requires HeaderSize(hs) && id in r.peers && !Touches(e, id) && TakenBy(watch, r, e, id)
    ensures var t := Next(hs, cap, watch, r, e);
      && id in t.peers
      && (if e.Received? && e.id == id then
            var p := Parse(hs, r.peers[id].stream.(bytes := r.peers[id].stream.bytes + e.data));
            t.peers[id].stream == p.left && Only(id, t.out) == Only(id, r.out) + p.packets
          else t.peers[id].stream == r.peers[id].stream && Only(id, t.out) == Only(id, r.out))
  {
    hide Parse;
    hide Skim;
    hide Tagged;
    hide Only;
    hide RouteAll;
    if e.Received? && e.id in r.peers {
      var p := DataParsed(hs, watch, r, e.id, e.data);
      RouteTo(r.broker, watch, r.peers[e.id].conn);
      OnlyTagged(id, r.out, e.id, p.packets, RouteAll(r.broker, watch, r.peers[e.id].conn, p.packets));
      assert Only(id, r.out) + [] == Only(id, r.out);
    }
  }

  lemma {:induction false} ChunksLast(id: nat, es: seq<Event>)
    requires es != [] && es[|es| - 1] != Gone(id)
    ensures var e := es[|es| - 1]; var chunks := ChunksOf(id, es[..|es| - 1]);
      ChunksOf(id, es) == if e.Received? && e.id == id then chunks + [e.data] else chunks
  {
    var chunks := ChunksOf(id, es[..|es| - 1]);
    assert chunks + [] == chunks;
  }

  // Of connection `id`, after the packets `before`, exactly those of `chunks` were forwarded.
  ghost predicate Got(hs: nat, before: seq<bytes>, r: Run, id: nat, chunks: seq<bytes>)
    requires HeaderSize(hs)
  {
    var p := Feed(hs, chunks);
    id in r.peers && r.peers[id].stream == p.left && Only(id, r.out) == before + p.packets
  }

  lemma {:induction false} GotNext(hs: nat, cap: nat, watch: nat, before: seq<bytes>, r: Run, e: Event, id: nat,
      chunks: seq<bytes>)
    requires HeaderSize(hs) && Got(hs, before, r, id, chunks) && !Touches(e, id) && TakenBy(watch, r, e, id)
    requires !Feed(hs, chunks).rejected
    ensures Got(hs, before, Next(hs, cap, watch, r, e), id,
      if e.Received? && e.id == id then chunks + [e.data] else chunks)
  {
    hide Feed;
    hide Parse;
    hide Only;
    hide Next;
    NextOnly(hs, cap, watch, r, e, id);
    if e.Received? && e.id == id {
      FeedMore(hs, chunks, e.data);
    }
  }

  // Once it is refused, a stream stays refused.
  lemma {:induction false} StillRejected(hs: nat, chunks: seq<bytes>, data: bytes)
    requires HeaderSize(hs) && !Feed(hs, chunks + [data]).rejected
    ensures !Feed(hs, chunks).rejected
  {
    FeedMore(hs, chunks, data);
  }

  // However the events of all connections are mixed: from its opening at step `n` on, of a connection that
  // was not refused and stays open, and whose packets somebody takes, exactly the packets of its own bytes are
  // forwarded.
  lemma {:induction false} Interleaved(hs: nat, cap: nat, watch: nat, es: seq<Event>, n: nat, id: nat)
    requires HeaderSize(hs) && n < |es| && Begins(es[n], id) && |After(hs, cap, watch, es[..n]).peers| < cap
    requires forall i | n < i < |es| :: !Touches(es[i], id) && TakenBy(watch, After(hs, cap, watch, es[..i]), es[i], id)
    requires !Feed(hs, ChunksOf(id, es[n..])).rejected
    ensures Got(hs, Only(id, After(hs, cap, watch, es[..n]).out), After(hs, cap, watch, es), id, ChunksOf(id, es[n..]))
  {
    hide Parse;
    hide Feed;
    hide Only;
    hide ChunksOf;
    var front, e, tail := es[..|es| - 1], es[|es| - 1], es[n..];
    ChunksLast(id, tail);
    ChunksNone(id);
    FeedNone(hs);
    if |es| == n + 1 {
      assert front == es[..n] && tail == [es[n]] && tail[..0] == [];
      var before := Only(id, After(hs, cap, watch, es[..n]).out);
      assert before + [] == before;
    } else {
      hide Got;
      hide Next;
      hide TakenBy;
      assert front[..n] == es[..n] && front[n..] == tail[..|tail| - 1] && tail[|tail| - 1] == e;
      assert forall i | 0 <= i < |front| :: front[..i] == es[..i];
      var chunks := ChunksOf(id, front[n..]);
      if e.Received? && e.id == id {
        StillRejected(hs, chunks, e.data);
      }
      Interleaved(hs, cap, watch, front, n, id);
      var before := Only(id, After(hs, cap, watch, es[..n]).out);
      GotNext(hs, cap, watch, before, After(hs, cap, watch, front), e, id, chunks);
    }
  }

  lemma ChunksNone(id: nat)
    ensures ChunksOf(id, []) == []
  {
  }

  // In particular, whatever packets the client sends are forwarded, in order and unchanged.
  lemma {:induction false} ClientsArrive(hs: nat, cap: nat, watch: nat, es: seq<Event>, n: nat, id: nat,
      ps: seq<bytes>)
    requires HeaderSize(hs) && n < |es| && Begins(es[n], id) && |After(hs, cap, watch, es[..n]).peers| < cap
    requires forall i | n < i < |es| :: !Touches(es[i], id) && TakenBy(watch, After(hs, cap, watch, es[..i]), es[i], id)
    requires (forall i | 0 <= i < |ps| :: Sendable(hs, ps[i])) && Concat(ChunksOf(id, es[n..])) == Frames(hs, ps)
    ensures Only(id, After(hs, cap, watch, es).out) == Only(id, After(hs, cap, watch, es[..n]).out) + Filled(ps)
  {
    hide TakenBy;
    hide Touches;
    PacketsArrive(hs, ps, ChunksOf(id, es[n..]));
    Interleaved(hs, cap, watch, es, n, id);
  }

  // ----- The gate plays the events -----

  function Deliveries(out: seq<Packet>): (r: seq<Delivery>)
    ensures |r| == |out|
  {
    seq(|out|, i requires 0 <= i < |out| => out[i].to)
  }

  lemma DeliveriesMore(out: seq<Packet>, id: int, ds: seq<Delivery>)
    ensures Deliveries(out + Tagged(id, ds)) == Deliveries(out) + ds
  {
  }

  // A socket is opened only when it is not open.
  ghost predicate Proper(hs: nat, cap: nat, watch: nat, es: seq<Event>)
    requires HeaderSize(hs)
  {
    forall i | 0 <= i < |es| && (es[i].Opened? || es[i].Dialed?) :: es[i].id !in After(hs, cap, watch, es[..i]).peers
  }

  // The gate is in the state of `r`, and has forwarded what `r` says.
  ghost predicate Shows(peers: map<int, Peer>, broker: nat, forwarded: seq<Delivery>, r: Run) {
    peers == r.peers && broker == r.broker && forwarded == Deliveries(r.out)
  }

  // One event.
  method PlayOne(g: Service, e: Event, ghost r: Run)
    requires g.Valid() && Shows(g.Peers(), g.broker, g.forwarded, r)
    requires e.Opened? || e.Dialed? ==> e.id !in r.peers
    modifies g, g.buf, g.hash, g.hash.id, g.hash.hash
    ensures g.Valid() && g.watchdog == old(g.watchdog)
    ensures Shows(g.Peers(), g.broker, g.forwarded, Next(g.headerSize, g.hash.cap, g.watchdog, r, e))
    ensures g.hash.id == old(g.hash.id) && g.hash.hash == old(g.hash.hash) && g.hash.cap == old(g.hash.cap)
  {
    hide Handled;
    hide RouteAll;
    hide Taken;
    hide Deliveries;
    hide PeersOf;
    hide Vacant;
    hide HashId.TableOk;
    hide HashId.Content;
    hide HashId.UsedSlots;
    hide HashId.PowerOfTwo;
    hide DataBuffer.StateOk;
    hide DataBuffer.Settled;
    hide DataBuffer.Streams;
    PeersSize(g);
    match e
    case Opened(id) => g.Accept(id);
    case Dialed(id, source) => g.Connect(id, source);
    case Assigned(id, agent, client) => g.ForwardAgent(id, agent, client);
    case Brokered(handle) => g.SetBroker(handle);
    case Gone(id) => g.Close(id);
    case Received(id, data) =>
      if id in r.peers {
        ghost var p := DataParsed(g.headerSize, g.watchdog, r, id, data);
        DeliveriesMore(r.out, id, RouteAll(r.broker, g.watchdog, r.peers[id].conn, p.packets));
      }
      g.Data(id, data);
  }

  lemma PeersSize(g: Service)
    requires g.Valid()
    ensures |g.Peers()| <= g.hash.cap
  {
    PeersKeys(g.hash.id[..], g.buf.Contents(), g.conn);
  }

  // A run of the gate is what After says, whatever its broker, agents and watchdog.
  method Play(g: Service, es: seq<Event>)
    requires g.Valid() && g.broker == 0 && g.Peers() == map[] && g.forwarded == []
    requires Proper(g.headerSize, g.hash.cap, g.watchdog, es)
    modifies g, g.buf, g.hash, g.hash.id, g.hash.hash
    ensures g.Valid() && g.watchdog == old(g.watchdog)
    ensures Shows(g.Peers(), g.broker, g.forwarded, After(g.headerSize, old(g.hash.cap), g.watchdog, es))
  {
    hide Shows;
    hide Next;
    ghost var cap, watch := g.hash.cap, g.watchdog;
    ShowsNone(g.headerSize, cap, watch);
    for i := 0 to |es|
      invariant g.Valid() && g.watchdog == watch && g.hash.cap == cap
      invariant g.hash.id == old(g.hash.id) && g.hash.hash == old(g.hash.hash)
      invariant Shows(g.Peers(), g.broker, g.forwarded, After(g.headerSize, cap, watch, es[..i]))
    {
      assert es[..i + 1][..i] == es[..i];
      PlayOne(g, es[i], After(g.headerSize, cap, watch, es[..i]));
    }
    assert es[..|es|] == es;
  }

  lemma ShowsNone(hs: nat, cap: nat, watch: nat)
    requires HeaderSize(hs)
    ensures Shows(map[], 0, [], After(hs, cap, watch, []))
  {
  }
}
