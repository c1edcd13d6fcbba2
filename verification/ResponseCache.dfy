/**
 The response cache of one user of the message server, and the steps that change it. A handler may
 run for long: its request begins in one step and ends in another, with any steps in between.
 */
module ResponseCache {
  import opened Words

  // An entry of u.response: { return fd, packet, version, index }. `session` and `from` (the connection of
  // its first request) are what the function that made it remembers; `born` counts the completions before
  // its last one.
  datatype Entry = Entry(session: word, from: nat, fd: Option<nat>, packet: Option<bytes>, version: Option<nat>,
                         index: nat, born: nat)

  datatype Event =
    | Asked(fd: nat, id: nat)                   // a request was taken as one for entry `id`
    | Called(id: nat, body: bytes)              // the handler was called
    | Sent(fd: nat, id: nat, packet: bytes)

  datatype Core = Core(
    expired: nat,                 // expired_number
    version: nat,                 // u.version: the index of the newest authentication
    index: nat,                   // u.index
    response: map<word, nat>,     // u.response: the entry of each session
    entries: map<nat, Entry>,     // every entry made
    running: set<nat>,            // entries whose handler is at work
    connection: set<nat>,         // the user's connections
    live: set<nat>,               // those whose messages arrive: gateserver has not closed them
    next: nat,
    tick: nat,                    // how many responses were completed or sent again
    log: seq<Event>)

  datatype Reply = Answer(data: bytes) | Failed

  // ----- Packets -----

  // ">I4"
  function Big(x: word): (b: bytes)
    ensures |b| == 4
  {
    [x / 16777216, x / 65536 % 256, x / 256 % 256, x % 256]
  }

  // The session in the last four bytes of a message.
  function SessionOf(m: bytes): word
    requires |m| >= 4
  {
    var o := |m| - 4;
    16777216 * (m[o] as int) + 65536 * (m[o + 1] as int) + 256 * (m[o + 2] as int) + m[o + 3] as int
  }

  function ResultOf(reply: Reply, session: word): bytes {
    match reply
    case Answer(data) => data + ([1] + Big(session))
    case Failed => [0] + Big(session)
  }

  // ">s2": none when the length does not fit.
  function Packed(result: bytes): (r: Option<bytes>) {
    if |result| < 65536 then Some([|result| / 256, |result| % 256] + result) else None
  }

  // A client that strips the length finds the session it asked with, and the answer.
  lemma {:induction false} PacketRound(reply: Reply, session: word)
    requires Packed(ResultOf(reply, session)).Some?
    ensures var p := Packed(ResultOf(reply, session)).value;
      && 256 * (p[0] as int) + (p[1] as int) == |p| - 2
      && SessionOf(p) == session
      && (reply.Answer? ==> p[2..|p| - 5] == reply.data && p[|p| - 5] == 1)
      && (reply.Failed? ==> |p| == 7 && p[2] == 0)
  {
    var r := ResultOf(reply, session);
    var p := Packed(r).value;
    assert r[|r| - 4..] == Big(session);
    assert p[|p| - 4..] == r[|r| - 4..];
    assert session / 65536 == session / 256 / 256 && session / 16777216 == session / 65536 / 256;
    if reply.Answer? {
      assert p[2..|p| - 5] == r[..|r| - 5] == reply.data;
      assert r[|r| - 5] == 1;
    }
  }

  // In bytes: the session is the last four of a message, the most significant first, and a packet begins with
  // its length in two bytes.
  lemma PacketBytes()
    ensures SessionOf([104, 105, 0, 0, 1, 2]) == 258
    ensures ResultOf(Answer([5, 6]), 258) == [5, 6, 1, 0, 0, 1, 2] && ResultOf(Failed, 258) == [0, 0, 0, 1, 2]
    ensures Packed([7, 8, 9]) == Some([0, 3, 7, 8, 9])
  {
    assert Big(258) == [0, 0, 1, 2];
    assert |[7, 8, 9]| == 3 && [0, 3] + [7, 8, 9] == [0, 3, 7, 8, 9];
  }

  // A result has at most 65535 bytes.
  lemma PackedLimit(result: bytes)
    ensures Packed(result).Some? <==> |result| <= 65535
  {
  }

  // ----- Steps -----

  // retire_response

  ghost predicate Done(k: Core, s: word) {
    s in k.response && k.response[s] in k.entries && k.entries[k.response[s]].fd == None
  }

  ghost function IndexOf(k: Core, s: word): nat
    requires Done(k, s)
  {
    k.entries[k.response[s]].index
  }

  ghost predicate Attached(k: Core, id: nat) {
    id in k.entries && k.entries[id].session in k.response && k.response[k.entries[id].session] == id
  }

  // The completed responses that the next renumbering keeps.
  ghost predicate Young(k: Core, s: word) {
    Done(k, s) && IndexOf(k, s) >= k.expired
  }

  // The largest new index, or 0.
  ghost predicate IsTop(k: Core, m: nat) {
    && (forall s | Young(k, s) :: IndexOf(k, s) - k.expired <= m)
    && (m == 0 || exists s :: Young(k, s) && IndexOf(k, s) - k.expired == m)
  }

  ghost function Renumbered(k: Core, m: nat): Core {
    k.(response := map s | s in k.response && (Done(k, s) ==> Young(k, s)) :: k.response[s],
       entries := map id | id in k.entries ::
         if Attached(k, id) && Young(k, k.entries[id].session)
         then k.entries[id].(index := IndexOf(k, k.entries[id].session) - k.expired)
         else k.entries[id],
       index := m + 1)
  }

  // `r` is what retire_response makes of `k`.
  ghost predicate Retires(k: Core, r: Core) {
    if k.index < 2 * k.expired then r == k
    else r.index > 0 && IsTop(k, r.index - 1) && r == Renumbered(k, r.index - 1)
  }

  // The end of do_request: the packet goes to the newest connection that asked, if it is open.
  function Completed(k: Core, id: nat, packet: bytes): Core
    requires id in k.entries && k.entries[id].fd.Some?
  {
    var e := k.entries[id];
    k.(entries := k.entries[id := e.(fd := None, packet := Some(packet), version := Some(k.version), index := k.index,
        born := k.tick)],
       index := k.index + 1, tick := k.tick + 1,
       log := if e.fd.value in k.connection then k.log + [Sent(e.fd.value, id, packet)] else k.log)
  }

  // A request that finds its session's entry changes where the result goes.
  function Joined(k: Core, id: nat, fd: nat): Core
    requires id in k.entries
  {
    k.(entries := k.entries[id := k.entries[id].(fd := Some(fd), version := Some(k.version), index := k.index)],
       log := k.log + [Asked(fd, id)])
  }

  // A request that starts its handler.
  function Started(k: Core, s: word, fd: nat, body: bytes): Core {
    k.(response := k.response[s := k.next], entries := k.entries[k.next := Entry(s, fd, Some(fd), None, None, 0, 0)],
       running := k.running + {k.next}, next := k.next + 1, log := k.log + [Asked(fd, k.next), Called(k.next, body)])
  }

  function Forgotten(k: Core, s: word): Core {
    k.(response := k.response - {s})
  }

  // gateserver.closeclient, after an error in do_request: no more messages of the connection arrive.
  function Closed(k: Core, fd: nat): Core {
    k.(live := k.live - {fd})
  }

  // The session was used before on the newest authentication.
  predicate Reused(k: Core, s: word) {
    s in k.response && k.response[s] in k.entries && k.entries[k.response[s]].version == Some(k.version)
  }

  // The request has its handler called.
  predicate Calls(k: Core, s: word) {
    s !in k.response || (Reused(k, s) && k.entries[k.response[s]].packet.Some?)
  }

  // The steps.
  datatype Step =
    | Login(fd: nat, version: nat)              // do_auth
    | Ask(fd: nat, message: bytes)              // do_request up to the call of the handler
    | End(id: nat, reply: Reply)                // do_request from there
    | Drop(fd: nat)                             // the connection is gone

  // What request does with a message, up to the call of the handler. A message of a closed connection is
  // dropped; one without a session, or for a session whose handler was joined on the newest authentication
  // already, closes its connection.
  ghost predicate Asks(k: Core, fd: nat, m: bytes, r: Core) {
    if fd !in k.live then r == k
    else if |m| < 4 then r == Closed(k, fd)
    else
      var s := SessionOf(m);
      if s !in k.response then r == Started(k, s, fd, m[..|m| - 4])
      else if k.response[s] !in k.entries then false
      else
        var id := k.response[s];
        var e := k.entries[id];
        if Reused(k, s) then
          r == if e.packet.None? then Closed(Forgotten(k, s), fd) else Started(Forgotten(k, s), s, fd, m[..|m| - 4])
        else if e.packet.None? then r == Joined(k, id, fd)
        else Retires(Completed(Joined(k, id, fd), id, e.packet.value), r)
  }

  // And after it: a result that is too long to pack leaves the entry as it is and closes the connection of
  // its first request.
  ghost predicate Ends(k: Core, id: nat, reply: Reply, r: Core) {
    && id in k.running && id in k.entries && k.entries[id].fd.Some?
    && var k' := k.(running := k.running - {id});
       match Packed(ResultOf(reply, k.entries[id].session))
       case None => r == Closed(k', k.entries[id].from)
       case Some(packet) => Retires(Completed(k', id, packet), r)
  }

  ghost predicate Steps(k: Core, step: Step, r: Core) {
    match step
    case Login(fd, version) => version > k.version
        && r == k.(version := version, connection := k.connection + {fd}, live := k.live + {fd})
    case Ask(fd, m) => Asks(k, fd, m, r)
    case End(id, reply) => Ends(k, id, reply, r)
    case Drop(fd) => r == k.(connection := k.connection - {fd}, live := k.live - {fd})
  }

  // `ks` is a run from its first state to its last.
  ghost predicate Run(ks: seq<Core>, steps: seq<Step>) {
    |ks| == |steps| + 1 && forall i | 0 <= i < |steps| :: Steps(ks[i], steps[i], ks[i + 1])
  }

  // ----- What every step keeps -----

  ghost predicate Waiting(e: Entry) { e.fd.Some? && e.packet.None? }

  ghost predicate Over(e: Entry) { e.fd.None? && e.packet.Some? && e.version.Some? }

  ghost predicate Shape(k: Core) {
    && k.expired >= 1
    && k.live <= k.connection
    && (forall id | id in k.entries :: id < k.next && (Waiting(k.entries[id]) || Over(k.entries[id])))
    && (forall s | s in k.response :: k.response[s] in k.entries && k.entries[k.response[s]].session == s)
    && (forall id | id in k.running :: id in k.entries && Waiting(k.entries[id]))
    && (forall id | id in k.entries :: k.entries[id].version.Some? ==> k.entries[id].version.value <= k.version)
  }

  // The index of a completed response never lags further behind than its age.
  ghost predicate SlotOk(k: Core, s: word)
    requires Done(k, s)
  {
    var e := k.entries[k.response[s]];
    e.index < k.index && e.born < k.tick && k.index - e.index <= k.tick - e.born
  }

  ghost predicate Slots(k: Core) {
    && (forall s | Done(k, s) :: SlotOk(k, s))
    && (forall s, t | Done(k, s) && Done(k, t) && s != t :: IndexOf(k, s) != IndexOf(k, t))
  }

  ghost predicate Inv(k: Core) {
    Shape(k) && Slots(k) && k.index < 2 * k.expired
  }

  // No entry that was completed and is not in the cache any more, except by age.
  lemma {:induction false} RetireShape(k: Core, r: Core)
    requires Shape(k) && Retires(k, r)
    ensures Shape(r)
  {
  }

  lemma {:induction false} RetireDone(k: Core, r: Core, s: word)
    requires Shape(k) && Retires(k, r)
    ensures Done(r, s) ==> Done(k, s) && r.response[s] == k.response[s]
    ensures Done(r, s) && k.index >= 2 * k.expired ==> Young(k, s) && IndexOf(r, s) == IndexOf(k, s) - k.expired
    ensures Done(r, s) ==> r.entries[r.response[s]] == k.entries[k.response[s]].(index := IndexOf(r, s))
  {
    if Done(r, s) {
      assert Attached(k, k.response[s]);
    }
  }

  lemma {:induction false} RetireSlots(k: Core, r: Core)
    requires Shape(k) && Slots(k) && k.index <= 2 * k.expired && Retires(k, r)
    ensures Slots(r) && r.index < 2 * r.expired
  {
    forall s | Done(r, s)
      ensures SlotOk(r, s)
    {
      RetireDone(k, r, s);
      assert SlotOk(k, s);
    }
    forall s, t | Done(r, s) && Done(r, t) && s != t
      ensures IndexOf(r, s) != IndexOf(r, t)
    {
      RetireDone(k, r, s);
      RetireDone(k, r, t);
    }
    if k.index == 2 * k.expired && r.index > 1 {
      var s :| Young(k, s) && IndexOf(k, s) - k.expired == r.index - 1;
      assert SlotOk(k, s);
    }
  }

  // The other entries stay as they are.
  lemma {:induction false} CompletedSlots(k: Core, id: nat, packet: bytes)
    requires Inv(k) && id in k.entries && k.entries[id].fd.Some? && id !in k.running
    ensures var c := Completed(k, id, packet); Shape(c) && Slots(c) && c.index <= 2 * c.expired
  {
    var c := Completed(k, id, packet);
    assert forall s | Done(c, s) && k.response[s] != id :: Done(k, s) && SlotOk(k, s);
    forall s, t | Done(c, s) && Done(c, t) && s != t
      ensures IndexOf(c, s) != IndexOf(c, t)
    {
      assert k.response[s] != id ==> Done(k, s) && SlotOk(k, s) && IndexOf(k, s) == IndexOf(c, s);
      assert k.response[t] != id ==> Done(k, t) && SlotOk(k, t) && IndexOf(k, t) == IndexOf(c, t);
    }
  }

  lemma {:induction false} RetireInv(c: Core, r: Core)
    requires Shape(c) && Slots(c) && c.index <= 2 * c.expired && Retires(c, r)
    ensures Inv(r)
  {
    RetireSlots(c, r);
    RetireShape(c, r);
  }

  lemma {:induction false} JoinedShape(k: Core, id: nat, fd: nat)
    requires Inv(k) && id in k.entries
    requires id !in k.running || k.entries[id].packet.None?
    ensures k.entries[id].packet.None? ==> Inv(Joined(k, id, fd))
    ensures forall s | Done(Joined(k, id, fd), s) :: Done(k, s) && k.response[s] != id && SlotOk(Joined(k, id, fd), s)
  {
    var j := Joined(k, id, fd);
    assert forall s | Done(j, s) :: Done(k, s) && SlotOk(k, s) && IndexOf(j, s) == IndexOf(k, s);
  }

  lemma {:induction false} ResentSlots(k: Core, id: nat, fd: nat)
    requires Inv(k) && id in k.entries && k.entries[id].packet.Some?
    ensures var c := Completed(Joined(k, id, fd), id, k.entries[id].packet.value);
      Shape(c) && Slots(c) && c.index <= 2 * c.expired
  {
    var j := Joined(k, id, fd);
    var c := Completed(j, id, k.entries[id].packet.value);
    JoinedShape(k, id, fd);
    assert forall s | Done(c, s) && k.response[s] != id :: Done(k, s) && SlotOk(k, s) && IndexOf(k, s) == IndexOf(c, s);
    forall s, t | Done(c, s) && Done(c, t) && s != t
      ensures IndexOf(c, s) != IndexOf(c, t)
    {
      assert k.response[s] != id ==> Done(k, s) && SlotOk(k, s) && IndexOf(k, s) == IndexOf(c, s);
      assert k.response[t] != id ==> Done(k, t) && SlotOk(k, t) && IndexOf(k, t) == IndexOf(c, t);
    }
  }

  lemma {:induction false} StartedInv(k: Core, s: word, fd: nat, body: bytes)
    requires Inv(k) && s !in k.response
    ensures Inv(Started(k, s, fd, body))
  {
    var r := Started(k, s, fd, body);
    assert forall t | Done(r, t) :: Done(k, t) && SlotOk(k, t) && IndexOf(r, t) == IndexOf(k, t);
  }

  lemma {:induction false} ForgottenInv(k: Core, s: word)
    requires Inv(k)
    ensures Inv(Forgotten(k, s))
  {
    var r := Forgotten(k, s);
    assert forall t | Done(r, t) :: Done(k, t) && SlotOk(k, t) && IndexOf(r, t) == IndexOf(k, t);
  }

  lemma {:induction false} StepInv(k: Core, step: Step, r: Core)
    requires Inv(k) && Steps(k, step, r)
    ensures Inv(r)
  {
    hide Slots;
    match step
    case Login(fd, version) => SameSlots(k, r);
    case Drop(fd) => SameSlots(k, r);
    case End(id, reply) =>
      var k' := k.(running := k.running - {id});
      SameSlots(k, k');
      SameSlots(k', Closed(k', k.entries[id].from));
      if Packed(ResultOf(reply, k.entries[id].session)).Some? {
        var packet := Packed(ResultOf(reply, k.entries[id].session)).value;
        CompletedSlots(k', id, packet);
        RetireInv(Completed(k', id, packet), r);
      }
    case Ask(fd, m) =>
      if fd in k.live && |m| < 4 {
        SameSlots(k, r);
      } else if fd in k.live {
        var s := SessionOf(m);
        if s !in k.response {
          StartedInv(k, s, fd, m[..|m| - 4]);
        } else if Reused(k, s) {
          ForgottenInv(k, s);
          SameSlots(Forgotten(k, s), Closed(Forgotten(k, s), fd));
          StartedInv(Forgotten(k, s), s, fd, m[..|m| - 4]);
        } else if k.entries[k.response[s]].packet.None? {
          JoinedShape(k, k.response[s], fd);
        } else {
          var id := k.response[s];
          ResentSlots(k, id, fd);
          RetireInv(Completed(Joined(k, id, fd), id, k.entries[id].packet.value), r);
        }
      }
  }

  lemma {:induction false} SameSlots(k: Core, r: Core)
    requires Slots(k)
    requires r.response == k.response && r.entries == k.entries && r.index == k.index && r.tick == k.tick
    ensures Slots(r)
  {
    assert forall t | Done(r, t) :: Done(k, t) && SlotOk(k, t) && IndexOf(r, t) == IndexOf(k, t);
  }

  function Fresh(expired: nat): Core {
    Core(expired, 0, 0, map[], map[], {}, {}, {}, 0, 0, [])
  }

  lemma FreshInv(expired: nat)
    requires expired >= 1
    ensures Inv(Fresh(expired)) && Logged(Fresh(expired))
  {
  }

  lemma {:induction false} RunInv(ks: seq<Core>, steps: seq<Step>)
    requires Run(ks, steps) && Inv(ks[0])
    ensures forall i | 0 <= i < |ks| :: Inv(ks[i])
  {
    hide Inv;
    hide Steps;
    for i := 0 to |steps|
      invariant forall j | 0 <= j <= i :: Inv(ks[j])
    {
      StepInv(ks[i], steps[i], ks[i + 1]);
    }
  }

  // ----- The cache is bounded -----

  lemma {:induction false} Pigeons(a: set<word>, f: map<word, nat>, n: nat)
    requires forall s | s in a :: s in f && f[s] < n
    requires forall s, t | s in a && t in a && s != t :: f[s] != f[t]
    ensures |a| <= n
    decreases n
  {
    if s :| s in a && f[s] == n - 1 {
      Pigeons(a - {s}, f, n - 1);
    } else if n > 0 {
      Pigeons(a, f, n - 1);
    } else if s :| s in a {
      assert f[s] < 0;
    }
  }

  // However long the run, fewer than twice expired_number completed responses are cached.
  lemma {:induction false} CacheBounded(ks: seq<Core>, steps: seq<Step>, cached: set<word>)
    requires Run(ks, steps) && Inv(ks[0])
    requires forall s | s in cached :: Done(ks[|steps|], s)
    ensures |cached| <= ks[|steps|].index < 2 * ks[|steps|].expired
  {
    RunInv(ks, steps);
    var k := ks[|steps|];
    var f := map s | s in cached :: IndexOf(k, s);
    assert forall s | s in cached :: SlotOk(k, s);
    Pigeons(cached, f, k.index);
  }

  // ----- A completed response stays for expired_number completions -----

  predicate AsksFor(step: Step, s: word) {
    step.Ask? && |step.message| >= 4 && SessionOf(step.message) == s
  }

  // The request is looked at: its connection is open.
  predicate Asking(k: Core, step: Step, s: word) {
    AsksFor(step, s) && step.fd in k.live
  }

  // It then gets the response of the entry that is there: at once, or when the handler ends.
  predicate Served(k: Core, s: word) {
    s in k.response && !Reused(k, s)
  }

  ghost predicate Kept(k: Core, r: Core, s: word) {
    && Done(k, s) && Done(r, s) && r.response[s] == k.response[s]
    && r.entries[k.response[s]] == k.entries[k.response[s]].(index := IndexOf(r, s))
  }

  ghost function Born(k: Core, s: word): nat
    requires Done(k, s)
  {
    k.entries[k.response[s]].born
  }

  // What can happen to the completed response of a session that is not asked for.
  ghost predicate KeptOrOld(k: Core, r: Core, s: word) {
    && Done(k, s)
    && (Kept(k, r, s) || s !in r.response)
    && (s !in r.response ==> r.tick - Born(k, s) > k.expired)
  }

  lemma {:induction false} RetireKept(k: Core, r: Core, s: word)
    requires Shape(k) && Slots(k) && Retires(k, r) && Done(k, s)
    ensures KeptOrOld(k, r, s)
  {
    assert SlotOk(k, s);
    assert Attached(k, k.response[s]);
    if s in r.response {
      RetireDone(k, r, s);
    }
  }

  lemma {:induction false} StepMonotone(k: Core, step: Step, r: Core)
    requires Steps(k, step, r)
    ensures r.expired == k.expired && r.tick >= k.tick && r.version >= k.version
    ensures r.version > k.version <==> step.Login?
  {
  }

  lemma {:induction false} EndKept(k: Core, id: nat, reply: Reply, r: Core, s: word)
    requires Inv(k) && Ends(k, id, reply, r) && Done(k, s)
    ensures KeptOrOld(k, r, s)
  {
    var k' := k.(running := k.running - {id});
    SameSlots(k, k');
    if Packed(ResultOf(reply, k.entries[id].session)).Some? {
      var packet := Packed(ResultOf(reply, k.entries[id].session)).value;
      CompletedSlots(k', id, packet);
      RetireKept(Completed(k', id, packet), r, s);
    }
  }

  lemma {:induction false} AskKept(k: Core, fd: nat, m: bytes, r: Core, s: word)
    requires Inv(k) && Asks(k, fd, m, r) && Done(k, s) && !Asking(k, Ask(fd, m), s)
    ensures KeptOrOld(k, r, s)
  {
    if fd in k.live && |m| >= 4 && SessionOf(m) in k.response && !Reused(k, SessionOf(m)) {
      var id := k.response[SessionOf(m)];
      if k.entries[id].packet.Some? {
        var c := Completed(Joined(k, id, fd), id, k.entries[id].packet.value);
        ResentSlots(k, id, fd);
        RetireKept(c, r, s);
      }
    }
  }

  lemma {:induction false} StepKept(k: Core, step: Step, r: Core, s: word)
    requires Inv(k) && Steps(k, step, r) && Done(k, s) && !Asking(k, step, s)
    ensures KeptOrOld(k, r, s)
  {
    match step
    case Login(_, _) =>
    case Drop(_) =>
    case End(id, reply) => EndKept(k, id, reply, r, s);
    case Ask(fd, m) => AskKept(k, fd, m, r, s);
  }

  // A session leaves the cache for good until somebody asks for it.
  lemma {:induction false} StepGone(k: Core, step: Step, r: Core, s: word)
    requires Steps(k, step, r) && s !in k.response && !Asking(k, step, s)
    ensures s !in r.response
  {
  }

  // The same packet is cached, and it was completed or sent again when `born` others had been, on `version`.
  ghost predicate Holds(k: Core, r: Core, s: word, born: nat, version: Option<nat>)
    requires Done(k, s)
  {
    && Done(r, s) && r.response[s] == k.response[s]
    && var e := r.entries[r.response[s]];
    e.packet == k.entries[k.response[s]].packet && e.born == born && e.version == version
  }

  // A retry on another authentication than the last one: the packet is sent again and is young again.
  lemma {:induction false} ResentKept(k: Core, step: Step, r: Core, s: word)
    requires Inv(k) && Steps(k, step, r) && Done(k, s) && Asking(k, step, s) && Served(k, s)
    ensures Holds(k, r, s, k.tick, Some(k.version)) && r.tick == k.tick + 1
    ensures step.fd in k.connection ==>
      r.log == k.log + [Asked(step.fd, k.response[s]),
                        Sent(step.fd, k.response[s], k.entries[k.response[s]].packet.value)]
  {
    var id := k.response[s];
    ResentSlots(k, id, step.fd);
    var c := Completed(Joined(k, id, step.fd), id, k.entries[id].packet.value);
    RetireKept(c, r, s);
  }

  // The last request for `s` in steps `from` to `n`.
  ghost function LastAsk(ks: seq<Core>, steps: seq<Step>, s: word, from: nat, n: nat): (r: Option<nat>)
    requires from <= n <= |steps| < |ks|
    ensures r.Some? ==> from <= r.value < n
  {
    if n == from then None
    else if Asking(ks[n - 1], steps[n - 1], s) then Some(n - 1)
    else LastAsk(ks, steps, s, from, n - 1)
  }

  // When the response that is complete at `from` was last completed or sent again, and on which version.
  ghost function Renewed(ks: seq<Core>, steps: seq<Step>, s: word, from: nat, n: nat): nat
    requires from <= n <= |steps| < |ks| && Done(ks[from], s)
  {
    match LastAsk(ks, steps, s, from, n)
    case None => Born(ks[from], s)
    case Some(j) => ks[j].tick
  }

  ghost function RenewedOn(ks: seq<Core>, steps: seq<Step>, s: word, from: nat, n: nat): Option<nat>
    requires from <= n <= |steps| < |ks| && Done(ks[from], s)
  {
    match LastAsk(ks, steps, s, from, n)
    case None => ks[from].entries[ks[from].response[s]].version
    case Some(j) => Some(ks[j].version)
  }

  // From `from` to `n`: the response is still there, or has left the cache by its age.
  ghost predicate HoldsOrOld(ks: seq<Core>, steps: seq<Step>, s: word, from: nat, n: nat)
    requires from <= n <= |steps| < |ks| && Done(ks[from], s)
  {
    if s in ks[n].response then
      Holds(ks[from], ks[n], s, Renewed(ks, steps, s, from, n), RenewedOn(ks, steps, s, from, n))
    else ks[n].tick - Renewed(ks, steps, s, from, n) > ks[n].expired
  }

  lemma {:induction false} StepHolds(ks: seq<Core>, steps: seq<Step>, s: word, from: nat, n: nat)
    requires from <= n < |steps| < |ks| && Inv(ks[n]) && Steps(ks[n], steps[n], ks[n + 1]) && Done(ks[from], s)
    requires HoldsOrOld(ks, steps, s, from, n) && (Asking(ks[n], steps[n], s) ==> Served(ks[n], s))
    ensures HoldsOrOld(ks, steps, s, from, n + 1)
  {
    hide Inv;
    hide Steps;
    hide Asking;
    StepMonotone(ks[n], steps[n], ks[n + 1]);
    if Asking(ks[n], steps[n], s) {
      ResentKept(ks[n], steps[n], ks[n + 1], s);
    } else if s in ks[n].response {
      StepKept(ks[n], steps[n], ks[n + 1], s);
    } else {
      StepGone(ks[n], steps[n], ks[n + 1], s);
    }
  }

  // While every request for its session is served, a completed response stays until it is old.
  lemma {:induction false} RunHolds(ks: seq<Core>, steps: seq<Step>, s: word, from: nat)
    requires Run(ks, steps) && from <= |steps| && Inv(ks[from]) && Done(ks[from], s)
    requires forall j | from <= j < |steps| && Asking(ks[j], steps[j], s) :: Served(ks[j], s)
    ensures HoldsOrOld(ks, steps, s, from, |steps|)
  {
    hide Inv;
    hide Steps;
    hide Asking;
    for n := from to |steps|
      invariant Inv(ks[n]) && HoldsOrOld(ks, steps, s, from, n)
    {
      StepInv(ks[n], steps[n], ks[n + 1]);
      StepHolds(ks, steps, s, from, n);
    }
  }

  // Whatever happens, a completed response is still cached as long as at most expired_number responses were
  // completed or sent again since it was, its own included, and unless its session is used again on the
  // authentication on which it was.
  lemma {:induction false} RecentKept(ks: seq<Core>, steps: seq<Step>, s: word)
    requires Run(ks, steps) && Inv(ks[0]) && Done(ks[0], s)
    requires forall j | 0 <= j < |steps| && Asking(ks[j], steps[j], s) :: !Reused(ks[j], s)
    requires forall n | 0 <= n <= |steps| :: ks[n].tick - Renewed(ks, steps, s, 0, n) <= ks[n].expired
    ensures Holds(ks[0], ks[|steps|], s, Renewed(ks, steps, s, 0, |steps|), RenewedOn(ks, steps, s, 0, |steps|))
  {
    hide Inv;
    hide Steps;
    hide Asking;
    for n := 0 to |steps|
      invariant Inv(ks[n]) && HoldsOrOld(ks, steps, s, 0, n) && s in ks[n].response
    {
      StepInv(ks[n], steps[n], ks[n + 1]);
      StepHolds(ks, steps, s, 0, n);
    }
  }

  // ----- A retry -----

  // The handler of `id` is at work for session `s`.
  ghost predicate AtWork(k: Core, s: word, id: nat) {
    s in k.response && k.response[s] == id && id in k.running && id in k.entries
  }

  // Retirement leaves an entry whose handler is at work alone.
  lemma {:induction false} RetireWaiting(r: Core, id: nat)
    ensures forall c: Core | Retires(c, r) && id in c.entries && c.entries[id].fd.Some? ::
      && id in r.entries && r.entries[id] == c.entries[id] && r.running == c.running && r.version == c.version
      && forall s | s in c.response && c.response[s] == id :: s in r.response && r.response[s] == id
  {
  }

  lemma {:induction false} StepAtWork(k: Core, step: Step, r: Core, s: word, id: nat)
    requires Inv(k) && Steps(k, step, r) && AtWork(k, s, id) && (step.End? ==> step.id != id)
    requires Asking(k, step, s) ==> Served(k, s)
    ensures AtWork(r, s, id)
  {
    hide Retires;
    hide Slots;
    hide ResultOf;
    hide Packed;
    hide SessionOf;
    RetireWaiting(r, id);
  }

  lemma {:induction false} RunAtWork(ks: seq<Core>, steps: seq<Step>, s: word, id: nat, i: nat)
    requires Run(ks, steps) && Inv(ks[0]) && AtWork(ks[0], s, id) && i <= |steps|
    requires forall j | 0 <= j < i :: steps[j].End? ==> steps[j].id != id
    requires forall j | 0 <= j < i && Asking(ks[j], steps[j], s) :: Served(ks[j], s)
    ensures Inv(ks[i]) && AtWork(ks[i], s, id)
  {
    hide Inv;
    hide Steps;
    hide Asking;
    for n := 0 to i
      invariant Inv(ks[n]) && AtWork(ks[n], s, id)
    {
      StepInv(ks[n], steps[n], ks[n + 1]);
      StepAtWork(ks[n], steps[n], ks[n + 1], s, id);
    }
  }

  lemma {:induction false} EndDone(k: Core, id: nat, reply: Reply, r: Core, s: word)
    requires Inv(k) && AtWork(k, s, id) && Ends(k, id, reply, r)
    requires Packed(ResultOf(reply, s)).Some?
    ensures Done(r, s) && r.response[s] == id && Born(r, s) == k.tick && r.tick == k.tick + 1 && r.expired == k.expired
    ensures r.entries[id].version == Some(k.version) && r.entries[id].packet == Packed(ResultOf(reply, s))
  {
    var c := Completed(k.(running := k.running - {id}), id, Packed(ResultOf(reply, s)).value);
    SameSlots(k, k.(running := k.running - {id}));
    CompletedSlots(k.(running := k.running - {id}), id, Packed(ResultOf(reply, s)).value);
    RetireKept(c, r, s);
  }

  lemma {:induction false} RunVersion(ks: seq<Core>, steps: seq<Step>, i: nat)
    requires Run(ks, steps) && i <= |steps|
    ensures ks[|steps|].version >= ks[i].version
    ensures ks[|steps|].expired == ks[i].expired && ks[|steps|].tick >= ks[i].tick
    ensures ks[|steps|].version == ks[i].version <==> forall j | i <= j < |steps| :: !steps[j].Login?
  {
    hide Steps;
    for n := i to |steps|
      invariant ks[n].expired == ks[i].expired && ks[n].tick >= ks[i].tick && ks[n].version >= ks[i].version
      invariant ks[n].version == ks[i].version <==> forall j | i <= j < n :: !steps[j].Login?
    {
      StepMonotone(ks[n], steps[n], ks[n + 1]);
    }
  }

  // While a handler is at work, its session's next request never calls one.
  lemma {:induction false} NoSecondCall(k: Core, s: word, id: nat)
    requires Inv(k) && AtWork(k, s, id)
    ensures !Calls(k, s)
  {
  }

  // A handler at work ends in step `i`; the requests for its session before and after were served by it, the
  // last of them, or the end, being step `last`. The next request calls the handler again exactly when nobody
  // authenticated since `last`, or the response is too old; otherwise the cached packet is sent again.
  lemma {:induction false} RetryCalls(ks: seq<Core>, steps: seq<Step>, s: word, i: nat, id: nat, reply: Reply)
    requires Run(ks, steps) && Inv(ks[0]) && AtWork(ks[0], s, id)
    requires i < |steps| && steps[i] == End(id, reply) && Packed(ResultOf(reply, s)).Some?
    requires forall j | 0 <= j < i :: steps[j].End? ==> steps[j].id != id
    requires forall j | 0 <= j < |steps| && Asking(ks[j], steps[j], s) :: Served(ks[j], s)
    ensures var k := ks[|steps|]; var ask := LastAsk(ks, steps, s, i + 1, |steps|);
      var last := if ask.Some? then ask.value else i;
      && (Calls(k, s) <==> (forall j | last <= j < |steps| :: !steps[j].Login?) || s !in k.response)
      && (s !in k.response ==> k.tick - ks[last].tick > k.expired)
      && (!Calls(k, s) ==> Done(k, s) && k.response[s] == id && k.entries[id].packet == Packed(ResultOf(reply, s)))
  {
    hide Inv;
    hide Steps;
    hide Asking;
    hide AtWork;
    RunAtWork(ks, steps, s, id, i);
    assert Steps(ks[i], steps[i], ks[i + 1]);
    EndStep(ks[i], steps[i], ks[i + 1]);
    EndDone(ks[i], id, reply, ks[i + 1], s);
    StepInv(ks[i], steps[i], ks[i + 1]);
    RunHolds(ks, steps, s, i + 1);
    var ask := LastAsk(ks, steps, s, i + 1, |steps|);
    var last := if ask.Some? then ask.value else i;
    RunVersion(ks, steps, last);
  }

  // An entry that waits for a handler that is not at work.
  ghost predicate Stuck(k: Core, id: nat) {
    id in k.entries && Waiting(k.entries[id]) && id !in k.running
  }

  // It comes from a result that is too long to pack.
  lemma {:induction false} TooLongStuck(k: Core, id: nat, reply: Reply, r: Core)
    requires Inv(k) && Steps(k, End(id, reply), r)
    ensures Stuck(r, id) <==> Packed(ResultOf(reply, k.entries[id].session)).None?
  {
    if Packed(ResultOf(reply, k.entries[id].session)).Some? {
      EndOver(k, id, reply, r);
    }
  }

  lemma {:induction false} EndOver(k: Core, id: nat, reply: Reply, r: Core)
    requires Inv(k) && Ends(k, id, reply, r) && Packed(ResultOf(reply, k.entries[id].session)).Some?
    ensures id in r.entries && r.entries[id].fd.None?
  {
  }

  // And stays so for ever.
  lemma {:induction false} RunStuck(ks: seq<Core>, steps: seq<Step>, id: nat)
    requires Run(ks, steps) && Inv(ks[0]) && Stuck(ks[0], id)
    ensures Stuck(ks[|steps|], id)
  {
    hide Inv;
    hide Steps;
    hide Stuck;
    for n := 0 to |steps|
      invariant Inv(ks[n]) && Stuck(ks[n], id)
    {
      StepInv(ks[n], steps[n], ks[n + 1]);
      StepStuck(ks[n], steps[n], ks[n + 1], id);
    }
  }

  lemma {:induction false} StepStuck(k: Core, step: Step, r: Core, id: nat)
    requires Inv(k) && Steps(k, step, r) && Stuck(k, id)
    ensures Stuck(r, id)
  {
    hide Retires;
    hide Slots;
    hide ResultOf;
    hide Packed;
    hide SessionOf;
    RetireWaiting(r, id);
  }

  lemma {:induction false} EndStep(k: Core, step: Step, r: Core)
    requires Steps(k, step, r) && step.End?
    ensures Ends(k, step.id, step.reply, r)
  {
  }

  // ----- Where packets go -----

  // The newest connection that asked for the result of `id`.
  function LastAsker(log: seq<Event>, id: nat): Option<nat> {
    if log == [] then None
    else
      var e := log[|log| - 1];
      if e.Asked? && e.id == id then Some(e.fd) else LastAsker(log[..|log| - 1], id)
  }

  ghost predicate SentOk(k: Core, i: nat)
    requires i < |k.log| && k.log[i].Sent?
  {
    var e := k.log[i];
    && e.id in k.entries && k.entries[e.id].packet == Some(e.packet)
    && LastAsker(k.log[..i], e.id) == Some(e.fd)
  }

  ghost predicate Logged(k: Core) {
    && (forall i | 0 <= i < |k.log| && k.log[i].Sent? :: SentOk(k, i))
    && (forall id | id in k.entries && Waiting(k.entries[id]) :: k.entries[id].fd == LastAsker(k.log, id))
    && (forall i | 0 <= i < |k.log| && !k.log[i].Sent? :: k.log[i].id in k.entries)
    && (forall i, j | 0 <= i < j < |k.log| && k.log[i].Called? && k.log[j].Called? :: k.log[i].id != k.log[j].id)
    && (forall id | id in k.entries && Over(k.entries[id]) :: PacketOf(k.entries[id]))
  }

  // The packet of an entry names the session it was asked for.
  predicate PacketOf(e: Entry) {
    e.packet.Some? && |e.packet.value| >= 4 && SessionOf(e.packet.value) == e.session
  }

  ghost predicate Grows(k: Core, r: Core) {
    && k.log <= r.log
    && (forall id | id in k.entries :: id in r.entries && r.entries[id].session == k.entries[id].session)
    && (forall id | id in k.entries && k.entries[id].packet.Some? :: r.entries[id].packet == k.entries[id].packet)
  }

  lemma {:induction false} SentStays(k: Core, r: Core, i: nat)
    requires Logged(k) && Grows(k, r) && i < |k.log| && k.log[i].Sent?
    ensures i < |r.log| && r.log[i] == k.log[i] && SentOk(r, i)
  {
    assert SentOk(k, i);
    assert r.log[..i] == k.log[..i];
  }

  lemma {:induction false} LastAskerAppend(log: seq<Event>, e: Event, id: nat)
    ensures LastAsker(log + [e], id) == if e.Asked? && e.id == id then Some(e.fd) else LastAsker(log, id)
  {
    assert (log + [e])[..|log|] == log;
  }

  lemma {:induction false} RetireLogged(k: Core, r: Core)
    requires Logged(k) && Retires(k, r)
    ensures Logged(r)
  {
    forall i | 0 <= i < |r.log| && r.log[i].Sent?
      ensures SentOk(r, i)
    {
      assert SentOk(k, i);
    }
  }

  lemma {:induction false} JoinedLogged(k: Core, id: nat, fd: nat)
    requires Logged(k) && id in k.entries
    ensures Logged(Joined(k, id, fd)) && LastAsker(Joined(k, id, fd).log, id) == Some(fd)
  {
    var r := Joined(k, id, fd);
    var e := Asked(fd, id);
    forall i | 0 <= i < |r.log| && r.log[i].Sent?
      ensures SentOk(r, i)
    {
      SentStays(k, r, i);
    }
    LastAskerAppend(k.log, e, id);
    forall x | x in r.entries && Waiting(r.entries[x])
      ensures r.entries[x].fd == LastAsker(r.log, x)
    {
      LastAskerAppend(k.log, e, x);
    }
  }

  lemma {:induction false} CompletedLogged(k: Core, id: nat, packet: bytes)
    requires Logged(k) && id in k.entries && k.entries[id].fd.Some? && k.entries[id].fd == LastAsker(k.log, id)
    requires k.entries[id].packet.None? || k.entries[id].packet == Some(packet)
    requires |packet| >= 4 && SessionOf(packet) == k.entries[id].session
    ensures Logged(Completed(k, id, packet))
  {
    var r := Completed(k, id, packet);
    var e := Sent(k.entries[id].fd.value, id, packet);
    forall i | 0 <= i < |r.log| && r.log[i].Sent?
      ensures SentOk(r, i)
    {
      if i < |k.log| {
        SentStays(k, r, i);
      } else {
        assert r.log[..i] == k.log;
      }
    }
    forall x | x in r.entries && Waiting(r.entries[x])
      ensures r.entries[x].fd == LastAsker(r.log, x)
    {
      LastAskerAppend(k.log, e, x);
    }
  }

  lemma {:induction false} StartedLogged(k: Core, s: word, fd: nat, body: bytes)
    requires Logged(k) && Shape(k)
    ensures Logged(Started(k, s, fd, body))
  {
    var r := Started(k, s, fd, body);
    assert r.log == k.log + [Asked(fd, k.next)] + [Called(k.next, body)];
    forall i | 0 <= i < |r.log| && r.log[i].Sent?
      ensures SentOk(r, i)
    {
      SentStays(k, r, i);
    }
    forall x | x in r.entries && Waiting(r.entries[x])
      ensures r.entries[x].fd == LastAsker(r.log, x)
    {
      LastAskerAppend(k.log, Asked(fd, k.next), x);
      LastAskerAppend(k.log + [Asked(fd, k.next)], Called(k.next, body), x);
    }
  }

  lemma {:induction false} SameLogged(k: Core, r: Core)
    requires Logged(k) && r.log == k.log && r.entries == k.entries
    ensures Logged(r)
  {
    assert forall i | 0 <= i < |r.log| && r.log[i].Sent? :: SentOk(k, i);
  }

  lemma {:induction false} AskLogged(k: Core, fd: nat, m: bytes, r: Core)
    requires Inv(k) && Logged(k) && Asks(k, fd, m, r)
    ensures Logged(r)
  {
    hide Logged;
    if fd !in k.live || |m| < 4 {
      SameLogged(k, r);
    } else {
      var s := SessionOf(m);
      if s !in k.response {
        StartedLogged(k, s, fd, m[..|m| - 4]);
      } else if Reused(k, s) {
        SameLogged(k, Forgotten(k, s));
        SameLogged(k, Closed(Forgotten(k, s), fd));
        StartedLogged(Forgotten(k, s), s, fd, m[..|m| - 4]);
      } else {
        var id := k.response[s];
        JoinedLogged(k, id, fd);
        if k.entries[id].packet.Some? {
          OverPacket(k, id);
          CompletedLogged(Joined(k, id, fd), id, k.entries[id].packet.value);
          RetireLogged(Completed(Joined(k, id, fd), id, k.entries[id].packet.value), r);
        }
      }
    }
  }

  lemma {:induction false} OverPacket(k: Core, id: nat)
    requires Inv(k) && Logged(k) && id in k.entries
    ensures k.entries[id].packet.Some? ==> PacketOf(k.entries[id])
    ensures k.entries[id].packet.None? ==> k.entries[id].fd == LastAsker(k.log, id)
  {
  }

  lemma {:induction false} EndLogged(k: Core, id: nat, reply: Reply, r: Core)
    requires Inv(k) && Logged(k) && Ends(k, id, reply, r)
    ensures Logged(r)
  {
    hide Logged;
    var k' := k.(running := k.running - {id});
    var packed := Packed(ResultOf(reply, k.entries[id].session));
    SameLogged(k, k');
    SameLogged(k, Closed(k', k.entries[id].from));
    if packed.Some? {
      PacketRound(reply, k.entries[id].session);
      OverPacket(k, id);
      CompletedLogged(k', id, packed.value);
      RetireLogged(Completed(k', id, packed.value), r);
    }
  }

  // On every run, each packet that is sent holds the one result of its request and the session, and
  // goes to the connection that asked for it last; each handler is called once for its entry.
  lemma {:induction false} StepLogged(k: Core, step: Step, r: Core)
    requires Inv(k) && Logged(k) && Steps(k, step, r)
    ensures Logged(r)
  {
    hide Logged;
    match step
    case Login(_, _) => SameLogged(k, r);
    case Drop(_) => SameLogged(k, r);
    case End(id, reply) => EndLogged(k, id, reply, r);
    case Ask(fd, m) => AskLogged(k, fd, m, r);
  }

  lemma {:induction false} RunLogged(ks: seq<Core>, steps: seq<Step>)
    requires Run(ks, steps) && ks[0].expired >= 1 && ks[0] == Fresh(ks[0].expired)
    ensures Inv(ks[|steps|]) && Logged(ks[|steps|])
  {
    hide Inv;
    hide Logged;
    hide Steps;
    FreshInv(ks[0].expired);
    for i := 0 to |steps|
      invariant Inv(ks[i]) && Logged(ks[i])
    {
      StepInv(ks[i], steps[i], ks[i + 1]);
      StepLogged(ks[i], steps[i], ks[i + 1]);
    }
  }

  // Two packets for one entry are the same.
  lemma {:induction false} OneResult(ks: seq<Core>, steps: seq<Step>, i: nat, j: nat)
    requires Run(ks, steps) && ks[0].expired >= 1 && ks[0] == Fresh(ks[0].expired)
    requires var log := ks[|steps|].log;
      i < |log| && j < |log| && log[i].Sent? && log[j].Sent? && log[i].id == log[j].id
    ensures ks[|steps|].log[i].packet == ks[|steps|].log[j].packet
  {
    RunLogged(ks, steps);
    assert SentOk(ks[|steps|], i) && SentOk(ks[|steps|], j);
  }

  // A handler's result goes, at once, to the connection that asked last, if it is open.
  lemma {:induction false} EndSends(k: Core, id: nat, reply: Reply, r: Core)
    requires Inv(k) && Logged(k) && Ends(k, id, reply, r)
    ensures LastAsker(k.log, id).Some?
    ensures var fd, p := LastAsker(k.log, id).value, Packed(ResultOf(reply, k.entries[id].session));
      r.log == if p.Some? && fd in k.connection then k.log + [Sent(fd, id, p.value)] else k.log
  {
  }

  // ----- When the handler is called twice for one session -----

  // A connection is lost, the client reconnects, the handler ends, and only then does the client ask
  // again: the handler is called a second time for the same request.
  lemma {:induction false} CalledTwice(body: bytes, s: word, answer: bytes, expired: nat)
      returns (ks: seq<Core>, steps: seq<Step>)
    requires |answer| + 5 < 65536 && expired >= 1
    ensures Run(ks, steps) && ks[0] == Fresh(expired)
    ensures steps == [Login(1, 1), Ask(1, body + Big(s)), Drop(1), Login(2, 2), End(0, Answer(answer)),
      Ask(2, body + Big(s))]
    ensures Called(0, body) in ks[6].log && Called(1, body) in ks[6].log
  {
    hide Big;
    hide SessionOf;
    BigSession(body, s);
    var m := body + Big(s);
    var p := Packed(ResultOf(Answer(answer), s)).value;
    var k0 := Fresh(expired);
    var k1 := k0.(version := 1, connection := {1}, live := {1});
    var k2 := Started(k1, s, 1, body);
    var k3 := k2.(connection := {}, live := {});
    var k4 := k3.(version := 2, connection := {2}, live := {2});
    var k5 := Completed(k4.(running := {}), 0, p);
    var k6 := Started(Forgotten(k5, s), s, 2, body);
    ks := [k0, k1, k2, k3, k4, k5, k6];
    steps := [Login(1, 1), Ask(1, m), Drop(1), Login(2, 2), End(0, Answer(answer)), Ask(2, m)];
  }

  lemma {:induction false} BigSession(body: bytes, s: word)
    ensures SessionOf(body + Big(s)) == s && (body + Big(s))[..|body|] == body
  {
    var m := body + Big(s);
    assert m[|m| - 4..] == Big(s);
    assert s / 65536 == s / 256 / 256 && s / 16777216 == s / 65536 / 256;
  }

  // The entry of a running handler is thrown away exactly when its session is asked for again after it was
  // joined on the newest authentication; that request closes its own connection.
  lemma {:induction false} ThrownAway(k: Core, step: Step, r: Core, s: word, id: nat)
    requires Inv(k) && Steps(k, step, r) && AtWork(k, s, id) && (step.End? ==> step.id != id)
    ensures !AtWork(r, s, id) <==>
      Asking(k, step, s) && k.entries[id].version == Some(k.version)
    ensures !AtWork(r, s, id) ==> r == Closed(Forgotten(k, s), step.fd)
  {
    hide Retires;
    hide Slots;
    hide ResultOf;
    hide Packed;
    hide SessionOf;
    RetireWaiting(r, id);
  }

  // Then a request after the reconnection starts a second handler while the first is at work.
  lemma {:induction false} TwoAtOnce(body: bytes, s: word, expired: nat) returns (ks: seq<Core>, steps: seq<Step>)
    requires expired >= 1
    ensures Run(ks, steps) && ks[0] == Fresh(expired)
    ensures var m := body + Big(s);
      steps == [Login(1, 1), Ask(1, m), Ask(1, m), Ask(1, m), Drop(1), Login(2, 2), Ask(2, m)]
    ensures 1 in ks[3].live && 1 !in ks[4].live
    ensures ks[7].running == {0, 1} && forall id | id in ks[7].running ::
      id in ks[7].entries && ks[7].entries[id].session == s
  {
    hide Big;
    hide SessionOf;
    BigSession(body, s);
    var m := body + Big(s);
    var k0 := Fresh(expired);
    var k1 := k0.(version := 1, connection := {1}, live := {1});
    var k2 := Started(k1, s, 1, body);
    var k3 := Joined(k2, 0, 1);
    var k4 := Closed(Forgotten(k3, s), 1);
    var k5 := k4.(connection := {});
    var k6 := k5.(version := 2, connection := {2}, live := {2});
    var k7 := Started(k6, s, 2, body);
    ks := [k0, k1, k2, k3, k4, k5, k6, k7];
    steps := [Login(1, 1), Ask(1, m), Ask(1, m), Ask(1, m), Drop(1), Login(2, 2), Ask(2, m)];
  }
}
