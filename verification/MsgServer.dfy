/**
 The message server as one user sees it. The connection table is the user's share of it: the
 identifier of a connection is not used again.
 */
module MsgServer {
  import opened Words
  import opened ResponseCache

  datatype Auth = Accepted | NotFound | Expired | Unauthorized | BadRequest

  datatype Outcome =
    | Dropped                    // the connection is closed: gateserver drops the message
    | Invalid                    // a message without a session: the connection is closed
    | Conflict                   // the handler is at work and was joined before: the connection is closed
    | Merged                     // the handler is at work: its result will come here
    | Resent
    | Handle(id: nat, body: bytes)   // the handler is called

  class User {
    var expired: nat
    var online: bool
    var fd: Option<nat>
    var version: nat
    var index: nat
    var response: map<word, nat>
    var entries: map<nat, Entry>
    var connection: set<nat>
    var live: set<nat>             // gateserver's table of connections, as far as they are this user's
    var next: nat
    ghost var running: set<nat>
    var tick: nat                  // only to date responses
    ghost var log: seq<Event>

    ghost function View(): Core
      reads this
    {
      Core(expired, version, index, response, entries, running, connection, live, next, tick, log)
    }

    ghost predicate Valid()
      reads this
    {
      Inv(View()) && Logged(View())
    }

    // server.login
    constructor (expiredNumber: nat)
      requires expiredNumber >= 1
      ensures Valid() && View() == Fresh(expiredNumber)
    {
      expired, online, fd, version, index := expiredNumber, true, None, 0, 0;
      response, entries, connection, live, next := map[], map[], {}, {}, 0;
      running, tick, log := {}, 0, [];
    }

    // server.logout: closes the connection in u.fd.
    method Logout()
      requires Valid()
      modifies this
      ensures Valid() && !online && fd == old(fd)
      ensures if fd.Some? then Steps(old(View()), Drop(fd.value), View()) else View() == old(View())
      ensures connection == old(connection) <==> fd.None? || fd.value !in old(connection)
    {
      online := false;
      ghost var k := View();
      if fd.Some? && fd.value in connection {
        CloseClient(fd.value);
        connection := connection - {fd.value};
      }
      if fd.Some? {
        StepInv(k, Drop(fd.value), View());
        StepLogged(k, Drop(fd.value), View());
      }
    }

    // handler.disconnect, once the socket of any of the user's connections is closed.
    method Disconnect(gone: nat)
      requires Valid()
      modifies this
      ensures Valid() && Steps(old(View()), Drop(gone), View())
      ensures online == old(online)
      ensures fd == if gone in old(connection) then None else old(fd)
    {
      ghost var k := View();
      live := live - {gone};
      if gone in connection {
        fd := None;
        connection := connection - {gone};
      }
      StepInv(k, Drop(gone), View());
      StepLogged(k, Drop(gone), View());
    }

    // gateserver.closeclient
    method CloseClient(gone: nat)
      modifies this`live
      ensures View() == Closed(old(View()), gone)
    {
      live := live - {gone};
    }

    // do_auth. `idx` is the number in the message, if it is one; `genuine` says that the signature is
    // the user's.
    method DoAuth(newFd: nat, idx: Option<nat>, genuine: bool) returns (result: Auth)
      requires Valid()
      modifies this
      ensures Valid()
      ensures result == Accepted <==> online && idx.Some? && idx.value > old(version) && genuine
      ensures result == NotFound <==> !online
      ensures result == BadRequest <==> online && idx.None?
      ensures result == Expired <==> online && idx.Some? && idx.value <= old(version)
      ensures result == Unauthorized <==> online && idx.Some? && idx.value > old(version) && !genuine
      ensures result == Accepted ==> Steps(old(View()), Login(newFd, idx.value), View()) && fd == Some(newFd)
      ensures result != Accepted ==> View() == old(View()) && fd == old(fd)
    {
      if !online {
        return NotFound;
      }
      if idx.None? {
        return BadRequest;
      }
      if idx.value <= version {
        return Expired;
      }
      if !genuine {
        return Unauthorized;
      }
      ghost var k := View();
      version, fd := idx.value, Some(newFd);
      connection, live := connection + {newFd}, live + {newFd};
      StepInv(k, Login(newFd, version), View());
      StepLogged(k, Login(newFd, version), View());
      return Accepted;
    }

    // retire_response
    method RetireResponse()
      requires Shape(View())
      modifies this`response, this`entries, this`index
      ensures Retires(old(View()), View())
    {
      hide Shape;
      hide Partly;
      hide Retires;
      hide Young;
      hide Done;
      hide Attached;
      hide IsTop;
      hide Renumbered;
      ghost var k := View();
      PartlyInit(k);
      if index < expired * 2 {
        return;
      }
      var max: nat := 0;
      var left := response.Keys;
      while left != {}
        invariant left <= k.response.Keys
        invariant Partly(k, left, response, entries, max)
        invariant View() == k.(response := response, entries := entries)
        decreases |left|
      {
        var s :| s in left;
        max := RetireOne(s, max, k, left);
        left := left - {s};
      }
      PartlyEnd(k, response, entries, max);
      index := max + 1;
    }

    // One turn of its loop.
    method RetireOne(s: word, max: nat, ghost k: Core, ghost left: set<word>) returns (newMax: nat)
      requires Shape(k) && left <= k.response.Keys && s in left && expired == k.expired
      requires Partly(k, left, response, entries, max)
      modifies this`response, this`entries
      ensures Partly(k, left - {s}, response, entries, newMax)
    {
      hide Partly;
      hide Shape;
      hide Young;
      PartlyNext(k, left, response, entries, max, s);
      newMax := max;
      var id := response[s];
      var p := entries[id];
      if p.fd != None {
        return;
      }
      if p.index < expired {
        response := response - {s};
      } else {
        entries := entries[id := p.(index := p.index - expired)];
        newMax := if p.index - expired > max then p.index - expired else max;
      }
    }

    // request up to the call of the handler.
    method Request(from: nat, message: bytes) returns (outcome: Outcome)
      requires Valid()
      modifies this
      ensures Valid() && Steps(old(View()), Ask(from, message), View())
      ensures outcome.Dropped? <==> from !in old(live)
      ensures outcome.Invalid? <==> from in old(live) && |message| < 4
      ensures outcome.Handle? <==> from in old(live) && |message| >= 4 && Calls(old(View()), SessionOf(message))
      ensures outcome.Invalid? || outcome.Conflict? ==> from !in live
      ensures outcome.Handle? ==>
        outcome.id in running && outcome.id !in old(entries) && outcome.body == message[..|message| - 4]
    {
      hide Logged;
      hide Slots;
      hide Retires;
      ghost var k := View();
      if from !in live {
        return Dropped;
      }
      if |message| < 4 {
        CloseClient(from);
        StepInv(k, Ask(from, message), View());
        StepLogged(k, Ask(from, message), View());
        return Invalid;
      }
      var session, body := SessionOf(message), message[..|message| - 4];
      var known := session in response;
      if known && entries[response[session]].version == Some(version) {
        // session can be reused in the same connection
        var last := entries[response[session]];
        response := response - {session};
        known := false;
        if last.packet == None {
          CloseClient(from);
          StepInv(k, Ask(from, message), View());
          StepLogged(k, Ask(from, message), View());
          return Conflict;
        }
      }
      if !known {
        outcome := Start(session, from, body);
      } else {
        var id := response[session];
        entries := entries[id := entries[id].(fd := Some(from), version := Some(version), index := index)];
        log := log + [Asked(from, id)];
        if entries[id].packet == None {
          outcome := Merged;
        } else {
          JoinedShape(k, id, from);
          ResentSlots(k, id, from);
          Deliver(id);
          outcome := Resent;
        }
      }
      StepInv(k, Ask(from, message), View());
      StepLogged(k, Ask(from, message), View());
    }

    // A new entry, for which the handler is called.
    method Start(session: word, from: nat, body: bytes) returns (outcome: Outcome)
      modifies this`entries, this`response, this`log, this`running, this`next
      ensures View() == Started(old(View()), session, from, body)
      ensures outcome == Handle(old(next), body) && old(next) in running
    {
      entries := entries[next := Entry(session, from, Some(from), None, None, 0, 0)];
      response := response[session := next];
      log := log + [Asked(from, next), Called(next, body)];
      running := running + {next};
      outcome := Handle(next, body);
      next := next + 1;
    }

    // The end of do_request: the entry's packet is sent and counted.
    method Deliver(id: nat)
      requires id in entries && entries[id].fd.Some? && entries[id].packet.Some?
      requires Shape(Completed(View(), id, entries[id].packet.value))
      requires entries[id].version == Some(version) && entries[id].index == index
      modifies this
      ensures Retires(Completed(old(View()), id, old(entries[id].packet.value)), View())
      ensures online == old(online) && fd == old(fd)
    {
      ghost var c := Completed(View(), id, entries[id].packet.value);
      index := index + 1;
      var to := entries[id].fd.value;
      if to in connection {
        log := log + [Sent(to, id, entries[id].packet.value)];
      }
      entries := entries[id := entries[id].(fd := None, born := tick)];
      tick := tick + 1;
      assert View() == c;
      RetireResponse();
    }

    // request after the handler. A result that is too long is an error: the entry waits for ever, and the
    // connection of its first request is closed.
    method Finish(id: nat, reply: Reply) returns (ok: bool)
      requires Valid() && id in running
      modifies this
      ensures Valid() && Steps(old(View()), End(id, reply), View())
      ensures ok <==> Packed(ResultOf(reply, old(entries[id].session))).Some?
    {
      hide Slots;
      hide Logged;
      hide Retires;
      hide ResultOf;
      ghost var k := View();
      running := running - {id};
      var packed := Packed(ResultOf(reply, entries[id].session));
      ok := packed.Some?;
      if ok {
        SameSlots(k, View());
        CompletedSlots(View(), id, packed.value);
        ghost var c := Completed(View(), id, packed.value);
        entries := entries[id := entries[id].(packet := packed, version := Some(version), index := index)];
        assert Completed(View(), id, packed.value) == c;
        Deliver(id);
      } else {
        CloseClient(entries[id].from);
      }
      StepInv(k, End(id, reply), View());
      StepLogged(k, End(id, reply), View());
    }
  }

  // ----- The loop of retire_response, with the sessions `left` still to come -----

  ghost predicate Moved(k: Core, left: set<word>, id: nat) {
    Attached(k, id) && k.entries[id].session !in left && Young(k, k.entries[id].session)
  }

  ghost predicate PartlyResponse(k: Core, left: set<word>, response: map<word, nat>) {
    && (forall s :: s in response <==> s in k.response && (s in left || !Done(k, s) || Young(k, s)))
    && (forall s | s in response :: response[s] == k.response[s])
  }

  ghost predicate PartlyEntries(k: Core, left: set<word>, entries: map<nat, Entry>) {
    && entries.Keys == k.entries.Keys
    && (forall id | id in entries && !Moved(k, left, id) :: entries[id] == k.entries[id])
    && (forall id | id in entries && Moved(k, left, id) ::
         entries[id] == k.entries[id].(index := k.entries[id].index - k.expired))
  }

  ghost predicate PartlyMax(k: Core, left: set<word>, max: nat) {
    && (forall s | Young(k, s) && s !in left :: ResponseCache.IndexOf(k, s) - k.expired <= max)
    && (max == 0 || exists s :: Young(k, s) && ResponseCache.IndexOf(k, s) - k.expired == max)
  }

  ghost predicate Partly(k: Core, left: set<word>, response: map<word, nat>, entries: map<nat, Entry>, max: nat) {
    PartlyResponse(k, left, response) && PartlyEntries(k, left, entries) && PartlyMax(k, left, max)
  }

  lemma PartlyInit(k: Core)
    requires Shape(k)
    ensures Partly(k, k.response.Keys, k.response, k.entries, 0)
    ensures k.index < 2 * k.expired ==> Retires(k, k)
  {
  }

  lemma PartlyEntriesNext(k: Core, left: set<word>, entries: map<nat, Entry>, s: word)
    requires Shape(k) && s in left && s in k.response && PartlyEntries(k, left, entries)
    ensures k.response[s] in entries && entries[k.response[s]] == k.entries[k.response[s]]
    ensures !Young(k, s) ==> PartlyEntries(k, left - {s}, entries)
    ensures Young(k, s) ==>
      PartlyEntries(k, left - {s},
          entries[k.response[s] := k.entries[k.response[s]].(index := ResponseCache.IndexOf(k, s) - k.expired)])
  {
    var id := k.response[s];
    assert Attached(k, id) && !Moved(k, left, id);
    assert forall x | x in entries && x != id :: Moved(k, left - {s}, x) <==> Moved(k, left, x);
    assert Moved(k, left - {s}, id) <==> Young(k, s);
  }

  lemma PartlyNext(k: Core, left: set<word>, response: map<word, nat>, entries: map<nat, Entry>, max: nat, s: word)
    requires Shape(k) && left <= k.response.Keys && s in left && Partly(k, left, response, entries, max)
    ensures s in response && response[s] in entries && left - {s} <= k.response.Keys
    ensures var e := entries[response[s]];
      && (e.fd != None ==> Partly(k, left - {s}, response, entries, max))
      && (e.fd == None && e.index < k.expired ==> Partly(k, left - {s}, response - {s}, entries, max))
      && (e.fd == None && e.index >= k.expired ==>
            Partly(k, left - {s}, response, entries[response[s] := e.(index := e.index - k.expired)],
              if e.index - k.expired > max then e.index - k.expired else max))
  {
    hide PartlyEntries;
    hide Moved;
    PartlyEntriesNext(k, left, entries, s);
  }

  lemma PartlyEndEntries(k: Core, entries: map<nat, Entry>)
    requires Shape(k) && PartlyEntries(k, {}, entries)
    ensures forall max :: Renumbered(k, max).entries == entries
  {
    assert Renumbered(k, 0).entries == entries;
  }

  lemma PartlyEnd(k: Core, response: map<word, nat>, entries: map<nat, Entry>, max: nat)
    requires Shape(k) && Partly(k, {}, response, entries, max)
    ensures IsTop(k, max) && Renumbered(k, max) == k.(response := response, entries := entries, index := max + 1)
    ensures k.index >= 2 * k.expired ==> Retires(k, k.(response := response, entries := entries, index := max + 1))
  {
    PartlyEndEntries(k, entries);
    hide PartlyEntries;
    assert response == Renumbered(k, max).response;
    assert entries == Renumbered(k, max).entries;
  }
}
