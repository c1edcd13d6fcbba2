/**
 Calls and sends to another node of a cluster: while the service that talks to the node is being looked
 up they wait in a queue, and a coroutine hands them on one by one. Nodes do not share anything, so one
 of them is modelled.
 */
module ClusterSender {
  import opened Words

  // A message of cluster.send, or the request of the coroutine that is in cluster.call.
  datatype Item = Push(message: nat) | Request(caller: nat)

  // What became of it: handed to a sender, or not (a push is dropped, a caller gets an error).
  datatype Done = Done(item: Item, to: Option<nat>)

  // The coroutine of request_sender.
  datatype Phase =
    | Absent                                    // there is no queue
    | Looking                                   // it waits for the sender
    | Waiting(next: nat, caller: nat)           // it has woken the caller of item next - 1, who has not run
    | Confirmed(next: nat)                      // the caller has run and has woken it

  function Items(log: seq<Done>): seq<Item> {
    if log == [] then [] else Items(log[..|log| - 1]) + [log[|log| - 1].item]
  }

  lemma ItemsAppend(log: seq<Done>, d: Done)
    ensures Items(log + [d]) == Items(log) + [d.item]
  {
    assert (log + [d])[..|log|] == log;
  }

  lemma Next(done: seq<Item>, q: seq<Item>, i: nat)
    requires i < |q|
    ensures done + q[i..] == (done + [q[i]]) + q[i + 1..]
  {
    assert q[i..] == [q[i]] + q[i + 1..];
  }

  // What was handed on since `before` went to `to`.
  ghost predicate Handed(before: seq<Done>, now: seq<Done>, to: Option<nat>) {
    before <= now && forall i | |before| <= i < |now| :: now[i].to == to
  }

  lemma HandedNone(log: seq<Done>, to: Option<nat>)
    ensures Handed(log, log, to)
  {
  }

  lemma HandedMore(before: seq<Done>, now: seq<Done>, to: Option<nat>, item: Item)
    requires Handed(before, now, to)
    ensures Handed(before, now + [Done(item, to)], to)
  {
  }

  class Node {
    var sender: Option<nat>        // sender[node]
    var q: seq<Item>               // task_queue[node]
    var qSender: Option<nat>       // q.sender
    var phase: Phase
    ghost var issued: seq<Item>    // every call and send, in order
    ghost var log: seq<Done>

    // The items of the queue that have not been handed on.
    ghost function Pending(): seq<Item>
      reads this
    {
      match phase
      case Absent => []
      case Looking => q
      case Waiting(next, _) => if 0 < next <= |q| then q[next - 1..] else []
      case Confirmed(next) => if next <= |q| then q[next..] else []
    }

    // Everything is handed on once, in the order in which it was issued.
    ghost predicate Valid()
      reads this
    {
      && (phase.Absent? ==> q == [])
      && (!phase.Absent? ==> sender.None?)
      && (phase.Waiting? ==> 0 < phase.next <= |q| && q[phase.next - 1] == Request(phase.caller))
      && (phase.Confirmed? ==> phase.next <= |q|)
      && Items(log) + Pending() == issued
    }

    constructor ()
      ensures Valid() && issued == [] && log == []
    {
      sender, q, qSender, phase, issued, log := None, [], None, Absent, [], [];
    }

    // An item waits in the queue; the first one starts request_sender.
    method Enqueue(item: Item)
      requires Valid() && sender.None?
      modifies this
      ensures Valid() && issued == old(issued) + [item] && log == old(log) && sender.None?
      ensures qSender == old(qSender) && phase == if old(phase).Absent? then Looking else old(phase)
    {
      if phase.Absent? {
        phase := Looking;
      }
      ghost var before := Pending();
      q := q + [item];
      issued := issued + [item];
      assert Pending() == before + [item];
      assert Items(log) + (before + [item]) == (Items(log) + before) + [item];
    }

    // cluster.send
    method Send(message: nat)
      requires Valid()
      modifies this
      ensures Valid() && issued == old(issued) + [Push(message)] && sender == old(sender)
      ensures log == if sender.Some? then old(log) + [Done(Push(message), sender)] else old(log)
    {
      if sender.None? {
        Enqueue(Push(message));
      } else {
        Direct(Push(message));
      }
    }

    // cluster.call of the coroutine `caller`, up to where it waits
    method Call(caller: nat)
      requires Valid()
      modifies this
      ensures Valid() && issued == old(issued) + [Request(caller)] && sender == old(sender)
      ensures log == if sender.Some? then old(log) + [Done(Request(caller), sender)] else old(log)
    {
      if sender.None? {
        Enqueue(Request(caller));
      } else {
        Direct(Request(caller));
      }
    }

    // The sender is known: the item goes to it at once.
    method Direct(item: Item)
      requires Valid() && sender.Some?
      modifies this`log, this`issued
      ensures Valid() && issued == old(issued) + [item] && log == old(log) + [Done(item, sender)]
    {
      assert Items(log) + [] == issued && Pending() == [];
      HandOn(item, sender);
      issued := issued + [item];
      assert Items(log) + [] == Items(log);
    }

    method HandOn(item: Item, to: Option<nat>)
      modifies this`log
      ensures log == old(log) + [Done(item, to)] && Items(log) == old(Items(log)) + [item]
    {
      ItemsAppend(log, Done(item, to));
      log := log + [Done(item, to)];
    }

    // The look-up ends; it has found the service, or failed.
    method Resolved(c: Option<nat>)
      requires Valid() && phase.Looking?
      modifies this
      ensures Valid() && issued == old(issued) && Handed(old(log), log, c)
      ensures Rested(c)
    {
      qSender := c;
      phase := Confirmed(0);
      Drain();
    }

    // The caller that was woken goes on: it wakes request_sender, and then calls the sender.
    method CallerRuns()
      requires Valid() && phase.Waiting?
      modifies this`phase, this`log
      ensures Valid() && log == old(log) + [Done(Request(old(phase).caller), qSender)]
      ensures phase == Confirmed(old(phase).next)
    {
      ghost var before := Pending();
      HandOn(Request(phase.caller), qSender);
      phase := Confirmed(phase.next);
      assert before == [Request(old(phase).caller)] + Pending();
      assert old(Items(log)) + before == (old(Items(log)) + [Request(old(phase).caller)]) + Pending();
    }

    // request_sender goes on after its caller.
    method ConfirmRuns()
      requires Valid() && phase.Confirmed?
      modifies this
      ensures Valid() && issued == old(issued) && Handed(old(log), log, old(qSender))
      ensures Rested(old(qSender))
    {
      Drain();
    }

    // request_sender waits for a caller, or it is done and the sender is known to all.
    ghost predicate Rested(c: Option<nat>)
      reads this
    {
      (phase.Waiting? && qSender == c) || (phase.Absent? && sender == c && Items(log) == issued)
    }

    // A message of the queue is sent, or dropped.
    method PassPush(i: nat)
      requires Valid() && phase == Confirmed(i) && i < |q| && q[i].Push?
      modifies this`phase, this`log
      ensures Valid() && phase == Confirmed(i + 1) && log == old(log) + [Done(q[i], qSender)]
    {
      hide Items;
      Next(Items(log), q, i);
      HandOn(q[i], qSender);
      phase := Confirmed(i + 1);
    }

    // The loop of request_sender: it looks at the queue as it is then, with what was added meanwhile.
    method Drain()
      requires Valid() && phase.Confirmed?
      modifies this
      ensures Valid() && issued == old(issued) && Handed(old(log), log, old(qSender))
      ensures Rested(old(qSender))
    {
      hide Items;
      hide Handed;
      HandedNone(log, qSender);
      var i: nat := phase.next;
      while i < |q|
        invariant Valid() && phase == Confirmed(i) && q == old(q) && qSender == old(qSender) && issued == old(issued)
        invariant Handed(old(log), log, qSender)
        decreases |q| - i
      {
        match q[i]
        case Push(message) =>
          HandedMore(old(log), log, qSender, q[i]);
          PassPush(i);
          i := i + 1;
        case Request(caller) =>
          phase := Waiting(i + 1, caller);
          return;
      }
      q, phase, sender := [], Absent, qSender;
    }
  }

  // At any time, what was handed on is what was issued first, in order.
  lemma InOrder(node: Node)
    requires node.Valid()
    ensures Items(node.log) <= node.issued
    ensures node.phase.Absent? ==> Items(node.log) == node.issued
  {
    assert Items(node.log) + [] == Items(node.log);
  }
}
