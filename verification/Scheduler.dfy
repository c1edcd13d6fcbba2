/**
 The coroutine scheduler of a service. What coroutines do is not known: each time one runs, it takes
 its commands from a script, so the results hold for every script.
 */
module Scheduler {
  import opened Words
  import opened Chains
  import opened SchedulerCore

  // What a running coroutine does next. Sleep, Wait, Call, Return and Fail give the processor back;
  // Fail is an error that the coroutine does not catch.
  datatype Cmd =
    | CFork
    | CTimeout
    | CWakeup(token: nat)
    | CSleep(token: nat)
    | CWait(token: nat)
    | CCall(service: nat)
    | CReturn
    | CFail

  predicate Leaves(cmd: Cmd) {
    !(cmd.CFork? || cmd.CTimeout? || cmd.CWakeup?)
  }

  // The commands that end in an error.
  predicate Fails(cmd: Cmd, sleep: map<nat, nat>) {
    match cmd
    case CSleep(token) => token in sleep
    case CWait(token) => token in sleep
    case CFail => true
    case _ => false
  }

  datatype Message =
    | Response(session: nat)            // a response, or a timer that fires
    | Error(session: nat, source: nat)  // session 0: the service `source` is gone
    | Request

  class Service {
    var sic: map<nat, Entry>
    var watching: map<nat, nat>
    var sleepSession: map<nat, nat>
    var wakeupQueue: seq<nat>
    var errorQueue: seq<nat>
    var forkQueue: seq<nat>
    var pool: seq<nat>
    var status: map<nat, Status>
    var nextCo: nat
    var lastSession: nat
    ghost var timers: set<nat>
    ghost var early: set<nat>
    ghost var stale: set<nat>
    ghost var resumed: seq<nat>   // the coroutines that were resumed, in order
    ghost var owed: set<nat>      // tokens woken whose sleepers have not run since
    ghost var failed: set<nat>    // failed calls whose callers have not run since
    ghost var zombies: nat        // how often a dead coroutine was resumed

    ghost function View(): Core
      reads this
    {
      Core(sic, watching, sleepSession, wakeupQueue, errorQueue, forkQueue, pool, status, nextCo, lastSession, timers,
          early, stale)
    }

    // Whoever was promised to run is still queued.
    ghost predicate Owing()
      reads this
    {
      && (forall t | t in owed :: t in wakeupQueue && t in sleepSession)
      && (forall s | s in failed :: s in errorQueue)
    }

    // No message is being handled.
    ghost predicate Idle()
      reads this
    {
      Inv(View(), None) && Owing() && wakeupQueue == [] && errorQueue == [] && forkQueue == []
    }

    // The coroutines that have failed so far.
    ghost function Lost(): set<nat>
      reads this
    {
      DeadOf(status)
    }

    // Commands still to come and things still to do.
    ghost function Work(script: seq<Cmd>): nat
      reads this
    {
      2 * |script| + |wakeupQueue| + |errorQueue| + |forkQueue|
    }

    constructor ()
      ensures Idle() && status == map[] && zombies == 0 && owed == {} && failed == {}
    {
      sic, watching, sleepSession, wakeupQueue, errorQueue, forkQueue := map[], map[], map[], [], [], [];
      pool, status, nextCo, lastSession := [], map[], 0, 0;
      timers, early, stale, resumed, owed, failed, zombies := {}, {}, {}, [], {}, {}, 0;
    }

    // ----- The functions a coroutine calls -----

    // co_create
    method CoCreate(st: Status) returns (co: nat)
      modifies this`pool, this`nextCo, this`status
      ensures co == Creator(old(View())) && View() == Create(old(View()), st)
      ensures status == old(status)[co := st]
      ensures old(pool) != [] ==> co == old(pool)[|old(pool)| - 1] && pool == old(pool)[..|old(pool)| - 1]
      ensures old(pool) == [] ==> co == old(nextCo) && pool == []
    {
      if pool != [] {
        co := pool[|pool| - 1];
        pool := pool[..|pool| - 1];
      } else {
        co := nextCo;
        nextCo := nextCo + 1;
      }
      status := status[co := st];
    }

    // skynet.fork
    method Fork()
      modifies this`pool, this`nextCo, this`status, this`forkQueue
      ensures View() == SchedulerCore.Fork(old(View()))
      ensures exists co :: forkQueue == old(forkQueue) + [co] && status == old(status)[co := Queued]
    {
      var co := CoCreate(Queued);
      forkQueue := forkQueue + [co];
    }

    // skynet.timeout
    method Timeout()
      modifies this`pool, this`nextCo, this`status, this`sic, this`lastSession, this`timers
      ensures View() == SchedulerCore.Timeout(old(View()))
    {
      var session := lastSession + 1;
      lastSession, timers := session, timers + {session};
      var co := CoCreate(Armed(session));
      sic := sic[session := Thread(co)];
    }

    // skynet.wakeup
    method Wakeup(token: nat)
      modifies this`wakeupQueue, this`owed
      ensures View() == SchedulerCore.Wakeup(old(View()), token)
      ensures wakeupQueue == if token in sleepSession then old(wakeupQueue) + [token] else old(wakeupQueue)
      ensures owed == if token in sleepSession then old(owed) + {token} else old(owed)
    {
      if token in sleepSession {
        owed := owed + {token};
        wakeupQueue := wakeupQueue + [token];
      }
    }

    // skynet.sleep and skynet.wait of coroutine `co`: false when the token is in use already.
    method Sleep(co: nat, token: nat, timed: bool) returns (ok: bool)
      modifies this`sic, this`lastSession, this`timers, this`sleepSession, this`status, this`stale
      ensures View() == SchedulerCore.Sleep(old(View()), co, token, timed)
      ensures ok <==> token !in old(sleepSession)
    {
      var session := lastSession + 1;
      lastSession := session;
      if timed {
        timers := timers + {session};
      }
      sic := sic[session := Thread(co)];
      ok := token !in sleepSession;
      if ok {
        sleepSession := sleepSession[token := session];
        status := status[co := Asleep(session, token, timed)];
      } else {
        status := status[co := Dead];
        stale := stale + {session};
      }
    }

    // skynet.call of coroutine `co`
    method Call(co: nat, service: nat)
      modifies this`sic, this`lastSession, this`watching, this`status
      ensures View() == SchedulerCore.Call(old(View()), co, service)
      ensures watching == old(watching)[lastSession := service] && sic == old(sic)[lastSession := Thread(co)]
    {
      var session := lastSession + 1;
      lastSession := session;
      watching := watching[session := service];
      sic := sic[session := Thread(co)];
      status := status[co := Calling(session)];
    }

    // The main function of `co` returns.
    method Finish(co: nat)
      modifies this`pool, this`status
      ensures View() == SchedulerCore.Finish(old(View()), co)
    {
      pool := pool + [co];
      status := status[co := Pooled];
    }

    // A command after which `co` goes on.
    method Continue(co: nat, cmd: Cmd)
      requires Inv(View(), Some(co)) && Owing() && !Leaves(cmd)
      modifies this
      ensures Inv(View(), Some(co)) && Owing() && Lost() == old(Lost())
      ensures errorQueue == old(errorQueue) && zombies == old(zombies) && resumed == old(resumed)
      ensures |wakeupQueue| + |forkQueue| <= old(|wakeupQueue| + |forkQueue|) + 1
    {
      hide Inv;
      hide DeadOf;
      match cmd
      case CFork =>
        ForkKeeps(View(), Some(co));
        CreateDead(View(), Some(co), Queued);
        Fork();
      case CTimeout =>
        TimeoutKeeps(View(), Some(co));
        CreateDead(View(), Some(co), Armed(lastSession + 1));
        Timeout();
      case CWakeup(token) =>
        WakeupKeeps(View(), Some(co), token);
        Wakeup(token);
    }

    // A command with which `co` gives the processor back; false when it fails.
    method Leave(co: nat, cmd: Cmd) returns (ok: bool)
      requires Inv(View(), Some(co)) && Owing() && Leaves(cmd)
      modifies this
      ensures Inv(View(), None) && Owing() && co !in old(Lost())
      ensures ok <==> !Fails(cmd, old(sleepSession))
      ensures Lost() == if ok then old(Lost()) else old(Lost()) + {co}
      ensures !ok ==> co in status && status[co] == Dead
      ensures errorQueue == old(errorQueue) && zombies == old(zombies) && resumed == old(resumed)
      ensures wakeupQueue == old(wakeupQueue) && forkQueue == old(forkQueue)
    {
      hide Inv;
      hide DeadOf;
      var session := lastSession + 1;
      ok := true;
      match cmd
      case CSleep(token) =>
        SleepKeeps(View(), co, token, true);
        LeaveDead(View(), co, if token in sleepSession then Dead else Asleep(session, token, true));
        ok := Sleep(co, token, true);
      case CWait(token) =>
        SleepKeeps(View(), co, token, false);
        LeaveDead(View(), co, if token in sleepSession then Dead else Asleep(session, token, false));
        ok := Sleep(co, token, false);
      case CCall(service) =>
        CallKeeps(View(), co, service);
        LeaveDead(View(), co, Calling(session));
        Call(co, service);
      case CReturn =>
        FinishKeeps(View(), co);
        LeaveDead(View(), co, Pooled);
        Finish(co);
      case CFail =>
        FailKeeps(View(), co);
        LeaveDead(View(), co, Dead);
        status := status[co := Dead];
        ok := false;
    }

    // `co` runs until it gives the processor back or fails.
    method Run(co: nat, script: seq<Cmd>) returns (ok: bool, rest: seq<Cmd>)
      requires Inv(View(), Some(co)) && Owing()
      modifies this
      ensures Inv(View(), None) && Owing()
      ensures errorQueue == old(errorQueue) && zombies == old(zombies) && resumed == old(resumed)
      ensures Work(rest) <= old(Work(script))
      ensures !ok ==> Work(rest) < old(Work(script)) && co in status && status[co] == Dead
      ensures co !in old(Lost()) && Lost() == if ok then old(Lost()) else old(Lost()) + {co}
    {
      hide Inv;
      hide DeadOf;
      rest := script;
      while rest != [] && !Leaves(rest[0])
        invariant Inv(View(), Some(co)) && Owing() && Lost() == old(Lost())
        invariant errorQueue == old(errorQueue) && zombies == old(zombies) && resumed == old(resumed)
        invariant Work(rest) <= old(Work(script))
        decreases |rest|
      {
        Continue(co, rest[0]);
        rest := rest[1..];
      }
      if rest == [] {
        ok := Leave(co, CReturn);
      } else {
        ok := Leave(co, rest[0]);
        rest := rest[1..];
      }
    }

    // ----- Resuming -----

    // The coroutine is resumed: it must be suspended. It first forgets its token, session or watch.
    method Resume(co: nat)
      requires co in status && Suspended(status[co])
      modifies this`status, this`sleepSession, this`sic, this`watching, this`resumed, this`owed, this`failed
      ensures View() == Enter(old(View()), co)
      ensures resumed == old(resumed) + [co]
      ensures owed == if old(status[co]).Asleep? then old(owed) - {old(status[co]).token} else old(owed)
      ensures failed == if old(status[co]).Calling? then old(failed) - {old(status[co]).session} else old(failed)
      ensures Lost() == old(Lost())
    {
      hide DeadOf;
      hide Enter;
      EnterParts(View(), co);
      ResumeDead(status, co);
      resumed := resumed + [co];
      var st := status[co];
      status := status[co := Running];
      if st.Asleep? {
        WakeFrom(st);
      } else if st.Calling? {
        watching, failed := watching - {st.session}, failed - {st.session};
      }
    }

    // The end of skynet.sleep or skynet.wait.
    method WakeFrom(st: Status)
      requires st.Asleep?
      modifies this`sleepSession, this`sic, this`owed
      ensures sleepSession == old(sleepSession) - {st.token} && owed == old(owed) - {st.token}
      ensures sic == if st.timed then old(sic) else old(sic) - {st.session}
    {
      sleepSession, owed := sleepSession - {st.token}, owed - {st.token};
      if !st.timed {
        sic := sic - {st.session};
      }
    }

    // suspend: after a normal end, the next woken coroutine runs; an error forks an empty coroutine,
    // so that the queues are looked at again, and goes on to the caller.
    method Suspend(ok: bool, script: seq<Cmd>) returns (succ: bool, rest: seq<Cmd>)
      requires Inv(View(), None) && Owing()
      modifies this
      ensures Inv(View(), None) && Owing() && zombies == old(zombies)
      ensures succ ==> ok && wakeupQueue == [] && errorQueue == []
      ensures !succ ==> forkQueue != []
      ensures Work(rest) <= old(Work(script)) + if ok then 0 else 1
      ensures !ok ==> resumed == old(resumed)
      ensures old(Lost()) <= Lost() && (succ <==> ok && Lost() == old(Lost()))
      ensures old(resumed) <= resumed
      decreases Work(script), 2
    {
      hide Inv;
      hide DeadOf;
      if !ok {
        ForkKeeps(View(), None);
        CreateDead(View(), None, Queued);
        Fork();
        return false, script;
      }
      succ, rest := DispatchWakeup(script);
    }

    // dispatch_wakeup, then dispatch_error_queue
    method DispatchWakeup(script: seq<Cmd>) returns (succ: bool, rest: seq<Cmd>)
      requires Inv(View(), None) && Owing()
      modifies this
      ensures Inv(View(), None) && Owing() && zombies == old(zombies)
      ensures succ ==> wakeupQueue == [] && errorQueue == []
      ensures !succ ==> forkQueue != []
      ensures Work(rest) <= old(Work(script))
      ensures old(Lost()) <= Lost() && (succ <==> Lost() == old(Lost()))
      ensures old(resumed) <= resumed
      decreases Work(script), 1
    {
      hide Inv;
      hide DeadOf;
      while wakeupQueue != []
        invariant Inv(View(), None) && Owing() && zombies == old(zombies)
        invariant Work(script) <= old(Work(script)) && Lost() == old(Lost()) && resumed == old(resumed)
        decreases |wakeupQueue|
      {
        var token := wakeupQueue[0];
        if token in sleepSession {
          succ, rest := WakeSleeper(token, script);
          return;
        }
        SkipKeeps(View());
        wakeupQueue := wakeupQueue[1..];
      }
      succ, rest := DispatchErrorQueue(script);
    }

    // A resumed coroutine runs, and suspend deals with its end.
    method Proceed(co: nat, script: seq<Cmd>) returns (succ: bool, rest: seq<Cmd>)
      requires Inv(View(), Some(co)) && Owing()
      modifies this
      ensures Inv(View(), None) && Owing() && zombies == old(zombies)
      ensures succ ==> wakeupQueue == [] && errorQueue == []
      ensures !succ ==> forkQueue != []
      ensures Work(rest) <= old(Work(script))
      ensures old(Lost()) <= Lost() && (succ <==> Lost() == old(Lost()))
      ensures old(resumed) <= resumed
      decreases Work(script), 3
    {
      hide Inv;
      hide DeadOf;
      var ok;
      ok, rest := Run(co, script);
      succ, rest := Suspend(ok, rest);
    }

    // The first token of wakeup_queue belongs to a sleeper: it is resumed, its timer (if any) is left behind
    // as a tombstone.
    method WakeFirst(token: nat) returns (co: nat)
      requires Inv(View(), None) && Owing() && wakeupQueue != [] && token == wakeupQueue[0] && token in sleepSession
      modifies this
      ensures Inv(View(), Some(co)) && Owing() && zombies == old(zombies)
      ensures wakeupQueue == old(wakeupQueue[1..]) && errorQueue == old(errorQueue) && forkQueue == old(forkQueue)
      ensures Lost() == old(Lost())
      ensures token in old(sleepSession) && old(sleepSession)[token] in old(sic)
      ensures old(sic)[old(sleepSession)[token]] == Thread(co) && resumed == old(resumed) + [co]
    {
      hide Inv;
      hide DeadOf;
      TokenThread(View(), token);
      var session := sleepSession[token];
      co := sic[session].co;
      SleeperAlive(View(), token, co);
      WokenKeeps(View(), token, co);
      wakeupQueue := wakeupQueue[1..];
      sic := sic[session := Break];
      if session in timers {
        early := early + {session};
      }
      Resume(co);
    }

    method WakeSleeper(token: nat, script: seq<Cmd>) returns (succ: bool, rest: seq<Cmd>)
      requires Inv(View(), None) && Owing() && wakeupQueue != [] && token == wakeupQueue[0] && token in sleepSession
      modifies this
      ensures Inv(View(), None) && Owing() && zombies == old(zombies)
      ensures succ ==> wakeupQueue == [] && errorQueue == []
      ensures !succ ==> forkQueue != []
      ensures Work(rest) <= old(Work(script))
      ensures old(Lost()) <= Lost() && (succ <==> Lost() == old(Lost()))
      ensures old(resumed) <= resumed
      decreases Work(script), 0
    {
      hide Inv;
      hide DeadOf;
      var co := WakeFirst(token);
      succ, rest := Proceed(co, script);
    }

    method DispatchErrorQueue(script: seq<Cmd>) returns (succ: bool, rest: seq<Cmd>)
      requires Inv(View(), None) && Owing() && wakeupQueue == []
      modifies this
      ensures Inv(View(), None) && Owing() && zombies == old(zombies)
      ensures succ ==> wakeupQueue == [] && errorQueue == []
      ensures !succ ==> forkQueue != []
      ensures Work(rest) <= old(Work(script))
      ensures old(Lost()) <= Lost() && (succ <==> Lost() == old(Lost()))
      ensures old(resumed) <= resumed
      ensures old(errorQueue) == [] ==> resumed == old(resumed)
      ensures old(errorQueue) != [] ==>
        && old(errorQueue)[0] in old(sic) && old(sic)[old(errorQueue)[0]].Thread?
        && old(resumed) + [old(sic)[old(errorQueue)[0]].co] <= resumed
      decreases Work(script), 0
    {
      hide Inv;
      hide DeadOf;
      if errorQueue == [] {
        return true, script;
      }
      var session := errorQueue[0];
      ErrorThread(View());
      var co := sic[session].co;
      CallerAlive(View(), co);
      CallFailsKeeps(View(), co);
      errorQueue := errorQueue[1..];
      sic := sic - {session};
      Resume(co);
      succ, rest := Proceed(co, script);
    }

    // _error_dispatch: the calls that wait for the failed session or service.
    method ErrorDispatch(session: nat, source: nat)
      requires errorQueue == []
      modifies this`errorQueue, this`failed
      ensures Distinct(errorQueue) && failed == set s | s in errorQueue
      ensures forall s ::
        s in errorQueue <==> s in watching && if session == 0 then watching[s] == source else s == session
    {
      if session == 0 {
        var left := watching.Keys;
        while left != {}
          invariant left <= watching.Keys && Distinct(errorQueue)
          invariant forall s :: s in errorQueue <==> s in watching && s !in left && watching[s] == source
          decreases |left|
        {
          var s :| s in left;
          left := left - {s};
          if watching[s] == source {
            DistinctAppend(errorQueue, s);
            errorQueue := errorQueue + [s];
          }
        }
      } else if session in watching {
        errorQueue := errorQueue + [session];
      }
      failed := set s | s in errorQueue;
    }

    // raw_dispatch_message
    method RawDispatch(msg: Message, script: seq<Cmd>) returns (succ: bool, rest: seq<Cmd>)
      requires Idle()
      modifies this
      ensures Inv(View(), None) && Owing()
      ensures forkQueue == [] ==> wakeupQueue == [] && errorQueue == []
      ensures zombies == old(zombies) + if Orphan(old(View()), msg) then 1 else 0
      ensures Tombstone(old(View()), msg) ==>
        succ && View() == Arrive(old(View()), msg.session) && resumed == old(resumed)
      ensures msg.Response? && msg.session !in old(sic) ==> !succ && View() == old(View()) && resumed == old(resumed)
      ensures old(Lost()) <= Lost()
      ensures succ <==> Lost() == old(Lost()) && zombies == old(zombies) && !(msg.Response? && msg.session !in old(sic))
      ensures msg.Response? && msg.session in old(sic) && old(sic)[msg.session].Thread? ==>
        (msg.session !in old(stale) ==> old(resumed) + [old(sic)[msg.session].co] <= resumed)
    {
      hide Inv;
      hide DeadOf;
      match msg
      case Response(session) =>
        succ, rest := DispatchResponse(session, script);
      case Error(session, source) =>
        succ, rest := DispatchError(session, source, script);
      case Request =>
        succ, rest := DispatchRequest(script);
    }

    method DispatchError(session: nat, source: nat, script: seq<Cmd>) returns (succ: bool, rest: seq<Cmd>)
      requires Idle()
      modifies this
      ensures Inv(View(), None) && Owing() && zombies == old(zombies)
      ensures forkQueue == [] ==> wakeupQueue == [] && errorQueue == []
      ensures old(Lost()) <= Lost() && (succ <==> Lost() == old(Lost()))
    {
      hide Inv;
      hide DeadOf;
      RequestKeeps(View());
      CreateDead(View(), None, Running);
      var co := CoCreate(Running);
      resumed := resumed + [co];
      ErrorDispatch(session, source);
      ErrorsKeep(old(View()), View(), co);
      LeaveDead(View(), co, Pooled);
      FinishKeeps(View(), co);
      Finish(co);
      succ, rest := Suspend(true, script);
    }

    method DispatchRequest(script: seq<Cmd>) returns (succ: bool, rest: seq<Cmd>)
      requires Idle()
      modifies this
      ensures Inv(View(), None) && Owing() && zombies == old(zombies)
      ensures forkQueue == [] ==> wakeupQueue == [] && errorQueue == []
      ensures old(Lost()) <= Lost() && (succ <==> Lost() == old(Lost()))
    {
      hide Inv;
      hide DeadOf;
      RequestKeeps(View());
      CreateDead(View(), None, Running);
      var co := CoCreate(Running);
      resumed := resumed + [co];
      succ, rest := Proceed(co, script);
    }

    method DispatchResponse(session: nat, script: seq<Cmd>) returns (succ: bool, rest: seq<Cmd>)
      requires Idle()
      modifies this
      ensures Inv(View(), None) && Owing()
      ensures forkQueue == [] ==> wakeupQueue == [] && errorQueue == []
      ensures zombies == old(zombies) + if Orphan(old(View()), Response(session)) then 1 else 0
      ensures Tombstone(old(View()), Response(session)) ==>
        succ && View() == Arrive(old(View()), session) && resumed == old(resumed)
      ensures session !in old(sic) ==> !succ && View() == old(View()) && resumed == old(resumed)
      ensures old(Lost()) <= Lost()
      ensures succ <==> Lost() == old(Lost()) && zombies == old(zombies) && session in old(sic)
      ensures old(resumed) <= resumed
      ensures session in old(sic) && old(sic)[session].Thread? && session !in old(stale) ==>
        old(resumed) + [old(sic)[session].co] <= resumed
    {
      hide Inv;
      hide DeadOf;
      rest := script;
      if session !in sic {
        return false, rest;   // unknown_response raises an error
      }
      ghost var k := View();
      var entry := sic[session];
      sic, timers := sic - {session}, timers - {session};
      if entry == Break {
        TombstonesExact(k, None, session);
        TombstoneKeeps(k, session);
        return true, rest;
      }
      var co := entry.co;
      StaleDead(k, session, co);
      if status[co] == Dead {
        // a coroutine that is not suspended cannot be resumed
        StaleKeeps(k, session);
        zombies := zombies + 1;
        succ, rest := Suspend(false, rest);
        return;
      }
      EntryAlive(k, session, co);
      RespondKeeps(k, session, co);
      Resume(co);
      succ, rest := Proceed(co, rest);
    }

    // skynet.dispatch_message: whatever coroutines do, and however many fail, it ends with nothing
    // left to do.
    method DispatchMessage(msg: Message, script: seq<Cmd>) returns (succ: bool)
      requires Idle()
      modifies this
      ensures Idle()
      ensures zombies == old(zombies) + if Orphan(old(View()), msg) then 1 else 0
      ensures Tombstone(old(View()), msg) ==>
        succ && View() == Arrive(old(View()), msg.session) && resumed == old(resumed)
      ensures msg.Response? && msg.session !in old(sic) ==> !succ && View() == old(View()) && resumed == old(resumed)
      ensures old(Lost()) <= Lost()
      ensures succ <==> Lost() == old(Lost()) && zombies == old(zombies) && !(msg.Response? && msg.session !in old(sic))
      ensures msg.Response? && msg.session in old(sic) && old(sic)[msg.session].Thread? ==>
        (msg.session !in old(stale) ==> old(resumed) + [old(sic)[msg.session].co] <= resumed)
    {
      var rest;
      succ, rest := RawDispatch(msg, script);
      succ := RunForks(succ, rest);
    }

    // The loop of dispatch_message: forked coroutines run until none is left.
    method RunForks(ok: bool, script: seq<Cmd>) returns (succ: bool)
      requires Inv(View(), None) && Owing() && (forkQueue == [] ==> wakeupQueue == [] && errorQueue == [])
      modifies this
      ensures Idle() && zombies == old(zombies)
      ensures old(forkQueue) == [] ==> succ == ok && View() == old(View()) && resumed == old(resumed)
      ensures old(Lost()) <= Lost() && (succ <==> ok && Lost() == old(Lost()))
      ensures old(resumed) <= resumed
    {
      hide Inv;
      hide DeadOf;
      succ := ok;
      var rest := script;
      while forkQueue != []
        invariant Inv(View(), None) && Owing() && zombies == old(zombies)
        invariant forkQueue == [] ==> wakeupQueue == [] && errorQueue == []
        invariant old(Lost()) <= Lost() && (succ <==> ok && Lost() == old(Lost()))
        invariant old(resumed) <= resumed
        invariant old(forkQueue) == [] ==> succ == ok && View() == old(View()) && resumed == old(resumed)
        decreases Work(rest)
      {
        var forkSucc;
        forkSucc, rest := StartFork(rest);
        if !forkSucc {
          succ := false;
        }
      }
    }

    // The first forked coroutine runs.
    method StartFork(script: seq<Cmd>) returns (succ: bool, rest: seq<Cmd>)
      requires Inv(View(), None) && Owing() && forkQueue != []
      modifies this
      ensures Inv(View(), None) && Owing() && zombies == old(zombies)
      ensures succ ==> wakeupQueue == [] && errorQueue == []
      ensures !succ ==> forkQueue != []
      ensures Work(rest) < old(Work(script))
      ensures old(Lost()) <= Lost() && (succ <==> Lost() == old(Lost()))
      ensures old(resumed) + [old(forkQueue)[0]] <= resumed
    {
      hide Inv;
      hide DeadOf;
      var co := forkQueue[0];
      ForkReady(View());
      StartedKeeps(View());
      forkQueue := forkQueue[1..];
      Resume(co);
      succ, rest := Proceed(co, script);
    }
  }

  // The message for a session that a failed sleep or wait left behind.
  ghost predicate Orphan(k: Core, msg: Message) {
    msg.Response? && msg.session in k.sic && msg.session in k.stale
  }

  // The message of a timer whose sleeper was woken before.
  ghost predicate Tombstone(k: Core, msg: Message) {
    msg.Response? && msg.session in k.sic && k.sic[msg.session] == Break
  }
}
