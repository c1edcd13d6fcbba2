/**
 The tables of the coroutine scheduler and the steps that change them. A step either hands the
 processor to a parked coroutine or is one command of the running one.
 */
module SchedulerCore {
  import opened Words
  import opened Chains

  // An entry of session_id_coroutine: the coroutine to resume, or the "BREAK" tombstone.
  datatype Entry = Thread(co: nat) | Break

  datatype Status =
    | Running
    | Dead
    | Queued                                            // in fork_queue
    | Armed(session: nat)                               // to be started by a timer
    | Asleep(session: nat, token: nat, timed: bool)     // in skynet.sleep (timed) or skynet.wait
    | Calling(session: nat)                             // in skynet.call
    | Pooled                                            // finished, kept for reuse

  datatype Core = Core(
    sic: map<nat, Entry>,        // session_id_coroutine
    watching: map<nat, nat>,     // watching_session: the service each call waits for
    sleep: map<nat, nat>,        // sleep_session: the session behind each token
    wakeups: seq<nat>,           // wakeup_queue
    errors: seq<nat>,            // error_queue
    forks: seq<nat>,             // fork_queue
    pool: seq<nat>,              // coroutine_pool
    status: map<nat, Status>,    // every coroutine created
    nextCo: nat,
    last: nat,                   // the last session the C core handed out
    timers: set<nat>,            // timer messages in flight
    early: set<nat>,             // timers whose sleeper was woken before they fired
    stale: set<nat>)             // sessions registered by a sleep or wait that then failed

  // ----- The invariant -----

  ghost predicate Runs(k: Core, run: Option<nat>) {
    && (run.Some? ==> run.value in k.status)
    && (forall c | c in k.status :: k.status[c] == Running <==> run == Some(c))
    && (forall c | c in k.status :: c < k.nextCo)
  }

  ghost predicate Queues(k: Core) {
    && Distinct(k.forks) && (forall c :: c in k.forks <==> c in k.status && k.status[c] == Queued)
    && Distinct(k.pool) && (forall c :: c in k.pool <==> c in k.status && k.status[c] == Pooled)
  }

  ghost predicate EntryOk(k: Core, s: nat)
    requires s in k.sic
  {
    match k.sic[s]
    case Break => s in k.timers && s in k.early && s !in k.stale
    case Thread(c) =>
      && c in k.status
      && if s in k.stale then k.status[c] == Dead
         else k.status[c] == Armed(s) || k.status[c] == Calling(s)
              || (k.status[c].Asleep? && k.status[c].session == s)
  }

  ghost predicate Holds(k: Core, s: nat, c: nat) {
    s in k.sic && k.sic[s] == Thread(c) && s !in k.stale && s !in k.early
  }

  ghost predicate StatusOk(k: Core, c: nat)
    requires c in k.status
  {
    match k.status[c]
    case Armed(s) => Holds(k, s, c) && s in k.timers
    case Asleep(s, t, timed) => Holds(k, s, c) && (timed <==> s in k.timers) && t in k.sleep && k.sleep[t] == s
    case Calling(s) => Holds(k, s, c) && s !in k.timers && s in k.watching
    case _ => true
  }

  ghost predicate Entries(k: Core) {
    && (forall s | s in k.sic :: EntryOk(k, s))
    && (forall c | c in k.status :: StatusOk(k, c))
  }

  // The coroutine parked on token `t`.
  ghost predicate SleepOk(k: Core, t: nat)
    requires t in k.sleep
  {
    var s := k.sleep[t];
    && s in k.sic && k.sic[s].Thread? && k.sic[s].co in k.status
    && k.status[k.sic[s].co].Asleep? && k.status[k.sic[s].co].session == s && k.status[k.sic[s].co].token == t
  }

  ghost predicate WatchOk(k: Core, s: nat) {
    s in k.sic && k.sic[s].Thread? && k.sic[s].co in k.status && k.status[k.sic[s].co] == Calling(s)
  }

  ghost predicate Waits(k: Core) {
    && (forall t | t in k.sleep :: SleepOk(k, t))
    && Watches(k)
  }

  ghost predicate Watches(k: Core) {
    && (forall s | s in k.watching :: WatchOk(k, s))
    && Distinct(k.errors) && (forall s | s in k.errors :: s in k.watching)
  }

  ghost predicate Sessions(k: Core) {
    && (forall s | s in k.sic :: s <= k.last)
    && (forall s | s in k.timers + k.early + k.stale :: s <= k.last)
    && (forall s | s in k.timers :: s in k.sic)
    && (forall s | s in k.timers * k.early :: k.sic[s] == Break)
  }

  ghost predicate Inv(k: Core, run: Option<nat>) {
    Runs(k, run) && Queues(k) && Entries(k) && Waits(k) && Sessions(k)
  }

  // ----- Commands of the running coroutine `c` -----

  // co_create: the last coroutine of the pool, or a new one; the caller says what it is for.
  function Creator(k: Core): nat {
    if k.pool != [] then k.pool[|k.pool| - 1] else k.nextCo
  }

  function Create(k: Core, st: Status): Core {
    k.(pool := if k.pool != [] then k.pool[..|k.pool| - 1] else [],
       nextCo := if k.pool != [] then k.nextCo else k.nextCo + 1,
       status := k.status[Creator(k) := st])
  }

  function Fork(k: Core): Core {
    Create(k, Queued).(forks := k.forks + [Creator(k)])
  }

  function Timeout(k: Core): Core {
    var s := k.last + 1;
    Create(k, Armed(s)).(sic := k.sic[s := Thread(Creator(k))], timers := k.timers + {s}, last := s)
  }

  function Wakeup(k: Core, t: nat): Core {
    if t in k.sleep then k.(wakeups := k.wakeups + [t]) else k
  }

  // suspend_sleep for a new session: the coroutine is registered before the token is checked.
  function Sleep(k: Core, c: nat, t: nat, timed: bool): Core {
    var s := k.last + 1;
    var k' := k.(last := s, sic := k.sic[s := Thread(c)], timers := if timed then k.timers + {s} else k.timers);
    if t in k.sleep then k'.(stale := k.stale + {s}, status := k.status[c := Dead])
    else k'.(sleep := k.sleep[t := s], status := k.status[c := Asleep(s, t, timed)])
  }

  function Call(k: Core, c: nat, service: nat): Core {
    var s := k.last + 1;
    k.(last := s, watching := k.watching[s := service], sic := k.sic[s := Thread(c)],
        status := k.status[c := Calling(s)])
  }

  function Finish(k: Core, c: nat): Core {
    k.(pool := k.pool + [c], status := k.status[c := Pooled])
  }

  function Fail(k: Core, c: nat): Core {
    k.(status := k.status[c := Dead])
  }

  // ----- Giving the processor away -----

  // What a coroutine does first when it is resumed: sleep and wait forget their token, wait its
  // session, call its watch.
  function Enter(k: Core, c: nat): Core
    requires c in k.status
  {
    var k' := k.(status := k.status[c := Running]);
    match k.status[c]
    case Asleep(s, t, timed) => k'.(sleep := k.sleep - {t}, sic := if timed then k.sic else k.sic - {s})
    case Calling(s) => k'.(watching := k.watching - {s})
    case _ => k'
  }

  lemma {:induction false} EnterParts(k: Core, c: nat)
    requires c in k.status
    ensures var st := k.status[c];
      Enter(k, c) == k.(status := k.status[c := Running],
                        sleep := if st.Asleep? then k.sleep - {st.token} else k.sleep,
                        sic := if st.Asleep? && !st.timed then k.sic - {st.session} else k.sic,
                        watching := if st.Calling? then k.watching - {st.session} else k.watching)
  {
  }

  // A response or timer message for session `s` arrives.
  function Arrive(k: Core, s: nat): Core {
    k.(sic := k.sic - {s}, timers := k.timers - {s})
  }

  // The first token of wakeup_queue.
  function Wake(k: Core, t: nat): Core
    requires k.wakeups != [] && t in k.sleep
  {
    var s := k.sleep[t];
    k.(wakeups := k.wakeups[1..], sic := k.sic[s := Break], early := if s in k.timers then k.early + {s} else k.early)
  }

  // The first session of error_queue.
  function TakeError(k: Core): Core
    requires k.errors != []
  {
    k.(errors := k.errors[1..], sic := k.sic - {k.errors[0]})
  }

  function TakeFork(k: Core): Core
    requires k.forks != []
  {
    k.(forks := k.forks[1..])
  }

  // A response wakes the coroutine `c` that waits for session `s`.
  function Respond(k: Core, s: nat, c: nat): Core
    requires c in k.status
  {
    Enter(Arrive(k, s), c)
  }

  // The coroutine parked on the first woken token runs.
  function Woken(k: Core, t: nat, c: nat): Core
    requires k.wakeups != [] && t in k.sleep && c in k.status
  {
    Enter(Wake(k, t), c)
  }

  // The first failed call returns.
  function CallFails(k: Core, c: nat): Core
    requires k.errors != [] && c in k.status
  {
    Enter(TakeError(k), c)
  }

  // The first forked coroutine starts.
  function Started(k: Core): Core
    requires k.forks != [] && k.forks[0] in k.status
  {
    Enter(TakeFork(k), k.forks[0])
  }

  // ----- Every step keeps the invariant -----

  // co_create never takes a coroutine that something else holds.
  lemma {:induction false} CreatorIdle(k: Core, run: Option<nat>)
    requires Runs(k, run) && Queues(k)
    ensures Creator(k) in k.status ==> k.status[Creator(k)] == Pooled
    ensures Create(k, Queued).status == k.status[Creator(k) := Queued]
  {
    if k.pool != [] {
      assert k.pool[|k.pool| - 1] in k.pool;
    }
  }

  lemma {:induction false} ForkQueues(k: Core, run: Option<nat>)
    requires Inv(k, run)
    ensures Runs(Fork(k), run) && Queues(Fork(k))
  {
    hide Entries;
    hide Waits;
    hide Sessions;
    if k.pool != [] {
      DistinctFront(k.pool);
    }
    DistinctAppend(k.forks, Creator(k));
  }

  lemma {:induction false} ForkEntries(k: Core, run: Option<nat>)
    requires Inv(k, run)
    ensures Entries(Fork(k))
  {
    hide Queues;
    hide Distinct;
    CreatorIdle(k, run);
  }

  lemma {:induction false} ForkWaits(k: Core, run: Option<nat>)
    requires Inv(k, run)
    ensures Waits(Fork(k)) && Sessions(Fork(k))
  {
    hide Queues;
    hide Distinct;
    CreatorIdle(k, run);
  }

  lemma {:induction false} TimeoutQueues(k: Core, run: Option<nat>)
    requires Inv(k, run)
    ensures Runs(Timeout(k), run) && Queues(Timeout(k))
  {
    hide Entries;
    hide Waits;
    hide Sessions;
    if k.pool != [] {
      DistinctFront(k.pool);
    }
    DistinctAppend(k.forks, Creator(k));
  }

  lemma {:induction false} TimeoutEntries(k: Core, run: Option<nat>)
    requires Inv(k, run)
    ensures forall s | s in Timeout(k).sic :: EntryOk(Timeout(k), s)
  {
    hide Queues;
    hide Distinct;
    CreatorIdle(k, run);
  }

  lemma {:induction false} TimeoutStatuses(k: Core, run: Option<nat>)
    requires Inv(k, run)
    ensures forall x | x in Timeout(k).status :: StatusOk(Timeout(k), x)
  {
    hide Queues;
    hide Distinct;
    CreatorIdle(k, run);
  }

  lemma {:induction false} TimeoutSleeps(k: Core, run: Option<nat>)
    requires Inv(k, run)
    ensures forall x | x in Timeout(k).sleep :: SleepOk(Timeout(k), x)
  {
    hide Queues;
    hide Distinct;
    hide WatchOk;
    CreatorIdle(k, run);
  }

  lemma {:induction false} TimeoutWatches(k: Core, run: Option<nat>)
    requires Inv(k, run)
    ensures Watches(Timeout(k))
  {
    hide Queues;
    hide Distinct;
    hide SleepOk;
    CreatorIdle(k, run);
  }

  lemma {:induction false} TimeoutSessions(k: Core, run: Option<nat>)
    requires Inv(k, run)
    ensures Sessions(Timeout(k))
  {
    hide Queues;
    hide Distinct;
    CreatorIdle(k, run);
  }

  lemma {:induction false} WakeupQueues(k: Core, run: Option<nat>, t: nat)
    requires Inv(k, run)
    ensures Runs(Wakeup(k, t), run) && Queues(Wakeup(k, t))
  {
    hide Entries;
    hide Waits;
    hide Sessions;
  }

  lemma {:induction false} WakeupEntries(k: Core, run: Option<nat>, t: nat)
    requires Inv(k, run)
    ensures Entries(Wakeup(k, t))
  {
    hide Queues;
    hide Distinct;
  }

  lemma {:induction false} WakeupWaits(k: Core, run: Option<nat>, t: nat)
    requires Inv(k, run)
    ensures Waits(Wakeup(k, t)) && Sessions(Wakeup(k, t))
  {
    hide Queues;
    hide Distinct;
  }

  lemma {:induction false} SleepQueues(k: Core, c: nat, t: nat, timed: bool)
    requires Inv(k, Some(c))
    ensures Runs(Sleep(k, c, t, timed), None) && Queues(Sleep(k, c, t, timed))
  {
    hide Entries;
    hide Waits;
    hide Sessions;
  }

  lemma {:induction false} SleepEntries(k: Core, c: nat, t: nat, timed: bool)
    requires Inv(k, Some(c))
    ensures forall s | s in Sleep(k, c, t, timed).sic :: EntryOk(Sleep(k, c, t, timed), s)
  {
    hide Queues;
    hide Distinct;
  }

  lemma {:induction false} SleepStatuses(k: Core, c: nat, t: nat, timed: bool)
    requires Inv(k, Some(c))
    ensures forall x | x in Sleep(k, c, t, timed).status :: StatusOk(Sleep(k, c, t, timed), x)
  {
    hide Queues;
    hide Distinct;
    hide EntryOk;
    hide SleepOk;
    hide WatchOk;
  }

  lemma {:induction false} SleepSleeps(k: Core, c: nat, t: nat, timed: bool)
    requires Inv(k, Some(c))
    ensures forall x | x in Sleep(k, c, t, timed).sleep :: SleepOk(Sleep(k, c, t, timed), x)
  {
    hide Queues;
    hide Distinct;
    hide WatchOk;
  }

  lemma {:induction false} SleepWatches(k: Core, c: nat, t: nat, timed: bool)
    requires Inv(k, Some(c))
    ensures Watches(Sleep(k, c, t, timed))
  {
    hide Queues;
    hide Distinct;
    hide SleepOk;
  }

  lemma {:induction false} SleepSessions(k: Core, c: nat, t: nat, timed: bool)
    requires Inv(k, Some(c))
    ensures Sessions(Sleep(k, c, t, timed))
  {
    hide Queues;
    hide Distinct;
  }

  lemma {:induction false} CallQueues(k: Core, c: nat, service: nat)
    requires Inv(k, Some(c))
    ensures Runs(Call(k, c, service), None) && Queues(Call(k, c, service))
  {
    hide Entries;
    hide Waits;
    hide Sessions;
  }

  lemma {:induction false} CallEntries(k: Core, c: nat, service: nat)
    requires Inv(k, Some(c))
    ensures Entries(Call(k, c, service))
  {
    hide Queues;
    hide Distinct;
  }

  lemma {:induction false} CallWaits(k: Core, c: nat, service: nat)
    requires Inv(k, Some(c))
    ensures Waits(Call(k, c, service)) && Sessions(Call(k, c, service))
  {
    hide Queues;
    hide Distinct;
  }

  lemma {:induction false} FinishQueues(k: Core, c: nat)
    requires Inv(k, Some(c))
    ensures Runs(Finish(k, c), None) && Queues(Finish(k, c))
  {
    hide Entries;
    hide Waits;
    hide Sessions;
    DistinctAppend(k.pool, c);
  }

  lemma {:induction false} FinishEntries(k: Core, c: nat)
    requires Inv(k, Some(c))
    ensures Entries(Finish(k, c))
  {
    hide Queues;
    hide Distinct;
  }

  lemma {:induction false} FinishWaits(k: Core, c: nat)
    requires Inv(k, Some(c))
    ensures Waits(Finish(k, c)) && Sessions(Finish(k, c))
  {
    hide Queues;
    hide Distinct;
  }

  lemma {:induction false} FailQueues(k: Core, c: nat)
    requires Inv(k, Some(c))
    ensures Runs(Fail(k, c), None) && Queues(Fail(k, c))
  {
    hide Entries;
    hide Waits;
    hide Sessions;
  }

  lemma {:induction false} FailEntries(k: Core, c: nat)
    requires Inv(k, Some(c))
    ensures Entries(Fail(k, c))
  {
    hide Queues;
    hide Distinct;
  }

  lemma {:induction false} FailWaits(k: Core, c: nat)
    requires Inv(k, Some(c))
    ensures Waits(Fail(k, c)) && Sessions(Fail(k, c))
  {
    hide Queues;
    hide Distinct;
  }
  // A coroutine that is resumed is suspended, at the very point the resumer thinks.
  predicate Suspended(st: Status) { st.Queued? || st.Armed? || st.Asleep? || st.Calling? }

  lemma {:induction false} EntryAlive(k: Core, s: nat, c: nat)
    requires Inv(k, None) && s in k.sic && k.sic[s] == Thread(c) && s !in k.stale
    ensures c in k.status && (k.status[c].Armed? || k.status[c].Asleep? || k.status[c].Calling?)
      && k.status[c].session == s
  {
    hide Queues;
    hide Waits;
    hide Sessions;
    assert EntryOk(k, s);
  }

  lemma {:induction false} SleeperAlive(k: Core, t: nat, c: nat)
    requires Inv(k, None) && t in k.sleep && k.sleep[t] in k.sic && k.sic[k.sleep[t]] == Thread(c)
    ensures c in k.status && k.status[c].Asleep? && k.status[c].token == t && k.status[c].session == k.sleep[t]
  {
    hide Queues;
    hide Sessions;
    assert SleepOk(k, t);
  }

  lemma {:induction false} CallerAlive(k: Core, c: nat)
    requires Inv(k, None) && k.errors != [] && k.errors[0] in k.sic && k.sic[k.errors[0]] == Thread(c)
    ensures c in k.status && k.status[c] == Calling(k.errors[0])
  {
    hide Queues;
    hide Sessions;
    assert k.errors[0] in k.watching && WatchOk(k, k.errors[0]);
  }

  lemma {:induction false} RespondQueues(k: Core, s: nat, c: nat)
    requires Inv(k, None) && k.errors == []
    requires s in k.sic && k.sic[s] == Thread(c) && s !in k.stale
    ensures Runs(Respond(k, s, c), Some(c)) && Queues(Respond(k, s, c))
  {
    hide Entries;
    hide Waits;
    hide Sessions;
    EntryAlive(k, s, c);
  }

  lemma {:induction false} RespondEntries(k: Core, s: nat, c: nat)
    requires Inv(k, None) && k.errors == []
    requires s in k.sic && k.sic[s] == Thread(c) && s !in k.stale
    ensures forall x | x in Respond(k, s, c).sic :: EntryOk(Respond(k, s, c), x)
  {
    hide Queues;
    hide Distinct;
    assert EntryOk(k, s) && StatusOk(k, c);
  }

  lemma {:induction false} RespondStatuses(k: Core, s: nat, c: nat)
    requires Inv(k, None) && k.errors == []
    requires s in k.sic && k.sic[s] == Thread(c) && s !in k.stale
    ensures forall x | x in Respond(k, s, c).status :: StatusOk(Respond(k, s, c), x)
  {
    hide Queues;
    hide Distinct;
    assert EntryOk(k, s) && StatusOk(k, c);
  }

  lemma {:induction false} RespondSleeps(k: Core, s: nat, c: nat)
    requires Inv(k, None) && k.errors == []
    requires s in k.sic && k.sic[s] == Thread(c) && s !in k.stale
    ensures forall x | x in Respond(k, s, c).sleep :: SleepOk(Respond(k, s, c), x)
  {
    hide Queues;
    hide WatchOk;
    assert EntryOk(k, s) && StatusOk(k, c);
  }

  lemma {:induction false} RespondWatches(k: Core, s: nat, c: nat)
    requires Inv(k, None) && k.errors == []
    requires s in k.sic && k.sic[s] == Thread(c) && s !in k.stale
    ensures Watches(Respond(k, s, c))
  {
    hide Queues;
    hide SleepOk;
    assert EntryOk(k, s) && StatusOk(k, c);
  }

  lemma {:induction false} RespondSessions(k: Core, s: nat, c: nat)
    requires Inv(k, None) && k.errors == []
    requires s in k.sic && k.sic[s] == Thread(c) && s !in k.stale
    ensures Sessions(Respond(k, s, c))
  {
    hide Queues;
    hide Distinct;
    assert EntryOk(k, s) && StatusOk(k, c);
  }

  lemma {:induction false} RespondKeeps(k: Core, s: nat, c: nat)
    requires Inv(k, None) && k.errors == []
    requires s in k.sic && k.sic[s] == Thread(c) && s !in k.stale
    ensures Inv(Respond(k, s, c), Some(c))
  {
    hide EntryOk;
    hide StatusOk;
    hide Queues;
    hide SleepOk;
    hide Watches;
    hide Sessions;
    hide Runs;
    RespondQueues(k, s, c);
    RespondEntries(k, s, c);
    RespondStatuses(k, s, c);
    RespondSleeps(k, s, c);
    RespondWatches(k, s, c);
    RespondSessions(k, s, c);
  }

  lemma {:induction false} TombstoneQueues(k: Core, s: nat)
    requires Inv(k, None)
    requires s in k.sic && k.sic[s] == Break
    ensures Runs(Arrive(k, s), None) && Queues(Arrive(k, s))
  {
    hide Entries;
    hide Waits;
    hide Sessions;
  }

  lemma {:induction false} TombstoneEntries(k: Core, s: nat)
    requires Inv(k, None)
    requires s in k.sic && k.sic[s] == Break
    ensures forall x | x in Arrive(k, s).sic :: EntryOk(Arrive(k, s), x)
  {
    hide Queues;
    hide Distinct;
    assert EntryOk(k, s);
  }

  lemma {:induction false} TombstoneStatuses(k: Core, s: nat)
    requires Inv(k, None)
    requires s in k.sic && k.sic[s] == Break
    ensures forall x | x in Arrive(k, s).status :: StatusOk(Arrive(k, s), x)
  {
    hide Queues;
    hide Distinct;
    assert EntryOk(k, s);
  }

  lemma {:induction false} TombstoneWaits(k: Core, s: nat)
    requires Inv(k, None)
    requires s in k.sic && k.sic[s] == Break
    ensures Waits(Arrive(k, s))
  {
    hide Queues;
    assert EntryOk(k, s);
  }

  lemma {:induction false} TombstoneSessions(k: Core, s: nat)
    requires Inv(k, None)
    requires s in k.sic && k.sic[s] == Break
    ensures Sessions(Arrive(k, s))
  {
    hide Queues;
    hide Distinct;
    assert EntryOk(k, s);
  }

  lemma {:induction false} TombstoneKeeps(k: Core, s: nat)
    requires Inv(k, None)
    requires s in k.sic && k.sic[s] == Break
    ensures Inv(Arrive(k, s), None)
  {
    hide EntryOk;
    hide StatusOk;
    hide Queues;
    hide SleepOk;
    hide Watches;
    hide Sessions;
    hide Runs;
    TombstoneQueues(k, s);
    TombstoneEntries(k, s);
    TombstoneStatuses(k, s);
    TombstoneWaits(k, s);
    TombstoneSessions(k, s);
  }

  lemma {:induction false} StaleQueues(k: Core, s: nat)
    requires Inv(k, None)
    requires s in k.sic && s in k.stale
    ensures Runs(Arrive(k, s), None) && Queues(Arrive(k, s))
  {
    hide Entries;
    hide Waits;
    hide Sessions;
  }

  lemma {:induction false} StaleEntries(k: Core, s: nat)
    requires Inv(k, None)
    requires s in k.sic && s in k.stale
    ensures forall x | x in Arrive(k, s).sic :: EntryOk(Arrive(k, s), x)
  {
    hide Queues;
    hide Distinct;
    assert EntryOk(k, s);
  }

  lemma {:induction false} StaleStatuses(k: Core, s: nat)
    requires Inv(k, None)
    requires s in k.sic && s in k.stale
    ensures forall x | x in Arrive(k, s).status :: StatusOk(Arrive(k, s), x)
  {
    hide Queues;
    hide Distinct;
    assert EntryOk(k, s);
  }

  lemma {:induction false} StaleWaits(k: Core, s: nat)
    requires Inv(k, None)
    requires s in k.sic && s in k.stale
    ensures Waits(Arrive(k, s))
  {
    hide Queues;
    assert EntryOk(k, s);
  }

  lemma {:induction false} StaleSessions(k: Core, s: nat)
    requires Inv(k, None)
    requires s in k.sic && s in k.stale
    ensures Sessions(Arrive(k, s))
  {
    hide Queues;
    hide Distinct;
    assert EntryOk(k, s);
  }

  lemma {:induction false} StaleKeeps(k: Core, s: nat)
    requires Inv(k, None)
    requires s in k.sic && s in k.stale
    ensures Inv(Arrive(k, s), None)
  {
    hide EntryOk;
    hide StatusOk;
    hide Queues;
    hide SleepOk;
    hide Watches;
    hide Sessions;
    hide Runs;
    StaleQueues(k, s);
    StaleEntries(k, s);
    StaleStatuses(k, s);
    StaleWaits(k, s);
    StaleSessions(k, s);
  }

  lemma {:induction false} WokenQueues(k: Core, t: nat, c: nat)
    requires Inv(k, None) && k.wakeups != []
    requires t in k.sleep && k.sleep[t] in k.sic && k.sic[k.sleep[t]] == Thread(c)
    ensures Runs(Woken(k, t, c), Some(c)) && Queues(Woken(k, t, c))
  {
    hide Entries;
    hide Waits;
    hide Sessions;
    SleeperAlive(k, t, c);
  }

  lemma {:induction false} WokenEntries(k: Core, t: nat, c: nat)
    requires Inv(k, None) && k.wakeups != []
    requires t in k.sleep && k.sleep[t] in k.sic && k.sic[k.sleep[t]] == Thread(c)
    ensures forall x | x in Woken(k, t, c).sic :: EntryOk(Woken(k, t, c), x)
  {
    hide Queues;
    hide Distinct;
    assert SleepOk(k, t) && StatusOk(k, c);
  }

  lemma {:induction false} WokenStatuses(k: Core, t: nat, c: nat)
    requires Inv(k, None) && k.wakeups != []
    requires t in k.sleep && k.sleep[t] in k.sic && k.sic[k.sleep[t]] == Thread(c)
    ensures forall x | x in Woken(k, t, c).status :: StatusOk(Woken(k, t, c), x)
  {
    hide Queues;
    hide Distinct;
    assert SleepOk(k, t) && StatusOk(k, c);
  }

  lemma {:induction false} WokenSleeps(k: Core, t: nat, c: nat)
    requires Inv(k, None) && k.wakeups != []
    requires t in k.sleep && k.sleep[t] in k.sic && k.sic[k.sleep[t]] == Thread(c)
    ensures forall x | x in Woken(k, t, c).sleep :: SleepOk(Woken(k, t, c), x)
  {
    hide Queues;
    hide WatchOk;
    assert SleepOk(k, t) && StatusOk(k, c);
  }

  lemma {:induction false} WokenWatches(k: Core, t: nat, c: nat)
    requires Inv(k, None) && k.wakeups != []
    requires t in k.sleep && k.sleep[t] in k.sic && k.sic[k.sleep[t]] == Thread(c)
    ensures Watches(Woken(k, t, c))
  {
    hide Queues;
    hide SleepOk;
    SleeperAlive(k, t, c);
  }

  lemma {:induction false} WokenSessions(k: Core, t: nat, c: nat)
    requires Inv(k, None) && k.wakeups != []
    requires t in k.sleep && k.sleep[t] in k.sic && k.sic[k.sleep[t]] == Thread(c)
    ensures Sessions(Woken(k, t, c))
  {
    hide Queues;
    hide Distinct;
    assert SleepOk(k, t) && StatusOk(k, c);
  }

  lemma {:induction false} WokenKeeps(k: Core, t: nat, c: nat)
    requires Inv(k, None) && k.wakeups != []
    requires t in k.sleep && k.sleep[t] in k.sic && k.sic[k.sleep[t]] == Thread(c)
    ensures Inv(Woken(k, t, c), Some(c))
  {
    hide EntryOk;
    hide StatusOk;
    hide Queues;
    hide SleepOk;
    hide Watches;
    hide Sessions;
    hide Runs;
    WokenQueues(k, t, c);
    WokenEntries(k, t, c);
    WokenStatuses(k, t, c);
    WokenSleeps(k, t, c);
    WokenWatches(k, t, c);
    WokenSessions(k, t, c);
  }

  lemma {:induction false} CallFailsQueues(k: Core, c: nat)
    requires Inv(k, None) && k.errors != []
    requires k.errors[0] in k.sic && k.sic[k.errors[0]] == Thread(c)
    ensures Runs(CallFails(k, c), Some(c)) && Queues(CallFails(k, c))
  {
    hide Entries;
    hide Waits;
    hide Sessions;
    CallerAlive(k, c);
  }

  lemma {:induction false} CallFailsEntries(k: Core, c: nat)
    requires Inv(k, None) && k.errors != []
    requires k.errors[0] in k.sic && k.sic[k.errors[0]] == Thread(c)
    ensures forall x | x in CallFails(k, c).sic :: EntryOk(CallFails(k, c), x)
  {
    hide Queues;
    hide Distinct;
    assert k.errors[0] in k.watching && WatchOk(k, k.errors[0]) && StatusOk(k, c);
  }

  lemma {:induction false} CallFailsStatuses(k: Core, c: nat)
    requires Inv(k, None) && k.errors != []
    requires k.errors[0] in k.sic && k.sic[k.errors[0]] == Thread(c)
    ensures forall x | x in CallFails(k, c).status :: StatusOk(CallFails(k, c), x)
  {
    hide Queues;
    hide Distinct;
    assert k.errors[0] in k.watching && WatchOk(k, k.errors[0]) && StatusOk(k, c);
  }

  lemma {:induction false} CallFailsSleeps(k: Core, c: nat)
    requires Inv(k, None) && k.errors != []
    requires k.errors[0] in k.sic && k.sic[k.errors[0]] == Thread(c)
    ensures forall x | x in CallFails(k, c).sleep :: SleepOk(CallFails(k, c), x)
  {
    hide Queues;
    hide WatchOk;
    assert k.errors[0] in k.watching && WatchOk(k, k.errors[0]) && StatusOk(k, c);
  }

  lemma {:induction false} CallFailsWatches(k: Core, c: nat)
    requires Inv(k, None) && k.errors != []
    requires k.errors[0] in k.sic && k.sic[k.errors[0]] == Thread(c)
    ensures Watches(CallFails(k, c))
  {
    hide Queues;
    hide SleepOk;
    assert k.errors[0] in k.watching && WatchOk(k, k.errors[0]) && StatusOk(k, c);
  }

  lemma {:induction false} CallFailsSessions(k: Core, c: nat)
    requires Inv(k, None) && k.errors != []
    requires k.errors[0] in k.sic && k.sic[k.errors[0]] == Thread(c)
    ensures Sessions(CallFails(k, c))
  {
    hide Queues;
    hide Distinct;
    assert k.errors[0] in k.watching && WatchOk(k, k.errors[0]) && StatusOk(k, c);
  }

  lemma {:induction false} CallFailsKeeps(k: Core, c: nat)
    requires Inv(k, None) && k.errors != []
    requires k.errors[0] in k.sic && k.sic[k.errors[0]] == Thread(c)
    ensures Inv(CallFails(k, c), Some(c))
  {
    hide EntryOk;
    hide StatusOk;
    hide Queues;
    hide SleepOk;
    hide Watches;
    hide Sessions;
    hide Runs;
    CallFailsQueues(k, c);
    CallFailsEntries(k, c);
    CallFailsStatuses(k, c);
    CallFailsSleeps(k, c);
    CallFailsWatches(k, c);
    CallFailsSessions(k, c);
  }

  lemma {:induction false} StartedQueues(k: Core)
    requires Inv(k, None) && k.forks != []
    ensures Runs(Started(k), Some(k.forks[0])) && Queues(Started(k))
  {
    hide Entries;
    hide Waits;
    hide Sessions;
    assert k.forks[0] in k.forks;
    DistinctTail(k.forks);
  }

  lemma {:induction false} StartedEntries(k: Core)
    requires Inv(k, None) && k.forks != []
    ensures forall x | x in Started(k).sic :: EntryOk(Started(k), x)
  {
    hide Queues;
    hide Distinct;
    ForkReady(k);
  }

  lemma {:induction false} StartedStatuses(k: Core)
    requires Inv(k, None) && k.forks != []
    ensures forall x | x in Started(k).status :: StatusOk(Started(k), x)
  {
    hide Queues;
    hide Distinct;
    ForkReady(k);
  }

  lemma {:induction false} StartedWaits(k: Core)
    requires Inv(k, None) && k.forks != []
    ensures Waits(Started(k))
  {
    hide Queues;
    ForkReady(k);
  }

  lemma {:induction false} StartedSessions(k: Core)
    requires Inv(k, None) && k.forks != []
    ensures Sessions(Started(k))
  {
    hide Queues;
    hide Distinct;
    ForkReady(k);
  }

  lemma {:induction false} StartedKeeps(k: Core)
    requires Inv(k, None) && k.forks != []
    ensures Inv(Started(k), Some(k.forks[0]))
  {
    hide EntryOk;
    hide StatusOk;
    hide Queues;
    hide SleepOk;
    hide Watches;
    hide Sessions;
    hide Runs;
    StartedQueues(k);
    StartedEntries(k);
    StartedStatuses(k);
    StartedWaits(k);
    StartedSessions(k);
  }

  lemma {:induction false} RequestQueues(k: Core)
    requires Inv(k, None)
    ensures Runs(Create(k, Running), Some(Creator(k))) && Queues(Create(k, Running))
  {
    hide Entries;
    hide Waits;
    hide Sessions;
    CreatorIdle(k, None);
    if k.pool != [] {
      DistinctFront(k.pool);
    }
  }

  lemma {:induction false} RequestEntries(k: Core)
    requires Inv(k, None)
    ensures forall x | x in Create(k, Running).sic :: EntryOk(Create(k, Running), x)
  {
    hide Queues;
    hide Distinct;
    CreatorIdle(k, None);
  }

  lemma {:induction false} RequestStatuses(k: Core)
    requires Inv(k, None)
    ensures forall x | x in Create(k, Running).status :: StatusOk(Create(k, Running), x)
  {
    hide Queues;
    hide Distinct;
    CreatorIdle(k, None);
  }

  lemma {:induction false} RequestWaits(k: Core)
    requires Inv(k, None)
    ensures Waits(Create(k, Running))
  {
    hide Queues;
    CreatorIdle(k, None);
  }

  lemma {:induction false} RequestSessions(k: Core)
    requires Inv(k, None)
    ensures Sessions(Create(k, Running))
  {
    hide Queues;
    hide Distinct;
    CreatorIdle(k, None);
  }

  lemma {:induction false} RequestKeeps(k: Core)
    requires Inv(k, None)
    ensures Inv(Create(k, Running), Some(Creator(k)))
  {
    hide EntryOk;
    hide StatusOk;
    hide Queues;
    hide SleepOk;
    hide Watches;
    hide Sessions;
    hide Runs;
    RequestQueues(k);
    RequestEntries(k);
    RequestStatuses(k);
    RequestWaits(k);
    RequestSessions(k);
  }


  lemma {:induction false} ForkKeeps(k: Core, run: Option<nat>)
    requires Inv(k, run)
    ensures Inv(Fork(k), run)
  {
    hide EntryOk;
    hide StatusOk;
    hide Queues;
    hide SleepOk;
    hide Watches;
    hide Sessions;
    hide Runs;
    ForkQueues(k, run);
    ForkEntries(k, run);
    ForkWaits(k, run);
  }

  lemma {:induction false} TimeoutKeeps(k: Core, run: Option<nat>)
    requires Inv(k, run)
    ensures Inv(Timeout(k), run)
  {
    hide EntryOk;
    hide StatusOk;
    hide Queues;
    hide SleepOk;
    hide Watches;
    hide Sessions;
    hide Runs;
    TimeoutQueues(k, run);
    TimeoutEntries(k, run);
    TimeoutStatuses(k, run);
    TimeoutSleeps(k, run);
    TimeoutWatches(k, run);
    TimeoutSessions(k, run);
  }

  lemma {:induction false} WakeupKeeps(k: Core, run: Option<nat>, t: nat)
    requires Inv(k, run)
    ensures Inv(Wakeup(k, t), run)
  {
    hide EntryOk;
    hide StatusOk;
    hide Queues;
    hide SleepOk;
    hide Watches;
    hide Sessions;
    hide Runs;
    WakeupQueues(k, run, t);
    WakeupEntries(k, run, t);
    WakeupWaits(k, run, t);
  }

  lemma {:induction false} SleepKeeps(k: Core, c: nat, t: nat, timed: bool)
    requires Inv(k, Some(c))
    ensures Inv(Sleep(k, c, t, timed), None)
  {
    hide EntryOk;
    hide StatusOk;
    hide Queues;
    hide SleepOk;
    hide Watches;
    hide Sessions;
    hide Runs;
    SleepQueues(k, c, t, timed);
    SleepEntries(k, c, t, timed);
    SleepStatuses(k, c, t, timed);
    SleepSleeps(k, c, t, timed);
    SleepWatches(k, c, t, timed);
    SleepSessions(k, c, t, timed);
  }

  lemma {:induction false} CallKeeps(k: Core, c: nat, service: nat)
    requires Inv(k, Some(c))
    ensures Inv(Call(k, c, service), None)
  {
    hide EntryOk;
    hide StatusOk;
    hide Queues;
    hide SleepOk;
    hide Watches;
    hide Sessions;
    hide Runs;
    CallQueues(k, c, service);
    CallEntries(k, c, service);
    CallWaits(k, c, service);
  }

  lemma {:induction false} FinishKeeps(k: Core, c: nat)
    requires Inv(k, Some(c))
    ensures Inv(Finish(k, c), None)
  {
    hide EntryOk;
    hide StatusOk;
    hide Queues;
    hide SleepOk;
    hide Watches;
    hide Sessions;
    hide Runs;
    FinishQueues(k, c);
    FinishEntries(k, c);
    FinishWaits(k, c);
  }

  lemma {:induction false} FailKeeps(k: Core, c: nat)
    requires Inv(k, Some(c))
    ensures Inv(Fail(k, c), None)
  {
    hide EntryOk;
    hide StatusOk;
    hide Queues;
    hide SleepOk;
    hide Watches;
    hide Sessions;
    hide Runs;
    FailQueues(k, c);
    FailEntries(k, c);
    FailWaits(k, c);
  }

  // The token of a sleeper leads to its coroutine.
  lemma {:induction false} TokenThread(k: Core, t: nat)
    requires Inv(k, None) && t in k.sleep
    ensures k.sleep[t] in k.sic && k.sic[k.sleep[t]].Thread?
  {
    hide Queues;
    hide Sessions;
    assert SleepOk(k, t);
  }

  // So does a failed call.
  lemma {:induction false} ErrorThread(k: Core)
    requires Inv(k, None) && k.errors != []
    ensures k.errors[0] in k.sic && k.sic[k.errors[0]].Thread?
  {
    hide Queues;
    hide Sessions;
    assert k.errors[0] in k.watching && WatchOk(k, k.errors[0]);
  }

  // The entries and sleepers do not depend on the queues.
  lemma {:induction false} SameEntries(k: Core, k': Core, run: Option<nat>)
    requires Inv(k, run) && k' == k.(wakeups := k'.wakeups, errors := k'.errors)
    ensures Entries(k')
  {
    hide Queues;
    hide Waits;
    hide Sessions;
    hide Runs;
    assert forall s | s in k'.sic :: EntryOk(k, s) && EntryOk(k', s);
    assert forall c | c in k'.status :: StatusOk(k, c) && StatusOk(k', c);
  }

  lemma {:induction false} SameWaits(k: Core, k': Core, run: Option<nat>)
    requires Inv(k, run) && k' == k.(wakeups := k'.wakeups, errors := k'.errors)
    ensures forall t | t in k'.sleep :: SleepOk(k', t)
    ensures forall s | s in k'.watching :: WatchOk(k', s)
  {
    hide Queues;
    hide Entries;
    hide Sessions;
    hide Runs;
    hide Distinct;
    assert forall t | t in k'.sleep :: SleepOk(k, t) && SleepOk(k', t);
    assert forall s | s in k'.watching :: WatchOk(k, s) && WatchOk(k', s);
  }

  // A token nobody sleeps on any more is dropped.
  lemma {:induction false} SkipKeeps(k: Core)
    requires Inv(k, None) && k.wakeups != []
    ensures Inv(k.(wakeups := k.wakeups[1..]), None)
  {
    hide Distinct;
    hide Entries;
    hide SleepOk;
    hide WatchOk;
    SameEntries(k, k.(wakeups := k.wakeups[1..]), None);
    SameWaits(k, k.(wakeups := k.wakeups[1..]), None);
  }

  lemma {:induction false} ForkReady(k: Core)
    requires Inv(k, None) && k.forks != []
    ensures k.forks[0] in k.status && k.status[k.forks[0]] == Queued
  {
    hide Entries;
    hide Waits;
    hide Sessions;
    assert k.forks[0] in k.forks;
  }

  // An entry leads to a dead coroutine exactly when its session is stale.
  lemma {:induction false} StaleDead(k: Core, s: nat, c: nat)
    requires Inv(k, None) && s in k.sic && k.sic[s] == Thread(c)
    ensures c in k.status && (k.status[c] == Dead <==> s in k.stale)
  {
    hide Queues;
    hide Waits;
    hide Sessions;
    assert EntryOk(k, s);
  }

  // Failed calls are queued while the handler of the error message runs.
  lemma {:induction false} ErrorsKeep(k: Core, k': Core, c: nat)
    requires Inv(Create(k, Running), Some(c)) && k.errors == []
    requires k' == Create(k, Running).(errors := k'.errors)
    requires Distinct(k'.errors) && forall s | s in k'.errors :: s in k.watching
    ensures Inv(k', Some(c))
  {
    hide Distinct;
    hide Creator;
    hide Entries;
    hide SleepOk;
    hide WatchOk;
    SameEntries(Create(k, Running), k', Some(c));
    SameWaits(Create(k, Running), k', Some(c));
  }

  // ----- Who has failed -----

  ghost function DeadOf(status: map<nat, Status>): set<nat> {
    set c | c in status && status[c] == Dead
  }

  lemma DeadUpdate(status: map<nat, Status>, c: nat, st: Status)
    requires c in status ==> status[c] != Dead
    ensures DeadOf(status[c := st]) == (if st == Dead then DeadOf(status) + {c} else DeadOf(status))
    ensures c !in DeadOf(status)
  {
  }

  lemma ResumeDead(status: map<nat, Status>, c: nat)
    requires c in status && Suspended(status[c])
    ensures DeadOf(status[c := Running]) == DeadOf(status)
  {
    DeadUpdate(status, c, Running);
  }

  lemma {:induction false} CreateDead(k: Core, run: Option<nat>, st: Status)
    requires Inv(k, run) && st != Dead
    ensures DeadOf(Create(k, st).status) == DeadOf(k.status)
  {
    CreatorIdle(k, run);
    DeadUpdate(k.status, Creator(k), st);
  }

  // The running coroutine parks, ends or fails.
  lemma {:induction false} LeaveDead(k: Core, c: nat, st: Status)
    requires Inv(k, Some(c))
    ensures c !in DeadOf(k.status)
    ensures DeadOf(k.status[c := st]) == if st == Dead then DeadOf(k.status) + {c} else DeadOf(k.status)
  {
    DeadUpdate(k.status, c, st);
  }

  // ----- What the invariant says -----

  // The sessions that would resume coroutine `c`.
  ghost function Sources(k: Core, c: nat): set<nat> {
    set s | s in k.sic && k.sic[s] == Thread(c) && s !in k.stale
  }

  // Every coroutine that is not running and not dead is in exactly one place: once in fork_queue,
  // once in the pool, or behind exactly one session. A running or dead one is nowhere.
  lemma {:induction false} PlacedOnce(k: Core, run: Option<nat>, c: nat)
    requires Inv(k, run) && c in k.status
    ensures Distinct(k.forks) && Distinct(k.pool)
    ensures k.status[c] == Running || k.status[c] == Dead ==> c !in k.forks && c !in k.pool && Sources(k, c) == {}
    ensures k.status[c] == Queued <==> c in k.forks
    ensures k.status[c] == Pooled <==> c in k.pool
    ensures c in k.forks || c in k.pool ==> Sources(k, c) == {}
    ensures !(k.status[c] == Running || k.status[c] == Dead || c in k.forks || c in k.pool) ==>
      Sources(k, c) == {k.status[c].session}
  {
    hide Waits;
    hide Sessions;
    assert StatusOk(k, c);
    forall s | s in Sources(k, c)
      ensures k.status[c] == Armed(s) || k.status[c] == Calling(s) || (k.status[c].Asleep? && k.status[c].session == s)
    {
      assert EntryOk(k, s);
    }
  }

  // The tombstones are exactly the timers still in flight whose sleeper was woken before.
  lemma {:induction false} TombstonesExact(k: Core, run: Option<nat>, s: nat)
    requires Inv(k, run)
    ensures s in k.sic && k.sic[s] == Break <==> s in k.timers && s in k.early
    ensures s in k.sic && k.sic[s] == Break ==> s !in k.stale
  {
    hide Queues;
    hide Waits;
    if s in k.sic {
      assert EntryOk(k, s);
    }
  }

  const FRESH: Core := Core(map[], map[], map[], [], [], [], [], map[], 0, 0, {}, {}, {})

  // Two coroutines of a fresh service sleep on one token: the second dies and leaves an entry behind.
  lemma StaleReached()
    ensures var one := Sleep(Create(FRESH, Running), 0, 7, true); var two := Sleep(Create(one, Running), 1, 7, true);
      && Inv(FRESH, None) && Inv(Create(FRESH, Running), Some(0)) && Inv(one, None)
      && Inv(Create(one, Running), Some(1)) && Inv(two, None)
      && two.stale == {2} && two.sic[2] == Thread(1) && two.status[1] == Dead && 2 in two.timers
  {
    hide Inv;
    FreshInv();
    RequestKeeps(FRESH);
    SleepKeeps(Create(FRESH, Running), 0, 7, true);
    var one := Sleep(Create(FRESH, Running), 0, 7, true);
    RequestKeeps(one);
    SleepKeeps(Create(one, Running), 1, 7, true);
  }

  lemma FreshInv()
    ensures Inv(FRESH, None)
  {
  }
}
