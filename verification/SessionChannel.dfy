/**
 A socket channel in session mode: each response names the session of its request, and a response may
 come in parts. Sessions are not used twice.
 */
module SessionChannel {
  import opened Words

  datatype Outcome =
    | Answer(parts: seq<nat>)     // the data of all parts, in order
    | Refused(data: nat)          // a response that says no
    | Failed                      // socket_error

  // A response that was read from the connection. `more` is the padding flag.
  datatype Response = Response(session: nat, ok: bool, data: nat, more: bool)

  // The data that the responses to session `s` have given so far.
  function Parts(log: seq<Response>, s: nat): seq<nat> {
    if log == [] then []
    else
      var r := log[|log| - 1];
      Parts(log[..|log| - 1], s) + if r.session == s && r.ok then [r.data] else []
  }

  // The response that ends session `s`: the first one that is not followed by more.
  predicate Final(r: Response, s: nat) {
    r.session == s && !(r.more && r.ok)
  }

  lemma PartsMore(log: seq<Response>, r: Response, s: nat)
    ensures Parts(log + [r], s) == Parts(log, s) + if r.session == s && r.ok then [r.data] else []
  {
    assert (log + [r])[..|log|] == log;
  }

  // The dispatch thread: none, forked, or reading responses.
  datatype Dispatcher = Off | Ready | Reading

  datatype State = State(
    sock: bool,
    disp: Dispatcher,
    thread: map<nat, nat>,         // __thread: session to coroutine
    results: map<nat, Outcome>,    // __result and __result_data of those woken
    parts: map<nat, seq<nat>>,     // __result_data of those who wait
    asked: map<nat, nat>,          // the session of every coroutine that asked
    log: seq<Response>,            // the responses read
    failing: nat)                  // coroutines in sock_err that are still closing the socket

  // ----- Steps -----

  function Lost(s: State): State { s.(sock := false) }

  function Asked(s: State, c: nat, session: nat): State {
    s.(thread := s.thread[session := c], asked := s.asked[c := session])
  }

  function PartsOf(s: State, c: nat): seq<nat> {
    if c in s.parts then s.parts[c] else []
  }

  // The new connection, once there is no dispatch thread.
  function Connected(s: State): State { s.(sock := true, disp := Ready) }

  // The top of the loop of dispatch_by_session
  function Turned(s: State): State { s.(disp := if s.sock then Reading else Off) }

  // dispatch_by_session with a response, up to the top of its loop
  function Received(s: State, r: Response): State {
    Turned(Delivered(s, r))
  }

  function Delivered(s: State, r: Response): State {
    var t := s.(log := s.log + [r]);
    if r.session !in s.thread then t
    else
      var c := s.thread[r.session];
      if r.more && r.ok then t.(parts := s.parts[c := PartsOf(s, c) + [r.data]])
      else t.(thread := s.thread - {r.session}, parts := s.parts - {c},
              results := s.results[c := if r.ok then Answer(PartsOf(s, c) + [r.data]) else Refused(r.data)])
  }

  // wakeup_all
  function Waiters(thread: map<nat, nat>): set<nat> {
    set k | k in thread :: thread[k]
  }

  function FailAll(results: map<nat, Outcome>, cs: set<nat>): map<nat, Outcome> {
    map c | c in results.Keys + cs :: if c in cs then Failed else results[c]
  }

  function WakeAll(s: State): State {
    s.(thread := map[], results := FailAll(s.results, Waiters(s.thread)))
  }

  // sock_err closes the socket, which takes a while; then it wakes all who wait by that time.
  function WriteFailed(s: State): State { Lost(s).(failing := s.failing + 1) }

  function Woken(s: State): State
    requires s.failing > 0
  {
    WakeAll(s).(failing := s.failing - 1)
  }

  // The response function fails: the loop ends.
  function ReadFailed(s: State): State { WakeAll(Lost(s)).(disp := Off) }

  // ----- The invariant -----

  // Response `i` is the first to end session `k`.
  ghost predicate Ends(log: seq<Response>, i: int, k: nat) {
    0 <= i < |log| && Final(log[i], k) && forall j | 0 <= j < i :: !Final(log[j], k)
  }

  // No response has ended session `k`.
  ghost predicate Open(log: seq<Response>, k: nat) {
    forall i | 0 <= i < |log| :: !Final(log[i], k)
  }

  // An answer is all the data of the session up to its end.
  ghost predicate OutcomeOk(log: seq<Response>, k: nat, o: Outcome) {
    match o
    case Failed => true
    case Answer(data) => exists i :: Ends(log, i, k) && log[i].ok && data == Parts(log[..i + 1], k)
    case Refused(data) => exists i :: Ends(log, i, k) && !log[i].ok && data == log[i].data
  }

  // Every coroutine that asked waits under its session, or has its outcome.
  ghost predicate CoOk(s: State, c: nat)
    requires c in s.asked
  {
    var k := s.asked[c];
    if c in s.results then OutcomeOk(s.log, k, s.results[c]) && (k !in s.thread || s.thread[k] != c)
    else k in s.thread && s.thread[k] == c && Open(s.log, k) && PartsOf(s, c) == Parts(s.log, k)
  }

  ghost predicate Inv(s: State) {
    && (forall k | k in s.thread :: s.thread[k] in s.asked && s.asked[s.thread[k]] == k && s.thread[k] !in s.results)
    && (forall c | c in s.asked :: CoOk(s, c))
    && (forall c | c in s.results :: c in s.asked)
    && (forall c, d | c in s.asked && d in s.asked && c != d :: s.asked[c] != s.asked[d])
    && (forall c | c in s.parts :: c in s.asked)
  }

  // The session was not used before.
  ghost predicate NewSession(s: State, k: nat) {
    (forall c | c in s.asked :: s.asked[c] != k) && forall i | 0 <= i < |s.log| :: s.log[i].session != k
  }

  lemma {:induction false} NoParts(log: seq<Response>, k: nat)
    requires forall i | 0 <= i < |log| :: log[i].session != k
    ensures Parts(log, k) == [] && Open(log, k)
  {
    if log != [] {
      NoParts(log[..|log| - 1], k);
    }
  }

  lemma {:induction false} AskedInv(s: State, c: nat, k: nat)
    requires Inv(s) && c !in s.asked && NewSession(s, k)
    ensures Inv(Asked(s, c, k))
  {
    hide OutcomeOk;
    hide Parts;
    hide Open;
    var t := Asked(s, c, k);
    NoParts(s.log, k);
    forall d | d in t.asked
      ensures CoOk(t, d)
    {
      if d != c {
        assert CoOk(s, d);
      }
    }
  }

  lemma {:induction false} OutcomeKept(log: seq<Response>, r: Response, k: nat, o: Outcome)
    requires OutcomeOk(log, k, o)
    ensures OutcomeOk(log + [r], k, o)
  {
    match o
    case Failed =>
    case Answer(data) =>
      var i :| Ends(log, i, k) && log[i].ok && data == Parts(log[..i + 1], k);
      assert (log + [r])[..i + 1] == log[..i + 1] && Ends(log + [r], i, k);
    case Refused(data) =>
      var i :| Ends(log, i, k) && !log[i].ok && data == log[i].data;
      assert Ends(log + [r], i, k);
  }

  // The response that ends a session makes its outcome.
  lemma {:induction false} OutcomeNew(log: seq<Response>, r: Response, k: nat)
    requires Open(log, k) && Final(r, k)
    ensures r.ok ==> OutcomeOk(log + [r], k, Answer(Parts(log, k) + [r.data]))
    ensures !r.ok ==> OutcomeOk(log + [r], k, Refused(r.data))
  {
    PartsMore(log, r, k);
    assert Ends(log + [r], |log|, k);
    assert (log + [r])[..|log| + 1] == log + [r];
  }

  lemma {:induction false} ReceivedCo(s: State, r: Response, c: nat)
    requires Inv(s) && c in s.asked
    ensures CoOk(Received(s, r), c)
  {
    hide OutcomeOk;
    hide Open;
    hide Parts;
    hide PartsOf;
    CoParts(s, c);
    var t, k := Received(s, r), s.asked[c];
    PartsMore(s.log, r, k);
    OpenMore(s.log, r, k);
    if c in s.results {
      OutcomeKept(s.log, r, k, s.results[c]);
    } else if Final(r, k) {
      OutcomeNew(s.log, r, k);
    } else {
      assert PartsOf(t, c) == if r.session == k then PartsOf(s, c) + [r.data] else PartsOf(s, c) by {
        OtherParts(s, r, c);
      }
      assert Parts(s.log, k) + [] == Parts(s.log, k);
    }
  }

  lemma CoParts(s: State, c: nat)
    requires Inv(s) && c in s.asked
    ensures CoOk(s, c)
  {
    hide CoOk;
  }

  lemma OpenMore(log: seq<Response>, r: Response, k: nat)
    ensures Open(log, k) && !Final(r, k) ==> Open(log + [r], k)
  {
  }

  // Who waits for another session keeps its parts.
  lemma OtherParts(s: State, r: Response, c: nat)
    requires Inv(s) && c in s.asked && c !in s.results && s.asked[c] in s.thread && s.thread[s.asked[c]] == c
    requires !Final(r, s.asked[c])
    ensures PartsOf(Received(s, r), c) == if r.session == s.asked[c] then PartsOf(s, c) + [r.data] else PartsOf(s, c)
  {
    hide CoOk;
    hide Parts;
  }

  lemma {:induction false} ReceivedInv(s: State, r: Response)
    requires Inv(s)
    ensures Inv(Received(s, r))
  {
    var t := Received(s, r);
    forall c | c in t.asked
      ensures CoOk(t, c)
    {
      ReceivedCo(s, r, c);
    }
    hide CoOk;
    hide PartsOf;
  }

  lemma {:induction false} WakeAllInv(s: State)
    requires Inv(s)
    ensures Inv(WakeAll(s))
    ensures forall c | c in s.asked ::
      c in WakeAll(s).results && WakeAll(s).results[c] == if c in s.results then s.results[c] else Failed
  {
    var t := WakeAll(s);
    forall c | c in t.asked
      ensures CoOk(t, c) && c in t.results && t.results[c] == if c in s.results then s.results[c] else Failed
    {
      assert CoOk(s, c);
      if c in Waiters(s.thread) {
        var k :| k in s.thread && s.thread[k] == c;
      }
    }
  }

  lemma {:induction false} BrokenInv(s: State)
    requires Inv(s)
    ensures Inv(ReadFailed(s)) && forall c | c in s.asked :: c in ReadFailed(s).results
    ensures s.failing > 0 ==> Inv(Woken(s)) && forall c | c in s.asked :: c in Woken(s).results
    ensures forall c | c in s.asked ::
      c in WakeAll(s).results && WakeAll(s).results[c] == if c in s.results then s.results[c] else Failed
  {
    WakeAllInv(s);
    SameInv(WakeAll(s), ReadFailed(s));
    if s.failing > 0 {
      SameInv(WakeAll(s), Woken(s));
    }
  }

  // Nothing of it is about the connection and the dispatch thread.
  lemma {:induction false} SameInv(s: State, t: State)
    requires Inv(s) && t == s.(sock := t.sock, disp := t.disp, failing := t.failing)
    ensures Inv(t)
  {
    assert forall c | c in s.asked :: CoOk(s, c) && CoOk(t, c);
  }

  // ----- Runs -----

  datatype Step =
    | Ask(co: nat, session: nat)
    | Read(response: Response)    // the response function succeeds
    | Fail                        // or fails
    | WriteFails                  // sock_err closes the socket
    | WakeUp                      // and then wakes all who wait
    | Lose                        // the connection is found to be lost, or is given up
    | Connect
    | Run                         // the dispatch thread starts

  ghost predicate Leads(s: State, step: Step, t: State) {
    match step
    case Ask(c, k) => s.sock && c !in s.asked && NewSession(s, k) && t == Asked(s, c, k)
    case Read(r) => s.disp.Reading? && t == Received(s, r)
    case Fail => s.disp.Reading? && t == ReadFailed(s)
    case WriteFails => t == WriteFailed(s)
    case WakeUp => s.failing > 0 && t == Woken(s)
    case Lose => t == Lost(s)
    case Connect => !s.sock && s.disp.Off? && t == Connected(s)
    case Run => s.disp.Ready? && t == Turned(s)
  }

  lemma {:induction false} StepInv(s: State, step: Step, t: State)
    requires Inv(s) && Leads(s, step, t)
    ensures Inv(t)
    ensures forall c | c in s.results :: c in t.results && t.results[c] == s.results[c]
  {
    hide CoOk;
    hide NewSession;
    match step
    case Ask(c, k) => AskedInv(s, c, k);
    case Read(r) => ReceivedInv(s, r);
    case Fail => BrokenInv(s);
    case WriteFails => SameInv(s, t);
    case WakeUp => BrokenInv(s);
    case Lose => SameInv(s, t);
    case Connect => SameInv(s, t);
    case Run => SameInv(s, t);
  }

  // ----- Who gets what, and when -----

  // The step ends the wait of `c`.
  ghost predicate Settles(s: State, step: Step, c: nat) {
    && c in s.asked && c !in s.results
    && match step
       case Read(r) => Final(r, s.asked[c])
       case Fail => true
       case WakeUp => true
       case _ => false
  }

  // What `c` gets: all the data of its session, the refusal, or socket_error.
  ghost function Due(s: State, step: Step, c: nat): Outcome
    requires c in s.asked
  {
    match step
    case Read(r) => if r.ok then Answer(Parts(s.log, s.asked[c]) + [r.data]) else Refused(r.data)
    case _ => Failed
  }

  lemma {:induction false} ReceivedDue(s: State, r: Response, c: nat)
    requires Inv(s) && c in s.asked && c !in s.results
    ensures c in Received(s, r).results <==> Final(r, s.asked[c])
    ensures Final(r, s.asked[c]) ==> Received(s, r).results[c] == Due(s, Read(r), c)
  {
    hide Parts;
    CoParts(s, c);
  }

  lemma {:induction false} WokenDue(s: State, step: Step, t: State, c: nat)
    requires Inv(s) && Leads(s, step, t) && (step.Fail? || step.WakeUp?) && c in s.asked
    ensures c in t.results && t.results[c] == if c in s.results then s.results[c] else Failed
  {
    hide Inv;
    hide WakeAll;
    BrokenInv(s);
    FailedIs(s);
  }

  lemma FailedIs(s: State)
    ensures ReadFailed(s).results == WakeAll(s).results
    ensures s.failing > 0 ==> Woken(s).results == WakeAll(s).results
  {
  }

  lemma {:induction false} StepSettles(s: State, step: Step, t: State, c: nat)
    requires Inv(s) && Leads(s, step, t)
    ensures c in t.results <==> c in s.results || Settles(s, step, c)
    ensures Settles(s, step, c) ==> t.results[c] == Due(s, step, c)
    ensures c in s.results ==> t.results[c] == s.results[c]
  {
    hide Inv;
    hide NewSession;
    hide Parts;
    hide Received;
    hide Woken;
    hide ReadFailed;
    StepInv(s, step, t);
    InResults(s, c);
    InResults(t, c);
    StepAsked(s, step, t);
    if c in s.asked && c !in s.results {
      if step.Read? {
        ReceivedDue(s, step.response, c);
      } else if step.Fail? || step.WakeUp? {
        WokenDue(s, step, t, c);
      }
    }
  }

  lemma {:induction false} StepAsked(s: State, step: Step, t: State)
    requires Leads(s, step, t)
    ensures t.asked == if step.Ask? then s.asked[step.co := step.session] else s.asked
    ensures step.Ask? ==> t.results == s.results
  {
    hide NewSession;
  }

  lemma InResults(s: State, c: nat)
    requires Inv(s)
    ensures c in s.results ==> c in s.asked
  {
  }

  // On every run a coroutine has an outcome exactly when a step has ended its wait: a final response of its
  // session, a response that fails, or a failed write. And it has what it was due then.
  lemma {:induction false} RunSettled(ss: seq<State>, steps: seq<Step>, c: nat)
    requires |ss| == |steps| + 1 && ss[0] == FRESH && forall i | 0 <= i < |steps| :: Leads(ss[i], steps[i], ss[i + 1])
    ensures c in ss[|steps|].results <==> exists i :: 0 <= i < |steps| && Settles(ss[i], steps[i], c)
    ensures forall i | 0 <= i < |steps| && Settles(ss[i], steps[i], c) ::
      c in ss[|steps|].results && ss[|steps|].results[c] == Due(ss[i], steps[i], c)
  {
    assert Inv(ss[0]);
    hide Inv;
    hide Leads;
    hide SettledAs;
    SettledNone(ss, steps, c);
    for n := 0 to |steps|
      invariant Inv(ss[n])
      invariant SettledAs(ss, steps, n, c, ss[n].results)
    {
      StepInv(ss[n], steps[n], ss[n + 1]);
      StepSettles(ss[n], steps[n], ss[n + 1], c);
      SettledNext(ss, steps, n, c);
    }
    SettledIs(ss, steps, |steps|, c, ss[|steps|].results);
  }

  // The outcome of `c` is what the step that ended its wait, if there was one, has given.
  ghost predicate SettledAs(ss: seq<State>, steps: seq<Step>, n: nat, c: nat, results: map<nat, Outcome>)
    requires n <= |steps| < |ss|
  {
    && (c in results <==> exists i :: 0 <= i < n && Settles(ss[i], steps[i], c))
    && (forall i | 0 <= i < n && Settles(ss[i], steps[i], c) :: c in results && results[c] == Due(ss[i], steps[i], c))
  }

  lemma SettledIs(ss: seq<State>, steps: seq<Step>, n: nat, c: nat, results: map<nat, Outcome>)
    requires n <= |steps| < |ss| && SettledAs(ss, steps, n, c, results)
    ensures c in results <==> exists i :: 0 <= i < n && Settles(ss[i], steps[i], c)
    ensures forall i | 0 <= i < n && Settles(ss[i], steps[i], c) ::
      c in results && results[c] == Due(ss[i], steps[i], c)
  {
  }

  lemma SettledNone(ss: seq<State>, steps: seq<Step>, c: nat)
    requires |steps| < |ss| && ss[0].results == map[]
    ensures SettledAs(ss, steps, 0, c, ss[0].results)
  {
  }

  lemma {:induction false} SettledNext(ss: seq<State>, steps: seq<Step>, n: nat, c: nat)
    requires n < |steps| < |ss| && SettledAs(ss, steps, n, c, ss[n].results)
    requires c in ss[n + 1].results <==> c in ss[n].results || Settles(ss[n], steps[n], c)
    requires Settles(ss[n], steps[n], c) ==> ss[n + 1].results[c] == Due(ss[n], steps[n], c)
    requires c in ss[n].results ==> ss[n + 1].results[c] == ss[n].results[c]
    ensures SettledAs(ss, steps, n + 1, c, ss[n + 1].results)
  {
    SettlesOnce(ss[n], steps[n], c);
    hide Settles;
    hide Due;
  }

  lemma SettlesOnce(s: State, step: Step, c: nat)
    ensures Settles(s, step, c) ==> c in s.asked && c !in s.results
  {
  }

  // Somebody reads the responses for those who wait.
  ghost predicate Attended(s: State) {
    (s.sock || s.thread != map[]) ==> !s.disp.Off?
  }

  // The connection was given up while a response was read (or before the dispatch thread started), and
  // the dispatch thread ends at the top of its loop although sessions wait.
  ghost predicate Abandons(s: State, step: Step) {
    && !s.sock
    && match step
       case Read(r) => Delivered(s, r).thread != map[]
       case Run => s.thread != map[]
       case _ => false
  }

  // That is the only step that leaves sessions without a dispatch thread.
  lemma {:induction false} StepAttended(s: State, step: Step, t: State)
    requires Attended(s) && Leads(s, step, t)
    ensures Attended(t) <==> !Abandons(s, step)
  {
  }

  const FRESH: State := State(false, Off, map[], map[], map[], map[], [], 0)

  // Two sessions wait, the connection is given up while the response to one is read, and the response
  // succeeds: the other waits with nobody to answer it.
  lemma SessionAbandoned() returns (ss: seq<State>, steps: seq<Step>)
    ensures steps == [Connect, Run, Ask(1, 11), Ask(2, 22), Lose, Read(Response(11, true, 5, false))]
    ensures |ss| == 7 && ss[0] == FRESH && forall i | 0 <= i < 6 :: Leads(ss[i], steps[i], ss[i + 1])
    ensures Abandons(ss[5], steps[5])
    ensures ss[6].disp.Off? && 2 in ss[6].asked && 2 !in ss[6].results
  {
    var r := Response(11, true, 5, false);
    steps := [Connect, Run, Ask(1, 11), Ask(2, 22), Lose, Read(r)];
    var s1 := Connected(FRESH);
    var s2 := Turned(s1);
    var s3 := Asked(s2, 1, 11);
    var s4 := Asked(s3, 2, 22);
    var s5 := Lost(s4);
    var s6 := Received(s5, r);
    assert 22 in Delivered(s5, r).thread;
    ss := [FRESH, s1, s2, s3, s4, s5, s6];
  }

  // On every run each coroutine waits, or has one outcome that stays: an error, or exactly the data of
  // its own session.
  lemma {:induction false} RunPaired(ss: seq<State>, steps: seq<Step>, c: nat)
    requires |ss| == |steps| + 1 && ss[0] == FRESH && forall i | 0 <= i < |steps| :: Leads(ss[i], steps[i], ss[i + 1])
    requires c in ss[|steps|].asked
    ensures var s := ss[|steps|];
      && (c in s.results ==> OutcomeOk(s.log, s.asked[c], s.results[c]))
      && (c !in s.results ==> s.asked[c] in s.thread && s.thread[s.asked[c]] == c)
  {
    assert Inv(ss[0]);
    hide Inv;
    hide Leads;
    for i := 0 to |steps|
      invariant Inv(ss[i])
    {
      StepInv(ss[i], steps[i], ss[i + 1]);
    }
    Waiting(ss[|steps|], c);
  }

  lemma {:induction false} Waiting(s: State, c: nat)
    requires Inv(s) && c in s.asked
    ensures CoOk(s, c)
  {
  }

  class Channel {
    var sock: bool
    var disp: Dispatcher
    var thread: map<nat, nat>
    var results: map<nat, Outcome>
    var parts: map<nat, seq<nat>>
    ghost var asked: map<nat, nat>
    ghost var log: seq<Response>
    ghost var failing: nat  // coroutines inside sock_err

    ghost function View(): State
      reads this
    {
      State(sock, disp, thread, results, parts, asked, log, failing)
    }

    constructor ()
      ensures Inv(View()) && View() == FRESH
    {
      sock, disp, thread, results, parts := false, Off, map[], map[], map[];
      asked, log, failing := map[], [], 0;
    }

    // push_response
    method PushResponse(session: nat, co: nat)
      requires Inv(View()) && co !in asked && NewSession(View(), session)
      modifies this`thread, this`asked
      ensures Inv(View()) && View() == Asked(old(View()), co, session)
      ensures thread == old(thread)[session := co] && asked == old(asked)[co := session] && results == old(results)
    {
      AskedInv(View(), co, session);
      thread, asked := thread[session := co], asked[co := session];
    }

    // One turn of dispatch_by_session: a response, or an error.
    method Dispatch(r: Option<Response>)
      requires Inv(View()) && disp.Reading?
      modifies this
      ensures Inv(View()) && View() == if r.Some? then Received(old(View()), r.value) else ReadFailed(old(View()))
      ensures forall c | c in old(asked) && c !in old(results) ::
        var step := if r.Some? then Read(r.value) else Fail;
        && (c in results <==> Settles(old(View()), step, c))
        && (c in results ==> results[c] == Due(old(View()), step, c))
      ensures sock == (r.Some? && old(sock)) && disp == if sock then Reading else Off
      ensures r.Some? ==> log == old(log) + [r.value]
    {
      hide Inv;
      hide WakeAll;
      hide Settles;
      hide Due;
      hide Delivered;
      DispatchSettles(View(), r);
      if r.Some? {
        ReceivedInv(View(), r.value);
        Deliver(r.value);
        disp := if sock then Reading else Off;
      } else {
        BrokenInv(View());
        sock := false;
        WakeupAll();
        disp := Off;
      }
    }

    // The response goes to the coroutine that waits under its session.
    method Deliver(r: Response)
      modifies this`log, this`thread, this`results, this`parts
      ensures View() == Delivered(old(View()), r) && log == old(log) + [r]
    {
      var Response(session, ok, data, more) := r;
      log := log + [r];
      if session in thread {
        var co := thread[session];
        var result := if co in parts then parts[co] else [];
        if more && ok {
          parts := parts[co := result + [data]];
        } else {
          thread := thread - {session};
          results := results[co := if ok then Answer(result + [data]) else Refused(data)];
          parts := parts - {co};
        }
      }
    }

    // sock_err up to the end of socket.close, which lets others run
    method SockErr()
      requires Inv(View())
      modifies this`sock, this`failing
      ensures Inv(View()) && View() == WriteFailed(old(View())) && !sock
    {
      SameInv(View(), WriteFailed(View()));
      sock, failing := false, failing + 1;
    }

    // and then: whoever waits gets socket_error
    method SockErrEnds()
      requires Inv(View()) && failing > 0
      modifies this
      ensures Inv(View()) && View() == Woken(old(View())) && thread == map[] && sock == old(sock)
      ensures forall c | c in asked ::
        c in results && results[c] == if c in old(results) then old(results)[c] else Failed
    {
      hide Inv;
      BrokenInv(View());
      WakeupAll();
      failing := failing - 1;
    }

    // wakeup_all
    method WakeupAll()
      modifies this`thread, this`results
      ensures View() == WakeAll(old(View())) && thread == map[]
    {
      hide FailAll;
      hide Waiters;
      ghost var before, waiting, done := results, thread, {};
      FailNone(before);
      while thread.Keys != {}
        invariant results == FailAll(before, done) && done + Waiters(thread) == Waiters(waiting)
        decreases |thread|
      {
        var k :| k in thread.Keys;
        var co := thread[k];
        WakeOne(before, done, thread, k);
        thread := thread - {k};
        results := results[co := Failed];
        done := done + {co};
      }
      assert thread == map[];
      FailNone(before);
    }
  }

  lemma DispatchSettles(s: State, r: Option<Response>)
    requires Inv(s) && s.disp.Reading?
    ensures var t := if r.Some? then Received(s, r.value) else ReadFailed(s);
      var step := if r.Some? then Read(r.value) else Fail;
      forall c | c in s.asked && c !in s.results ::
        && (c in t.results <==> Settles(s, step, c))
        && (c in t.results ==> t.results[c] == Due(s, step, c))
  {
    hide Inv;
    hide Settles;
    hide Due;
    var t := if r.Some? then Received(s, r.value) else ReadFailed(s);
    var step := if r.Some? then Read(r.value) else Fail;
    assert Leads(s, step, t);
    forall c | c in s.asked && c !in s.results
      ensures c in t.results <==> Settles(s, step, c)
      ensures c in t.results ==> t.results[c] == Due(s, step, c)
    {
      StepSettles(s, step, t, c);
    }
  }

  lemma FailNone(results: map<nat, Outcome>)
    ensures FailAll(results, {}) == results && Waiters(map[]) == {}
  {
  }

  lemma WakeOne(results: map<nat, Outcome>, done: set<nat>, thread: map<nat, nat>, k: nat)
    requires k in thread
    ensures FailAll(results, done + {thread[k]}) == FailAll(results, done)[thread[k] := Failed]
    ensures Waiters(thread) == Waiters(thread - {k}) + {thread[k]}
  {
    forall c
      ensures c in Waiters(thread) <==> c in Waiters(thread - {k}) + {thread[k]}
    {
      if c in Waiters(thread) {
        var j :| j in thread && thread[j] == c;
        assert j != k ==> j in thread - {k} && (thread - {k})[j] == c;
      }
    }
  }
}
