/**
 The bookkeeping of a socket channel in order mode: response functions and the coroutines that wait
 for them are kept in two queues, and a dispatcher coroutine answers them in the order of the requests.
 */
module OrderChannel {
  import opened Words

  // The response that a function was registered for: the connection and the number on it.
  datatype Tag = Tag(epoch: nat, number: nat)

  // An entry of __request: a response function, or the close signal.
  datatype Request = Function(tag: Tag) | Signal

  // What a waiting coroutine gets: what the response function `func` has read, the response `tag`, or
  // socket_error.
  datatype Outcome = Answer(func: Tag, tag: Tag) | Failed

  // The dispatch thread.
  datatype Dispatcher =
    | Off
    | Ready                          // forked, it has not run yet
    | Waiting                        // in pop_response
    | Busy(tag: Tag, co: nat)        // reading the response for `co`

  datatype State = State(
    sock: bool,
    epoch: nat,                    // how many connections were made
    sent: nat,                     // requests on this connection
    read: nat,                     // responses read from it
    request: seq<Request>,         // __request
    thread: seq<Option<nat>>,      // __thread; None is false
    disp: Dispatcher,
    asked: map<nat, Tag>,          // every request made, by its waiting coroutine
    results: map<nat, Outcome>,
    failing: nat)                  // coroutines in sock_err that are still closing the socket

  // ----- Steps -----

  // close_channel_socket: check_connection, changehost and the close callback do only this.
  function Lost(s: State): State { s.(sock := false) }

  // wakeup_all: whoever waits gets socket_error.
  function Waiters(thread: seq<Option<nat>>): set<nat> {
    set x | x in thread && x.Some? :: x.value
  }

  function FailAll(results: map<nat, Outcome>, thread: seq<Option<nat>>): map<nat, Outcome> {
    map c | c in results.Keys + Waiters(thread) :: if c in Waiters(thread) then Failed else results[c]
  }

  function WakeAll(s: State): State {
    s.(request := [], thread := [], results := FailAll(s.results, s.thread))
  }

  // push_response of a coroutine that has sent its request.
  function Asked(s: State, c: nat): State {
    var t := Tag(s.epoch, s.sent);
    s.(sent := s.sent + 1, request := s.request + [Function(t)], thread := s.thread + [Some(c)],
        asked := s.asked[c := t])
  }

  // term_dispatch_thread
  function Signalled(s: State): State {
    if s.disp.Off? then s else s.(request := s.request + [Signal], thread := s.thread + [None])
  }

  // The new connection.
  function Connected(s: State): State {
    s.(sock := true, epoch := s.epoch + 1, sent := 0, read := 0, disp := Ready)
  }

  // sock_err closes the socket, which takes a while; others run before it wakes all who wait by then.
  function WriteFailed(s: State): State { Lost(s).(failing := s.failing + 1) }

  function Woken(s: State): State
    requires s.failing > 0
  {
    WakeAll(s).(failing := s.failing - 1)
  }

  // table.remove(q, 1): the first element, and what is left.
  function First(thread: seq<Option<nat>>): Option<nat> { if thread == [] then None else thread[0] }

  function Rest(thread: seq<Option<nat>>): seq<Option<nat>> { if thread == [] then [] else thread[1..] }

  // The dispatcher from pop_response on.
  function Popped(s: State): State {
    if s.request == [] then s.(disp := Waiting)
    else
      var t := s.(request := s.request[1..], thread := Rest(s.thread));
      match (s.request[0], First(s.thread))
      case (Function(tag), Some(c)) =>
        if s.sock then t.(disp := Busy(tag, c)) else WakeAll(t.(results := t.results[c := Failed])).(disp := Off)
      case _ => WakeAll(t).(disp := Off)
  }

  // The dispatcher from the top of its loop on.
  function Turned(s: State): State {
    if s.sock then Popped(s) else s.(disp := Off)
  }

  // The response function has read its response.
  function Delivered(s: State): State
    requires s.disp.Busy?
  {
    s.(read := s.read + 1, results := s.results[s.disp.co := Answer(s.disp.tag, Tag(s.epoch, s.read))], disp := Ready)
  }

  function Answered(s: State): State
    requires s.disp.Busy?
  {
    Turned(Delivered(s))
  }

  // Or it has failed.
  function ReadFailed(s: State): State
    requires s.disp.Busy?
  {
    WakeAll(Lost(s).(results := s.results[s.disp.co := Failed])).(disp := Off)
  }

  // ----- What every step keeps -----

  // The two queues have the same length and the same signals.
  ghost predicate Aligned(s: State) {
    && |s.request| == |s.thread|
    && (forall i | 0 <= i < |s.request| :: s.request[i].Signal? <==> s.thread[i].None?)
  }

  // `c` asked with the function `tag` and has no outcome yet.
  ghost predicate Owes(s: State, tag: Tag, c: nat) {
    c in s.asked && s.asked[c] == tag && c !in s.results
  }

  // Each function is beside the coroutine that asked with it.
  ghost predicate QueueOk(s: State) {
    && Aligned(s)
    && (forall i | 0 <= i < |s.request| && s.request[i].Function? :: Owes(s, s.request[i].tag, s.thread[i].value))
    && (forall i, j | 0 <= i < j < |s.thread| && s.thread[i].Some? :: s.thread[i] != s.thread[j])
  }

  ghost predicate Waits(s: State, c: nat) {
    Some(c) in s.thread || (s.disp.Busy? && s.disp.co == c)
  }

  // No coroutine waits twice, and whoever asked waits or has one outcome: what the own response function
  // has read, or socket_error.
  ghost predicate Own(s: State) {
    && QueueOk(s)
    && (s.disp.Busy? ==> Owes(s, s.disp.tag, s.disp.co) && Some(s.disp.co) !in s.thread)
    && (forall c | c in s.asked && c !in s.results :: Waits(s, c))
    && (forall c | c in s.results :: c in s.asked && (s.results[c].Answer? ==> s.results[c].func == s.asked[c]))
  }

  lemma {:induction false} AskedOwn(s: State, c: nat)
    requires Own(s) && c !in s.asked
    ensures Own(Asked(s, c))
  {
    var t := Asked(s, c);
    forall i | 0 <= i < |t.request|
      ensures t.request[i].Function? ==> Owes(t, t.request[i].tag, t.thread[i].value)
    {
      assert i < |s.request| && s.request[i].Function? ==> Owes(s, s.request[i].tag, s.thread[i].value);
    }
    forall i | 0 <= i < |s.thread|
      ensures s.thread[i] != Some(c)
    {
      assert s.request[i].Function? ==> Owes(s, s.request[i].tag, s.thread[i].value);
    }
    forall d | d in t.asked && d !in t.results
      ensures Waits(t, d)
    {
      assert d != c ==> Waits(s, d);
      assert t.thread[|s.thread|] == Some(c);
    }
  }

  lemma {:induction false} SignalledOwn(s: State)
    requires Own(s)
    ensures Own(Signalled(s))
  {
    var t := Signalled(s);
    forall i | 0 <= i < |t.request|
      ensures t.request[i].Function? ==> Owes(t, t.request[i].tag, t.thread[i].value)
    {
      assert i < |s.request| && s.request[i].Function? ==> Owes(s, s.request[i].tag, s.thread[i].value);
    }
    assert forall c | c in s.asked && c !in s.results :: Waits(s, c) && Waits(t, c);
  }

  // Steps that leave the queues, the requests and the outcomes alone.
  lemma {:induction false} SameOwn(s: State, t: State)
    requires Own(s) && t.request == s.request && t.thread == s.thread && t.asked == s.asked && t.results == s.results
    requires t.disp == s.disp || (!s.disp.Busy? && !t.disp.Busy?)
    ensures Own(t)
  {
    forall i | 0 <= i < |t.request| && t.request[i].Function?
      ensures Owes(t, t.request[i].tag, t.thread[i].value)
    {
      assert Owes(s, s.request[i].tag, s.thread[i].value);
    }
    assert forall c | c in s.asked && c !in s.results :: Waits(s, c) && Waits(t, c);
  }

  // Whoever is in the queue owes nothing yet.
  lemma {:induction false} InQueue(s: State, c: nat)
    requires Own(s)
    ensures Some(c) in s.thread ==> c in s.asked && c !in s.results
    ensures c in Waiters(s.thread) <==> Some(c) in s.thread
  {
    if Some(c) in s.thread {
      var i :| 0 <= i < |s.thread| && s.thread[i] == Some(c);
      assert Owes(s, s.request[i].tag, c);
    }
  }

  lemma {:induction false} WakeAllOwn(s: State)
    requires Own(s)
    ensures Own(WakeAll(s))
    ensures forall c | c in s.results :: c in WakeAll(s).results && WakeAll(s).results[c] == s.results[c]
    ensures forall c | c in s.asked && c !in WakeAll(s).results :: s.disp.Busy? && s.disp.co == c
    ensures s.disp.Busy? ==> s.disp.co !in WakeAll(s).results
  {
    var t := WakeAll(s);
    forall c
      ensures c in t.results ==> c in t.asked && (t.results[c].Answer? ==> t.results[c].func == t.asked[c])
      ensures c in s.results ==> c in t.results && t.results[c] == s.results[c]
      ensures c in t.asked && c !in t.results ==> s.disp.Busy? && s.disp.co == c
      ensures s.disp.Busy? && s.disp.co == c ==> c !in t.results
    {
      InQueue(s, c);
      assert c in s.asked && c !in s.results ==> Waits(s, c);
    }
  }

  // Its response goes to the coroutine that asked with the function.
  lemma {:induction false} DeliveredOwn(s: State)
    requires Own(s) && s.disp.Busy?
    ensures Own(Delivered(s))
    ensures s.disp.co !in s.results && s.disp.co in s.asked && s.disp.tag == s.asked[s.disp.co]
  {
    BusyEnds(s, Answer(s.disp.tag, Tag(s.epoch, s.read)), Delivered(s));
  }

  // The coroutine whose response was being read gets an outcome.
  lemma {:induction false} BusyEnds(s: State, r: Outcome, t: State)
    requires Own(s) && s.disp.Busy? && (r.Answer? ==> r.func == s.disp.tag)
    requires t.request == s.request && t.thread == s.thread && t.asked == s.asked
    requires t.results == s.results[s.disp.co := r] && !t.disp.Busy?
    ensures Own(t)
    ensures s.disp.co !in s.results
  {
    forall i | 0 <= i < |t.request| && t.request[i].Function?
      ensures Owes(t, t.request[i].tag, t.thread[i].value)
    {
      assert Owes(s, s.request[i].tag, s.thread[i].value);
      assert s.thread[i] in s.thread;
    }
    assert forall c | c in t.asked && c !in t.results :: Waits(s, c) && Waits(t, c);
  }

  lemma {:induction false} ReadFailedOwn(s: State)
    requires Own(s) && s.disp.Busy?
    ensures Own(ReadFailed(s))
    ensures s.disp.co !in s.results
    ensures forall c | c in s.results :: c in ReadFailed(s).results && ReadFailed(s).results[c] == s.results[c]
    ensures forall c | c in s.asked :: c in ReadFailed(s).results
  {
    var t := Lost(s).(results := s.results[s.disp.co := Failed], disp := Off);
    BusyEnds(s, Failed, t);
    WakeAllOwn(t);
    assert WakeAll(t) == ReadFailed(s);
  }

  // The first entry leaves the queues.
  function Taken(s: State): State
    requires s.request != [] && s.thread != [] && s.request[0].Function? && s.thread[0].Some?
  {
    s.(request := s.request[1..], thread := s.thread[1..], disp := Busy(s.request[0].tag, s.thread[0].value))
  }

  lemma {:induction false} TakenOwn(s: State)
    requires Own(s) && !s.disp.Busy? && s.request != [] && s.request[0].Function?
    ensures s.thread != [] && s.thread[0].Some? && Own(Taken(s))
  {
    var t := Taken(s);
    assert Owes(s, s.request[0].tag, s.thread[0].value);
    forall i | 0 <= i < |t.request| && t.request[i].Function?
      ensures Owes(t, t.request[i].tag, t.thread[i].value)
    {
      assert Owes(s, s.request[i + 1].tag, s.thread[i + 1].value);
    }
    forall c | c in t.asked && c !in t.results
      ensures Waits(t, c)
    {
      assert Waits(s, c);
      assert s.thread == [s.thread[0]] + t.thread;
    }
  }

  lemma {:induction false} SignalOwn(s: State)
    requires Own(s) && !s.disp.Busy? && s.request != [] && s.request[0].Signal?
    ensures Own(s.(request := s.request[1..], thread := s.thread[1..]))
  {
    var t := s.(request := s.request[1..], thread := s.thread[1..]);
    forall i | 0 <= i < |t.request| && t.request[i].Function?
      ensures Owes(t, t.request[i].tag, t.thread[i].value)
    {
      assert Owes(s, s.request[i + 1].tag, s.thread[i + 1].value);
    }
    forall c | c in t.asked && c !in t.results
      ensures Waits(t, c)
    {
      assert Waits(s, c);
      assert s.thread == [s.thread[0]] + t.thread;
    }
  }

  // What pop_response makes of the first entry.
  lemma {:induction false} PoppedIs(s: State)
    requires Own(s) && !s.disp.Busy? && s.request != []
    ensures s.thread != []
    ensures s.request[0].Function? ==> s.thread != [] && s.thread[0].Some?
    ensures s.request[0].Function? ==> Popped(s) == if s.sock then Taken(s) else ReadFailed(Taken(s))
    ensures s.request[0].Signal? ==>
      Popped(s) == WakeAll(s.(request := s.request[1..], thread := s.thread[1..])).(disp := Off)
  {
    if s.request[0].Function? {
      assert s.thread[0].Some?;
    }
  }

  lemma {:induction false} PoppedOwn(s: State)
    requires Own(s) && !s.disp.Busy?
    ensures Own(Popped(s))
    ensures forall c | c in s.results :: c in Popped(s).results && Popped(s).results[c] == s.results[c]
  {
    if s.request == [] {
      SameOwn(s, Popped(s));
    } else {
      PoppedIs(s);
      if s.request[0].Function? {
        TakenOwn(s);
        if !s.sock {
          ReadFailedOwn(Taken(s));
        }
      } else {
        SignalOwn(s);
        var t := s.(request := s.request[1..], thread := s.thread[1..]);
        WakeAllOwn(t);
        SameOwn(WakeAll(t), Popped(s));
      }
    }
  }

  lemma {:induction false} TurnedOwn(s: State)
    requires Own(s) && s.disp.Ready?
    ensures Own(Turned(s))
    ensures forall c | c in s.results :: c in Turned(s).results && Turned(s).results[c] == s.results[c]
  {
    if s.sock {
      PoppedOwn(s);
    } else {
      SameOwn(s, Turned(s));
    }
  }

  // ----- Runs -----

  datatype Step =
    | Ask(co: nat)        // channel:request or channel:response, the connection being there
    | Lose                // the connection is found to be lost, or is given up
    | WriteFails          // sock_err closes the socket
    | WakeUp              // and then wakes all who wait
    | Terminate           // term_dispatch_thread, the connection being closed
    | Connect             // the new connection, once there is no dispatch thread
    | Run                 // the dispatch thread runs
    | Succeed             // the response function succeeds
    | Fail                // or fails

  // A waiting dispatch thread runs when something was pushed.
  ghost predicate Enabled(s: State, step: Step) {
    match step
    case Ask(c) => s.sock && c !in s.asked
    case WakeUp => s.failing > 0
    case Terminate => !s.sock
    case Connect => !s.sock && s.disp.Off?
    case Run => s.disp.Ready? || (s.disp.Waiting? && s.request != [])
    case Succeed => s.disp.Busy?
    case Fail => s.disp.Busy?
    case _ => true
  }

  function After(s: State, step: Step): State
    requires step.Succeed? || step.Fail? ==> s.disp.Busy?
    requires step.WakeUp? ==> s.failing > 0
  {
    match step
    case Ask(c) => Asked(s, c)
    case Lose => Lost(s)
    case WriteFails => WriteFailed(s)
    case WakeUp => Woken(s)
    case Terminate => Signalled(s)
    case Connect => Connected(s)
    case Run => if s.disp.Ready? then Turned(s) else Popped(s)
    case Succeed => Answered(s)
    case Fail => ReadFailed(s)
  }

  const FRESH: State := State(false, 0, 0, 0, [], [], Off, map[], map[], 0)

  ghost predicate Leads(s: State, step: Step, t: State) {
    Enabled(s, step) && t == After(s, step)
  }

  ghost predicate Path(ss: seq<State>, steps: seq<Step>) {
    |ss| == |steps| + 1
    && forall i | 0 <= i < |steps| :: Leads(ss[i], steps[i], ss[i + 1])
  }

  // Whatever happens, also when the dispatch thread leaves entries behind: the queues stay aligned, the
  // outcomes there are stay, and new ones come from the own response function or are errors.
  lemma {:induction false} StepOwn(s: State, step: Step)
    requires Own(s) && Enabled(s, step)
    ensures Own(After(s, step))
    ensures forall c | c in s.results :: c in After(s, step).results && After(s, step).results[c] == s.results[c]
  {
    hide Own;
    match step
    case Ask(c) => AskedOwn(s, c);
    case Lose => SameOwn(s, Lost(s));
    case WriteFails => SameOwn(s, WriteFailed(s));
    case WakeUp =>
      WakeAllOwn(s);
      SameOwn(WakeAll(s), Woken(s));
    case Terminate => SignalledOwn(s);
    case Connect => SameOwn(s, Connected(s));
    case Run =>
      if s.disp.Ready? {
        TurnedOwn(s);
      } else {
        PoppedOwn(s);
      }
    case Succeed =>
      DeliveredOwn(s);
      TurnedOwn(Delivered(s));
    case Fail => ReadFailedOwn(s);
  }

  lemma {:induction false} RunOwn(ss: seq<State>, steps: seq<Step>, n: nat)
    requires Path(ss, steps) && ss[0] == FRESH && n <= |steps|
    ensures Own(ss[n])
  {
    assert Own(ss[0]);
    hide Own;
    for i := 0 to n
      invariant Own(ss[i])
    {
      assert Leads(ss[i], steps[i], ss[i + 1]);
      StepOwn(ss[i], steps[i]);
    }
  }

  // On every run each coroutine that asked waits, once, or has an outcome: what its own response function
  // has read, or socket_error.
  lemma {:induction false} OwnOutcome(ss: seq<State>, steps: seq<Step>, c: nat)
    requires Path(ss, steps) && ss[0] == FRESH && c in ss[|steps|].asked
    ensures var s := ss[|steps|];
      && Aligned(s)
      && (c in s.results ==> s.results[c] == Failed || (s.results[c].Answer? && s.results[c].func == s.asked[c]))
      && (c in s.results ==> !Waits(s, c))
      && (c !in s.results ==> Waits(s, c))
      && (forall i | 0 <= i < |s.thread| && s.thread[i] == Some(c) :: s.request[i] == Function(s.asked[c]))
      && (forall i, j | 0 <= i < j < |s.thread| :: !(s.thread[i] == s.thread[j] == Some(c)))
  {
    RunOwn(ss, steps, |steps|);
    var s := ss[|steps|];
    InQueue(s, c);
    forall i | 0 <= i < |s.thread| && s.thread[i] == Some(c)
      ensures s.request[i] == Function(s.asked[c])
    {
      assert Owes(s, s.request[i].tag, s.thread[i].value);
    }
  }

  // An outcome is final, on every run.
  lemma {:induction false} OneOutcome(ss: seq<State>, steps: seq<Step>, n: nat, c: nat)
    requires Path(ss, steps) && ss[0] == FRESH && n <= |steps| && c in ss[n].results
    ensures c in ss[|steps|].results && ss[|steps|].results[c] == ss[n].results[c]
  {
    RunOwn(ss, steps, n);
    hide Own;
    for i := n to |steps|
      invariant Own(ss[i]) && c in ss[i].results && ss[i].results[c] == ss[n].results[c]
    {
      assert Leads(ss[i], steps[i], ss[i + 1]);
      StepOwn(ss[i], steps[i]);
    }
  }

  // ----- Who gets what, and when -----

  // The dispatch thread takes a close signal, or any entry of a lost connection: everybody's wait ends.
  ghost predicate PopEnds(s: State) {
    s.request != [] && (s.request[0].Signal? || !s.sock)
  }

  // The step ends the wait of `c`.
  ghost predicate Settles(s: State, step: Step, c: nat) {
    && c in s.asked && c !in s.results
    && match step
       case Succeed => s.disp.Busy? && (c == s.disp.co || (s.sock && PopEnds(s)))
       case Fail => true
       case WakeUp => Some(c) in s.thread
       case Run => (s.disp.Waiting? || s.sock) && PopEnds(s)
       case _ => false
  }

  // What `c` gets: what its response function has read, if it is that one which ends, else socket_error.
  ghost function Due(s: State, step: Step, c: nat): Outcome
    requires c in s.asked
  {
    if step.Succeed? && s.disp.Busy? && s.disp.co == c then Answer(s.asked[c], Tag(s.epoch, s.read)) else Failed
  }

  lemma {:induction false} WakeAllDue(s: State, c: nat)
    requires Own(s) && c in s.asked && c !in s.results
    ensures c in WakeAll(s).results <==> Some(c) in s.thread
    ensures Some(c) in s.thread ==> WakeAll(s).results[c] == Failed
    ensures !s.disp.Busy? ==> Some(c) in s.thread
  {
    InQueue(s, c);
    assert Waits(s, c);
  }

  lemma {:induction false} ReadFailedDue(s: State, c: nat)
    requires Own(s) && s.disp.Busy? && c in s.asked && c !in s.results
    ensures c in ReadFailed(s).results && ReadFailed(s).results[c] == Failed
  {
    assert Waits(s, c);
    InQueue(s, c);
  }

  lemma {:induction false} PoppedDue(s: State, c: nat)
    requires Own(s) && !s.disp.Busy? && c in s.asked && c !in s.results
    ensures c in Popped(s).results <==> PopEnds(s)
    ensures PopEnds(s) ==> Popped(s).results[c] == Failed
  {
    hide Own;
    hide WakeAll;
    hide ReadFailed;
    if s.request != [] {
      PoppedIs(s);
      if s.request[0].Function? {
        TakenOwn(s);
        ReadFailedDue(Taken(s), c);
      } else {
        SignalOwn(s);
        WakeAllDue(s.(request := s.request[1..], thread := s.thread[1..]), c);
      }
    }
  }

  lemma {:induction false} AnsweredDue(s: State, c: nat)
    requires Own(s) && s.disp.Busy? && c in s.asked && c !in s.results
    ensures c in Answered(s).results <==> c == s.disp.co || (s.sock && PopEnds(s))
    ensures c == s.disp.co ==> Answered(s).results[c] == Answer(s.asked[c], Tag(s.epoch, s.read))
    ensures c != s.disp.co && s.sock && PopEnds(s) ==> Answered(s).results[c] == Failed
  {
    hide Own;
    hide Popped;
    DeliveredOwn(s);
    TurnedOwn(Delivered(s));
    if c != s.disp.co {
      PoppedDue(Delivered(s), c);
    }
  }

  lemma {:induction false} StepSettles(s: State, step: Step, c: nat)
    requires Own(s) && Enabled(s, step)
    ensures c in After(s, step).results <==> c in s.results || Settles(s, step, c)
    ensures Settles(s, step, c) ==> After(s, step).results[c] == Due(s, step, c)
    ensures c in s.results ==> After(s, step).results[c] == s.results[c]
  {
    hide Own;
    hide Popped;
    hide WakeAll;
    hide Answered;
    hide ReadFailed;
    StepOwn(s, step);
    StepAsked(s, step);
    InResults(s, c);
    InResults(After(s, step), c);
    if c in s.asked && c !in s.results {
      match step
      case Run => PoppedDue(s, c);
      case Succeed => AnsweredDue(s, c);
      case Fail => ReadFailedDue(s, c);
      case WakeUp => WakeAllDue(s, c);
      case _ =>
    }
  }

  lemma StepAsked(s: State, step: Step)
    requires Enabled(s, step)
    ensures After(s, step).asked == if step.Ask? then s.asked[step.co := Tag(s.epoch, s.sent)] else s.asked
    ensures step.Ask? ==> After(s, step).results == s.results
  {
    hide FailAll;
  }

  lemma InResults(s: State, c: nat)
    requires Own(s)
    ensures c in s.results ==> c in s.asked
  {
  }

  // The outcome of `c` is what the step that ended its wait, if there was one, has given.
  ghost predicate SettledAs(ss: seq<State>, steps: seq<Step>, n: nat, c: nat, results: map<nat, Outcome>)
    requires n <= |steps| < |ss|
  {
    && (c in results <==> exists i :: 0 <= i < n && Settles(ss[i], steps[i], c))
    && (forall i | 0 <= i < n && Settles(ss[i], steps[i], c) :: c in results && results[c] == Due(ss[i], steps[i], c))
  }

  lemma SettledIs(ss: seq<State>, steps: seq<Step>, n: nat, c: nat, results: map<nat, Outcome>)
    requires n <= |steps| < |ss| && SettledAs(ss, steps, n, c, results)
    ensures c in results <==> exists i :: 0 <= i < n && Settles(ss[i], steps[i], c)
    ensures forall i | 0 <= i < n && Settles(ss[i], steps[i], c) ::
      c in results && results[c] == Due(ss[i], steps[i], c)
  {
  }

  lemma SettledNone(ss: seq<State>, steps: seq<Step>, c: nat)
    requires |steps| < |ss| && ss[0].results == map[]
    ensures SettledAs(ss, steps, 0, c, ss[0].results)
  {
  }

  lemma {:induction false} SettledNext(ss: seq<State>, steps: seq<Step>, n: nat, c: nat)
    requires n < |steps| < |ss| && SettledAs(ss, steps, n, c, ss[n].results)
    requires c in ss[n + 1].results <==> c in ss[n].results || Settles(ss[n], steps[n], c)
    requires Settles(ss[n], steps[n], c) ==> ss[n + 1].results[c] == Due(ss[n], steps[n], c)
    requires c in ss[n].results ==> ss[n + 1].results[c] == ss[n].results[c]
    ensures SettledAs(ss, steps, n + 1, c, ss[n + 1].results)
  {
    assert Settles(ss[n], steps[n], c) ==> c !in ss[n].results;
    hide Settles;
    hide Due;
  }

  // On every run a coroutine has an outcome exactly when a step has ended its wait, and it is what that step
  // gives: its own response function is done, or socket_error for all who wait.
  lemma {:induction false} RunSettled(ss: seq<State>, steps: seq<Step>, c: nat)
    requires Path(ss, steps) && ss[0] == FRESH
    ensures c in ss[|steps|].results <==> exists i :: 0 <= i < |steps| && Settles(ss[i], steps[i], c)
    ensures forall i | 0 <= i < |steps| && Settles(ss[i], steps[i], c) ::
      c in ss[|steps|].results && ss[|steps|].results[c] == Due(ss[i], steps[i], c)
  {
    assert Own(ss[0]);
    hide Own;
    hide SettledAs;
    hide After;
    hide Enabled;
    SettledNone(ss, steps, c);
    for n := 0 to |steps|
      invariant Own(ss[n])
      invariant SettledAs(ss, steps, n, c, ss[n].results)
    {
      assert Leads(ss[n], steps[n], ss[n + 1]);
      StepOwn(ss[n], steps[n]);
      StepSettles(ss[n], steps[n], c);
      SettledNext(ss, steps, n, c);
    }
    SettledIs(ss, steps, |steps|, c, ss[|steps|].results);
  }

  // ----- Which response it is -----

  function FirstNumber(s: State): nat { if s.disp.Busy? then s.read + 1 else s.read }

  ghost predicate NumberOk(s: State, i: nat)
    requires i < |s.request|
  {
    s.request[i].Function? ==> s.request[i].tag == Tag(s.epoch, FirstNumber(s) + i)
  }

  // The functions are those of the responses to come, in order; signals come after them, and only when
  // the connection is closed.
  ghost predicate Ordered(s: State) {
    && (forall i | 0 <= i < |s.request| :: NumberOk(s, i))
    && (forall i, j | 0 <= i < j < |s.request| && s.request[i].Signal? :: s.request[j].Signal?)
    && (s.sock ==> s.sent == FirstNumber(s) + |s.request| && forall i | 0 <= i < |s.request| :: s.request[i].Function?)
    && (s.disp.Busy? ==> s.disp.tag == Tag(s.epoch, s.read))
    && (s.sock ==> !s.disp.Off?) && (s.disp.Off? ==> s.request == [])
  }

  // Whoever has an answer has the response to the own request.
  ghost predicate Answers(s: State) {
    forall c | c in s.results && s.results[c].Answer? :: s.results[c].tag == s.results[c].func
  }

  ghost predicate Inv(s: State) {
    Own(s) && Ordered(s) && Answers(s)
  }

  lemma {:induction false} AskedOrdered(s: State, c: nat)
    requires Ordered(s) && s.sock
    ensures Ordered(Asked(s, c))
  {
    var t := Asked(s, c);
    forall i | 0 <= i < |t.request|
      ensures NumberOk(t, i)
    {
      assert i < |s.request| ==> NumberOk(s, i);
    }
  }

  lemma {:induction false} SignalledOrdered(s: State)
    requires Ordered(s) && !s.sock
    ensures Ordered(Signalled(s))
  {
    var t := Signalled(s);
    forall i | 0 <= i < |t.request|
      ensures NumberOk(t, i)
    {
      assert i < |s.request| ==> NumberOk(s, i);
    }
  }

  lemma {:induction false} LostOrdered(s: State, t: State)
    requires Ordered(s) && t == Lost(s).(failing := t.failing)
    ensures Ordered(t)
  {
    forall i | 0 <= i < |t.request|
      ensures NumberOk(t, i)
    {
      assert NumberOk(s, i);
    }
  }

  // The response of the first entry fails: everybody gets socket_error, and nobody waits any more.
  lemma {:induction false} BusyFails(s: State)
    requires Inv(s) && s.disp.Busy?
    ensures Inv(ReadFailed(s))
    ensures forall c | c in ReadFailed(s).asked :: c in ReadFailed(s).results
  {
    ReadFailedOwn(s);
  }

  lemma {:induction false} SignalsEnd(s: State)
    requires !s.sock && Answers(s)
    ensures Ordered(WakeAll(s).(disp := Off)) && Answers(WakeAll(s).(disp := Off))
  {
  }

  // The dispatcher takes the first entry. (Only a signal can be the first when there are signals alone.)
  lemma {:induction false} PoppedInv(s: State)
    requires Inv(s) && !s.disp.Off? && !s.disp.Busy?
    ensures Inv(Popped(s))
  {
    PoppedOwn(s);
    hide Own;
    hide WakeAll;
    if s.request != [] {
      PoppedIs(s);
      if s.request[0].Function? {
        TakenOwn(s);
        TakenOrdered(s);
        if !s.sock {
          BusyFails(Taken(s));
        }
      } else {
        assert !s.sock;
        SignalsEnd(s.(request := s.request[1..], thread := s.thread[1..]));
      }
    }
  }

  lemma {:induction false} TakenOrdered(s: State)
    requires Ordered(s) && !s.disp.Off? && !s.disp.Busy?
    requires s.request != [] && s.thread != [] && s.request[0].Function? && s.thread[0].Some?
    ensures Ordered(Taken(s))
  {
    var t := Taken(s);
    assert NumberOk(s, 0);
    forall i | 0 <= i < |t.request|
      ensures NumberOk(t, i)
    {
      assert NumberOk(s, i + 1);
    }
  }

  // The response is read: it goes to the coroutine that asked for it.
  lemma {:induction false} DeliveredInv(s: State)
    requires Inv(s) && s.disp.Busy?
    ensures Inv(Delivered(s))
    ensures s.disp.co in s.asked &&
      Delivered(s).results[s.disp.co] == Answer(s.asked[s.disp.co], s.asked[s.disp.co])
  {
    var t := Delivered(s);
    DeliveredOwn(s);
    assert forall i | 0 <= i < |s.request| :: NumberOk(s, i) && NumberOk(t, i);
  }

  // The dispatcher looks at the connection and goes on. The invariant is kept exactly when the
  // connection is there or the queue is empty: otherwise the dispatcher ends and leaves entries behind.
  lemma {:induction false} TurnedInv(s: State)
    requires Inv(s) && s.disp.Ready?
    ensures Inv(Turned(s)) <==> s.sock || s.request == []
  {
    TurnedOwn(s);
    if s.sock {
      PoppedInv(s);
    }
  }

  lemma {:induction false} AnsweredInv(s: State)
    requires Inv(s) && s.disp.Busy?
    ensures Inv(Answered(s)) <==> s.sock || s.request == []
    ensures s.disp.co in s.asked && s.disp.co in Answered(s).results
      && Answered(s).results[s.disp.co] == Answer(s.asked[s.disp.co], s.asked[s.disp.co])
  {
    DeliveredInv(s);
    TurnedInv(Delivered(s));
    TurnedOwn(Delivered(s));
  }

  // The dispatch thread ends at the top of its loop and leaves entries in the queues.
  ghost predicate Abandons(s: State, step: Step) {
    !s.sock && s.request != [] && (step.Succeed? || (step.Run? && s.disp.Ready?))
  }

  // A coroutine whose write failed on an old connection wakes those who wait on the new one.
  ghost predicate Sweeps(s: State, step: Step) {
    step.WakeUp? && s.sock && s.request != []
  }

  lemma {:induction false} WokenInv(s: State)
    requires Inv(s) && s.failing > 0
    ensures Inv(Woken(s)) <==> !(s.sock && s.request != [])
  {
    WakeAllOwn(s);
    SameOwn(WakeAll(s), Woken(s));
  }

  // Every other step keeps the pairing, and those break it.
  lemma {:induction false} StepInv(s: State, step: Step)
    requires Inv(s) && Enabled(s, step)
    ensures Inv(After(s, step)) <==> !Abandons(s, step) && !Sweeps(s, step)
  {
    StepOwn(s, step);
    hide Own;
    match step
    case Ask(c) => AskedOrdered(s, c);
    case Lose => LostOrdered(s, Lost(s));
    case WriteFails => LostOrdered(s, WriteFailed(s));
    case WakeUp => WokenInv(s);
    case Terminate => SignalledOrdered(s);
    case Connect =>
    case Run =>
      if s.disp.Ready? {
        TurnedInv(s);
      } else {
        PoppedInv(s);
      }
    case Succeed => AnsweredInv(s);
    case Fail => BusyFails(s);
  }

  // On every run in which neither happens, whoever got an answer got that of the own request, and everybody
  // else got an error or still waits.
  lemma {:induction false} RunPaired(ss: seq<State>, steps: seq<Step>, c: nat)
    requires Path(ss, steps) && ss[0] == FRESH
    requires forall i | 0 <= i < |steps| :: !Abandons(ss[i], steps[i]) && !Sweeps(ss[i], steps[i])
    requires c in ss[|steps|].asked
    ensures var s := ss[|steps|];
      && (c in s.results ==> s.results[c] == Failed || s.results[c] == Answer(s.asked[c], s.asked[c]))
      && (c !in s.results ==> Waits(s, c))
  {
    assert Inv(ss[0]);
    hide Inv;
    for i := 0 to |steps|
      invariant Inv(ss[i])
    {
      assert Leads(ss[i], steps[i], ss[i + 1]);
      StepInv(ss[i], steps[i]);
    }
    Pairing(ss[|steps|], c);
  }

  lemma {:induction false} Pairing(s: State, c: nat)
    requires Inv(s) && c in s.asked
    ensures c in s.results ==>
      s.results[c] == Failed || (s.results[c].Answer? && s.results[c].func == s.results[c].tag == s.asked[c])
    ensures c !in s.results ==> Waits(s, c)
  {
  }

  // When every such coroutine is done before the next connection, nobody is swept away.
  lemma {:induction false} NoneSwept(ss: seq<State>, steps: seq<Step>, n: nat)
    requires Path(ss, steps) && ss[0] == FRESH && n < |steps|
    requires forall i | 0 <= i < |steps| && steps[i] == Connect :: ss[i].failing == 0
    ensures !Sweeps(ss[n], steps[n])
  {
    for i := 0 to n
      invariant ss[i].sock ==> ss[i].failing == 0
    {
      assert Leads(ss[i], steps[i], ss[i + 1]);
    }
    assert Leads(ss[n], steps[n], ss[n + 1]);
  }

  // ----- What the abandoned entries do -----

  lemma {:induction false} Join(a: seq<State>, x: seq<Step>, b: seq<State>, y: seq<Step>)
    requires Path(a, x) && Path(b, y) && a[|x|] == b[0]
    ensures Path(a + b[1..], x + y)
  {
    hide Leads;
    var c, z := a + b[1..], x + y;
    forall i | 0 <= i < |z|
      ensures Leads(c[i], z[i], c[i + 1])
    {
      if i >= |x| {
        assert c[i] == b[i - |x|] && c[i + 1] == b[i - |x| + 1];
      }
    }
  }

  // A connection with one request, whose response is being read.
  const BUSY: State := State(true, 1, 1, 0, [], [], Busy(Tag(1, 0), 1), map[1 := Tag(1, 0)], map[], 0)

  lemma FirstRequest() returns (ss: seq<State>)
    ensures Path(ss, [Connect, Run, Ask(1), Run]) && |ss| == 5 && ss[0] == FRESH && ss[4] == BUSY
  {
    var s1 := State(true, 1, 0, 0, [], [], Ready, map[], map[], 0);
    var s2 := s1.(disp := Waiting);
    var s3 := s2.(sent := 1, request := [Function(Tag(1, 0))], thread := [Some(1)], asked := map[1 := Tag(1, 0)]);
    var s4 := BUSY;
    assert Leads(FRESH, Connect, s1);
    assert Leads(s1, Run, s2);
    assert Leads(s2, Ask(1), s3);
    assert Leads(s3, Run, s4);
    ss := [FRESH, s1, s2, s3, s4];
  }

  // The next request waits, and the dispatch thread ends.
  const LEFT: State :=
    State(false, 1, 2, 1, [Function(Tag(1, 1))], [Some(2)], Off, map[1 := Tag(1, 0), 2 := Tag(1, 1)],
        map[1 := Answer(Tag(1, 0), Tag(1, 0))], 0)

  lemma SecondRequest() returns (ss: seq<State>)
    ensures Path(ss, [Ask(2), Lose, Succeed]) && |ss| == 4 && ss[0] == BUSY && ss[3] == LEFT && Abandons(ss[2], Succeed)
  {
    var s1 := BUSY.(sent := 2, request := [Function(Tag(1, 1))], thread := [Some(2)], asked := LEFT.asked);
    var s2 := s1.(sock := false);
    var s3 := LEFT;
    assert Leads(BUSY, Ask(2), s1);
    assert Leads(s1, Lose, s2);
    assert Leads(s2, Succeed, s3);
    ss := [BUSY, s1, s2, s3];
  }

  lemma ThirdRequest() returns (ss: seq<State>)
    ensures Path(ss, [Connect, Ask(3), Run, Succeed]) && |ss| == 5 && ss[0] == LEFT
    ensures var s := ss[4];
      2 in s.asked && 2 in s.results && s.results[2] == Answer(Tag(1, 1), Tag(2, 0)) && s.asked[2] == Tag(1, 1)
    ensures 3 in ss[4].asked && ss[4].asked[3] == Tag(2, 0)
  {
    var s1 := LEFT.(sock := true, epoch := 2, sent := 0, read := 0, disp := Ready);
    var s2 := s1.(sent := 1, request := [Function(Tag(1, 1)), Function(Tag(2, 0))], thread := [Some(2), Some(3)],
        asked := LEFT.asked[3 := Tag(2, 0)]);
    var s3 := s2.(request := [Function(Tag(2, 0))], thread := [Some(3)], disp := Busy(Tag(1, 1), 2));
    var s4 := s3.(read := 1, results := s3.results[2 := Answer(Tag(1, 1), Tag(2, 0))], request := [], thread := [],
        disp := Busy(Tag(2, 0), 3));
    assert Leads(LEFT, Connect, s1);
    assert Leads(s1, Ask(3), s2);
    assert Leads(s2, Run, s3);
    assert Leads(s3, Succeed, s4);
    ss := [LEFT, s1, s2, s3, s4];
  }

  // Two requests are sent, the connection is found to be lost while the first response is being read,
  // and the response succeeds all the same. After the reconnection the second coroutine is given the
  // response to the third one's request.
  lemma Mispaired() returns (ss: seq<State>, steps: seq<Step>)
    ensures steps == [Connect, Run, Ask(1), Run] + [Ask(2), Lose, Succeed] + [Connect, Ask(3), Run, Succeed]
    ensures Path(ss, steps) && |ss| == 12 && ss[0] == FRESH && Abandons(ss[6], steps[6])
    ensures var s := ss[11];
      2 in s.asked && 2 in s.results && s.results[2] == Answer(Tag(1, 1), Tag(2, 0)) && s.asked[2] == Tag(1, 1)
    ensures 3 in ss[11].asked && ss[11].asked[3] == Tag(2, 0)
  {
    hide Leads;
    hide Abandons;
    var a := FirstRequest();
    var b := SecondRequest();
    var c := ThirdRequest();
    Join(a, [Connect, Run, Ask(1), Run], b, [Ask(2), Lose, Succeed]);
    Join(a + b[1..], [Connect, Run, Ask(1), Run] + [Ask(2), Lose, Succeed], c, [Connect, Ask(3), Run, Succeed]);
    ss, steps := a + b[1..] + c[1..], [Connect, Run, Ask(1), Run] + [Ask(2), Lose, Succeed] + [Connect, Ask(3), Run,
        Succeed];
    assert ss[6] == b[2] && ss[11] == c[4];
  }

  // Only a close signal is left.
  const SIGNALLED: State := State(false, 1, 1, 1, [Signal], [None], Off, map[1 := Tag(1, 0)],
      map[1 := Answer(Tag(1, 0), Tag(1, 0))], 0)

  lemma SignalLeft() returns (ss: seq<State>)
    ensures Path(ss, [Lose, Terminate, Succeed]) && |ss| == 4 && ss[0] == BUSY && ss[3] == SIGNALLED
      && Abandons(ss[2], Succeed)
  {
    var s1 := BUSY.(sock := false);
    var s2 := s1.(request := [Signal], thread := [None]);
    var s3 := SIGNALLED;
    assert Leads(BUSY, Lose, s1);
    assert Leads(s1, Terminate, s2);
    assert Leads(s2, Succeed, s3);
    ss := [BUSY, s1, s2, s3];
  }

  lemma SignalTaken() returns (ss: seq<State>)
    ensures Path(ss, [Connect, Run, Ask(2)]) && |ss| == 4 && ss[0] == SIGNALLED
    ensures ss[3].sock && ss[3].disp.Off? && 2 in ss[3].asked && 2 !in ss[3].results
  {
    assert Waiters([]) == {};
    var s1 := SIGNALLED.(sock := true, epoch := 2, sent := 0, read := 0, disp := Ready);
    var s2 := s1.(request := [], thread := [], disp := Off);
    var s3 := s2.(sent := 1, request := [Function(Tag(2, 0))], thread := [Some(2)], asked := s2.asked[2 := Tag(2, 0)]);
    assert Leads(SIGNALLED, Connect, s1);
    assert Leads(s1, Run, s2);
    assert Leads(s2, Ask(2), s3);
    ss := [SIGNALLED, s1, s2, s3];
  }

  // A close signal is left behind: the next dispatch thread takes it for its own and ends, and a request
  // on the new connection waits with no dispatch thread.
  lemma Deserted() returns (ss: seq<State>, steps: seq<Step>)
    ensures steps == [Connect, Run, Ask(1), Run] + [Lose, Terminate, Succeed] + [Connect, Run, Ask(2)]
    ensures Path(ss, steps) && |ss| == 11 && ss[0] == FRESH && Abandons(ss[6], steps[6])
    ensures ss[10].sock && ss[10].disp.Off? && 2 in ss[10].asked && 2 !in ss[10].results
  {
    hide Leads;
    hide Abandons;
    var a := FirstRequest();
    var b := SignalLeft();
    var c := SignalTaken();
    Join(a, [Connect, Run, Ask(1), Run], b, [Lose, Terminate, Succeed]);
    Join(a + b[1..], [Connect, Run, Ask(1), Run] + [Lose, Terminate, Succeed], c, [Connect, Run, Ask(2)]);
    ss, steps := a + b[1..] + c[1..], [Connect, Run, Ask(1), Run] + [Lose, Terminate, Succeed] + [Connect, Run, Ask(2)];
    assert ss[6] == b[2] && ss[10] == c[3];
  }

  // A write fails, and the old connection is still being closed when there is a new one.
  const CLOSING: State := State(true, 2, 0, 0, [], [], Waiting, map[], map[], 1)

  lemma Reconnected() returns (ss: seq<State>)
    ensures Path(ss, [Connect, Run, WriteFails, Terminate, Run, Connect, Run]) && |ss| == 8
    ensures ss[0] == FRESH && ss[7] == CLOSING
  {
    hide FailAll;
    FailNone(map[]);
    var s1 := FRESH.(sock := true, epoch := 1, disp := Ready);
    var s2 := s1.(disp := Waiting);
    var s3 := s2.(sock := false, failing := 1);
    var s4 := s3.(request := [Signal], thread := [None]);
    var s5 := s3.(disp := Off);
    var s6 := CLOSING.(disp := Ready);
    assert Leads(FRESH, Connect, s1);
    assert Leads(s1, Run, s2);
    assert Leads(s2, WriteFails, s3);
    assert Leads(s3, Terminate, s4);
    assert s4.thread[1..] == [];
    assert Leads(s4, Run, s5);
    assert Leads(s5, Connect, s6);
    assert Leads(s6, Run, CLOSING);
    ss := [FRESH, s1, s2, s3, s4, s5, s6, CLOSING];
  }

  // The first request on it, which is woken.
  const WOKEN: State := State(true, 2, 1, 0, [], [], Waiting, map[1 := Tag(2, 0)], map[1 := Failed], 0)

  lemma WokenEarly() returns (ss: seq<State>)
    ensures Path(ss, [Ask(1), WakeUp]) && |ss| == 3 && ss[0] == CLOSING && ss[2] == WOKEN && Sweeps(ss[1], WakeUp)
  {
    hide FailAll;
    FailFirst(map[], [Some(1)]);
    FailNone(map[1 := Failed]);
    var s1 := CLOSING.(sent := 1, request := [Function(Tag(2, 0))], thread := [Some(1)], asked := map[1 := Tag(2, 0)]);
    assert s1.thread[1..] == [];
    assert Leads(CLOSING, Ask(1), s1);
    assert Leads(s1, WakeUp, WOKEN);
    ss := [CLOSING, s1, WOKEN];
  }

  lemma NextAnswered() returns (ss: seq<State>)
    ensures Path(ss, [Ask(2), Run, Succeed]) && |ss| == 4 && ss[0] == WOKEN
    ensures 2 in ss[3].asked && ss[3].asked[2] == Tag(2, 1)
    ensures 2 in ss[3].results && ss[3].results[2] == Answer(Tag(2, 1), Tag(2, 0))
    ensures 1 in ss[3].asked && ss[3].asked[1] == Tag(2, 0)
  {
    var s1 := Asked(WOKEN, 2);
    var s2 := s1.(request := [], thread := [], disp := Busy(Tag(2, 1), 2));
    var s3 := Answered(s2);
    assert Leads(WOKEN, Ask(2), s1);
    assert Leads(s1, Run, s2);
    assert Leads(s2, Succeed, s3);
    ss := [WOKEN, s1, s2, s3];
  }

  // It then wakes the first request on the new connection, whose response goes to the second one.
  lemma Swept() returns (ss: seq<State>, steps: seq<Step>)
    ensures steps ==
      [Connect, Run, WriteFails, Terminate, Run, Connect, Run] + [Ask(1), WakeUp] + [Ask(2), Run, Succeed]
    ensures Path(ss, steps) && |ss| == 13 && ss[0] == FRESH && Sweeps(ss[8], steps[8])
    ensures 2 in ss[12].asked && ss[12].asked[2] == Tag(2, 1)
    ensures 2 in ss[12].results && ss[12].results[2] == Answer(Tag(2, 1), Tag(2, 0))
    ensures 1 in ss[12].asked && ss[12].asked[1] == Tag(2, 0)
  {
    hide Leads;
    hide Sweeps;
    var x, y, z := [Connect, Run, WriteFails, Terminate, Run, Connect, Run], [Ask(1), WakeUp], [Ask(2), Run, Succeed];
    var a := Reconnected();
    var b := WokenEarly();
    var c := NextAnswered();
    Join(a, x, b, y);
    Join(a + b[1..], x + y, c, z);
    ss, steps := a + b[1..] + c[1..], x + y + z;
    assert ss[8] == b[1] && ss[12] == c[3];
  }

  // ----- The channel -----

  class Channel {
    var sock: bool
    var request: seq<Request>
    var thread: seq<Option<nat>>
    var disp: Dispatcher
    var results: map<nat, Outcome>
    // the numbers that tell responses apart
    var epoch: nat
    var sent: nat
    var read: nat
    ghost var asked: map<nat, Tag>
    ghost var failing: nat  // coroutines inside sock_err

    ghost function View(): State
      reads this
    {
      State(sock, epoch, sent, read, request, thread, disp, asked, results, failing)
    }

    ghost predicate Valid()
      reads this
    {
      Own(View())
    }

    constructor ()
      ensures Valid() && View() == FRESH
    {
      sock, request, thread, disp, results := false, [], [], Off, map[];
      epoch, sent, read, asked, failing := 0, 0, 0, map[], 0;
    }

    // wakeup_all
    method WakeupAll()
      modifies this`request, this`thread, this`results
      ensures View() == WakeAll(old(View()))
    {
      hide FailAll;
      request := [];
      ghost var all := FailAll(results, thread);
      while thread != []
        invariant FailAll(results, thread) == all
        invariant View() == old(View()).(request := [], thread := thread, results := results)
      {
        FailFirst(results, thread);
        var co := thread[0];
        thread := thread[1..];
        if co.Some? {
          results := results[co.value := Failed];
        }
      }
      FailNone(results);
    }

    // push_response and, for a response function that reads the tag, the registration of the request
    method PushResponse(co: nat)
      requires Valid() && sock && co !in asked
      modifies this`request, this`thread, this`sent, this`asked
      ensures Valid() && View() == Asked(old(View()), co)
      ensures request == old(request) + [Function(Tag(epoch, old(sent)))] && thread == old(thread) + [Some(co)]
    {
      AskedOwn(View(), co);
      var t := Tag(epoch, sent);
      request := request + [Function(t)];
      thread := thread + [Some(co)];
      sent, asked := sent + 1, asked[co := t];
    }

    // term_dispatch_thread, the connection being closed
    method TermDispatchThread()
      requires Valid() && !sock
      modifies this`request, this`thread
      ensures Valid() && View() == Signalled(old(View()))
      ensures !disp.Off? ==> request == old(request) + [Signal] && thread == old(thread) + [None]
    {
      SignalledOwn(View());
      if !disp.Off? {
        request := request + [Signal];
        thread := thread + [None];
      }
    }

    // close_channel_socket
    method CloseSocket()
      requires Valid()
      modifies this`sock
      ensures Valid() && View() == Lost(old(View())) && !sock
    {
      SameOwn(View(), Lost(View()));
      sock := false;
    }

    // sock_err up to the end of socket.close, which lets others run
    method SockErr()
      requires Valid()
      modifies this`sock, this`failing
      ensures Valid() && View() == WriteFailed(old(View())) && !sock
    {
      SameOwn(View(), WriteFailed(View()));
      sock := false;
      failing := failing + 1;
    }

    // and then
    method SockErrEnds()
      requires Valid() && failing > 0
      modifies this
      ensures Valid() && View() == Woken(old(View())) && request == [] && thread == []
      ensures old(Inv(View())) ==> (Inv(View()) <==> !(sock && old(request) != []))
    {
      StepOwn(View(), WakeUp);
      if Inv(View()) {
        WokenInv(View());
      }
      WakeupAll();
      failing := failing - 1;
    }

    // The end of connect_once: the dispatch thread is forked.
    method ConnectOnce()
      requires Valid() && !sock && disp.Off?
      modifies this
      ensures Valid() && View() == Connected(old(View()))
      ensures sock && disp.Ready? && epoch == old(epoch) + 1 && request == old(request) && thread == old(thread)
    {
      SameOwn(View(), Connected(View()));
      sock, epoch, sent, read, disp := true, epoch + 1, 0, 0, Ready;
    }

    // pop_response, and what dispatch_by_order does with an entry
    method PopResponse()
      modifies this
      ensures View() == Popped(old(View()))
    {
      if request == [] {
        disp := Waiting;
        return;
      }
      var func, co := request[0], First(thread);
      request, thread := request[1..], Rest(thread);
      if co.None? || func.Signal? {
        // close signal
        WakeupAll();
        disp := Off;
      } else if !sock {
        // closed by peer
        results := results[co.value := Failed];
        WakeupAll();
        disp := Off;
      } else {
        disp := Busy(func.tag, co.value);
      }
    }

    // The top of the loop of dispatch_by_order
    method DispatchByOrder()
      modifies this
      ensures View() == Turned(old(View()))
    {
      if sock {
        PopResponse();
      } else {
        disp := Off;
      }
    }

    // The dispatch thread starts, or goes on in pop_response.
    method Run()
      requires Valid() && (disp.Ready? || (disp.Waiting? && request != []))
      modifies this
      ensures Valid() && View() == After(old(View()), Step.Run)
      ensures old(Inv(View())) ==> (Inv(View()) <==> !(old(disp).Ready? && !old(sock) && old(request) != []))
    {
      StepOwn(View(), Step.Run);
      if Inv(View()) {
        StepInv(View(), Step.Run);
      }
      if disp.Ready? {
        DispatchByOrder();
      } else {
        PopResponse();
      }
    }

    // The response function is done: its coroutine gets the response that it has read.
    method Response(ok: bool)
      requires Valid() && disp.Busy?
      modifies this
      ensures Valid() && View() == if ok then Answered(old(View())) else ReadFailed(old(View()))
      ensures old(disp).co in results &&
        results[old(disp).co] == if ok then Answer(asked[old(disp).co], Tag(old(epoch), old(read))) else Failed
      ensures old(Inv(View())) ==> (Inv(View()) <==> !(ok && !old(sock) && old(request) != []))
    {
      hide Own;
      hide Inv;
      hide Turned;
      hide WakeAll;
      ResponseIs(View(), ok);
      if ok {
        results := results[disp.co := Answer(disp.tag, Tag(epoch, read))];
        read, disp := read + 1, Ready;
        DispatchByOrder();
      } else {
        sock := false;
        results := results[disp.co := Failed];
        WakeupAll();
        disp := Off;
      }
    }
  }

  lemma {:induction false} ResponseIs(s: State, ok: bool)
    requires Own(s) && s.disp.Busy?
    ensures var t := if ok then Answered(s) else ReadFailed(s);
      && Own(t) && s.disp.co in t.results && s.disp.co in t.asked
      && t.results[s.disp.co] == (if ok then Answer(t.asked[s.disp.co], Tag(s.epoch, s.read)) else Failed)
      && (Inv(s) ==> (Inv(t) <==> !(ok && !s.sock && s.request != [])))
  {
    StepOwn(s, if ok then Succeed else Fail);
    if Inv(s) {
      StepInv(s, if ok then Succeed else Fail);
    }
    DeliveredOwn(s);
    TurnedOwn(Delivered(s));
    BusyFailed(s);
  }

  lemma {:induction false} BusyFailed(s: State)
    requires Own(s) && s.disp.Busy?
    ensures s.disp.co in ReadFailed(s).results && ReadFailed(s).results[s.disp.co] == Failed
    ensures Turned(Delivered(s)).asked == ReadFailed(s).asked == s.asked
  {
  }

  lemma FailNone(results: map<nat, Outcome>)
    ensures FailAll(results, []) == results
  {
    assert Waiters([]) == {};
  }

  lemma FailFirst(results: map<nat, Outcome>, thread: seq<Option<nat>>)
    requires thread != []
    ensures FailAll(if thread[0].Some? then results[thread[0].value := Failed] else results, thread[1..]) ==
      FailAll(results, thread)
  {
    assert thread == [thread[0]] + thread[1..];
    assert Waiters(thread) == Waiters(thread[1..]) + if thread[0].Some? then {thread[0].value} else {};
  }
}
