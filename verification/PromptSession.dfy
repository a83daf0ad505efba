/** Prompt settlement in one `Session`: a reader thread and any number of threads
    in `run_prompt`, interleaved at every lock, queue operation and callback.

    Each call of `run_prompt` has its own number, which also names its one-slot
    queue.  Actions are total: one whose thread is elsewhere leaves the state
    alone, so a schedule is any interleaving. */
module PromptSession {
  import opened Outcomes

  /** What the reader makes of one JSON line. */
  datatype Event =
    | Response(id: Option<string>, success: Option<bool>)
    | AgentSettled(id: Option<string>)
    | Other

  /** A result handed to a prompt.  `event` is the number of the event behind it
      and `named` the request that event named; both are history only. */
  datatype Outcome =
    | Settled(event: nat)
    | Rejected(named: Option<string>, event: nat)
    | Failed(message: string)
    | Exited(status: int)

  /** `slot` is the queue; `first` the first result ever put into it. */
  datatype Queue = Queue(request: string, slot: Option<Outcome>, first: Option<Outcome>)

  datatype Ending = Returned(outcome: Outcome) | WriteFailed | Latched(message: string) | Gone(status: int)

  datatype CallerPc =
    | Queued                    // before _prompt_lock
    | Entering                  // holds it, next the first state-lock block
    | Sending                   // registered, next the write
    | Waiting                   // in result_queue.get()
    | Leaving(ending: Ending)   // in the finally block
    | Unlocking(ending: Ending) // out of it, still holding _prompt_lock
    | Finished(ending: Ending)

  datatype Caller = Caller(request: string, pc: CallerPc)

  /** Where the reader goes after `_complete_active`. */
  datatype Then = Loop | Close | Stop

  datatype ReaderPc =
    | Reading
    | Classified(rejected: Option<Outcome>, settled: bool, event: nat)
    | Picking(outcome: Outcome, next: Then)             // _complete_active: reads _active_result
    | Putting(call: nat, outcome: Outcome, next: Then)  // _complete_active: put_nowait
    | Failing(message: string)                          // _fail: sets _error
    | Closing                                           // finally: sets _eof and _exit_status
    | Stopped

  datatype Active = Active(request: string, call: nat)

  /** A line the reader received, and the request registered when it classified the
      line.  History only. */
  datatype Line = Line(event: Event, active: Option<string>)

  datatype State = State(
    promptLock: Option<nat>,
    active: Option<Active>,
    error: Option<string>,
    eof: bool,
    exitStatus: int,
    queues: map<nat, Queue>,
    callers: map<nat, Caller>,
    reader: ReaderPc,
    log: seq<Line>,
    rendered: set<nat>)

  const START := State(None, None, None, false, 1, map[], map[], Reading, [], {})

  datatype ReaderAction =
    | Receive(event: Event)
    | Broken(message: string)              // undecodable line, or the stream itself raised
    | EndOfFile
    | Render(accepted: bool, message: string)  // on_event returns, or raises
    | Pick
    | Put
    | Latch
    | CloseWith(status: int)

  datatype CallerAction = TakeLock | Enter | Send(written: bool) | Get | Unregister | Unlock

  datatype Action = Reads(r: ReaderAction) | Calls(call: nat, c: CallerAction) | Starts(call: nat, request: string)

  /** The reader's test, under the state lock.  With no prompt active, a failing
      response without an id passes it too. */
  predicate Rejects(s: State, e: Event) {
    && e.Response?
    && e.id == (if s.active.Some? then Some(s.active.value.request) else None)
    && e.success == Some(false)
  }

  function At(s: State, call: nat, pc: CallerPc): State
    requires call in s.callers
  {
    s.(callers := s.callers[call := s.callers[call].(pc := pc)])
  }

  function After(next: Then): ReaderPc {
    match next
    case Loop => Reading
    case Close => Closing
    case Stop => Stopped
  }

  function Offer(q: Queue, o: Outcome): Queue {
    if q.slot.Some? then q else q.(slot := Some(o), first := if q.first.Some? then q.first else Some(o))
  }

  function ReaderStep(s: State, a: ReaderAction): State {
    match (s.reader, a)
    case (Reading, Receive(e)) =>
      s.(reader := Classified(if Rejects(s, e) then Some(Rejected(e.id, |s.log|)) else None,
                              e.AgentSettled?, |s.log|),
         log := s.log + [Line(e, if s.active.Some? then Some(s.active.value.request) else None)])
    case (Reading, Broken(message)) => s.(reader := Failing(message))
    case (Reading, EndOfFile) => s.(reader := Closing)
    case (Classified(rejected, settled, n), Render(accepted, message)) =>
      if !accepted then s.(reader := Failing(message))
      else s.(rendered := s.rendered + {n},
              reader := if rejected.Some? then Picking(rejected.value, Loop)
                        else if settled then Picking(Settled(n), Loop)
                        else Reading)
    case (Picking(o, next), Pick) =>
      s.(reader := if s.active.Some? then Putting(s.active.value.call, o, next) else After(next))
    case (Putting(call, o, next), Put) =>
      if call in s.queues
      then s.(queues := s.queues[call := Offer(s.queues[call], o)], reader := After(next))
      else s
    case (Failing(message), Latch) => s.(error := Some(message), reader := Picking(Failed(message), Close))
    case (Closing, CloseWith(status)) =>
      s.(eof := true, exitStatus := status, reader := Picking(Exited(status), Stop))
    case _ => s
  }

  function CallerStep(s: State, call: nat, pc: CallerPc, a: CallerAction): State
    requires call in s.callers
  {
    match (pc, a)
    case (Queued, TakeLock) =>
      if s.promptLock.None? then At(s, call, Entering).(promptLock := Some(call)) else s
    case (Entering, Enter) =>
      if s.error.Some? then At(s, call, Unlocking(Latched(s.error.value)))
      else if s.eof then At(s, call, Unlocking(Gone(s.exitStatus)))
      else At(s, call, Sending).(active := Some(Active(s.callers[call].request, call)),
                                 queues := s.queues[call := Queue(s.callers[call].request, None, None)])
    case (Sending, Send(written)) => At(s, call, if written then Waiting else Leaving(WriteFailed))
    case (Waiting, Get) =>
      if call in s.queues && s.queues[call].slot.Some?
      then At(s, call, Leaving(Returned(s.queues[call].slot.value)))
             .(queues := s.queues[call := s.queues[call].(slot := None)])
      else s
    case (Leaving(ending), Unregister) =>
      At(s, call, Unlocking(ending))
        .(active := if s.active.Some? && s.active.value.call == call then None else s.active)
    case (Unlocking(ending), Unlock) => At(s, call, Finished(ending)).(promptLock := None)
    case _ => s
  }

  function Step(s: State, a: Action): State {
    match a
    case Reads(r) => ReaderStep(s, r)
    case Calls(call, c) => if call in s.callers then CallerStep(s, call, s.callers[call].pc, c) else s
    case Starts(call, request) =>
      if call in s.callers then s else s.(callers := s.callers[call := Caller(request, Queued)])
  }

  function Run(s: State, schedule: seq<Action>): State
    decreases |schedule|
  {
    if schedule == [] then s else Run(Step(s, schedule[0]), schedule[1..])
  }

  // ---- the invariant ----

  predicate HoldsLock(pc: CallerPc) {
    !pc.Queued? && !pc.Finished?
  }

  predicate Registered(pc: CallerPc) {
    pc.Sending? || pc.Waiting? || pc.Leaving?
  }

  function Result(pc: CallerPc): Option<Outcome> {
    match pc
    case Leaving(Returned(o)) => Some(o)
    case Unlocking(Returned(o)) => Some(o)
    case Finished(Returned(o)) => Some(o)
    case _ => None
  }

  /** A settlement comes from a settled line, a rejection from a response that says
      `false` under the id that was registered then, or under none with nothing
      registered. */
  predicate FromLog(s: State, o: Outcome) {
    match o
    case Settled(n) => n < |s.log| && s.log[n].event.AgentSettled?
    case Rejected(named, n) =>
      n < |s.log| && s.log[n].event == Response(named, Some(false)) && named == s.log[n].active
    case _ => true
  }

  /** The outcome of an event exists only once the callback accepted the event. */
  predicate Shown(s: State, o: Outcome) {
    && FromLog(s, o)
    && match o
       case Settled(n) => n in s.rendered
       case Rejected(_, n) => n in s.rendered
       case _ => true
  }

  ghost predicate CallSound(s: State, call: nat)
    requires call in s.callers
  {
    var c := s.callers[call];
    && (HoldsLock(c.pc) <==> s.promptLock == Some(call))
    && (Registered(c.pc) <==> s.active == Some(Active(c.request, call)))
    && (s.active.Some? && s.active.value.call == call ==> Registered(c.pc))
    && (c.pc.Queued? || c.pc.Entering? ==> call !in s.queues)
    && (Registered(c.pc) ==> call in s.queues && s.queues[call].request == c.request)
    && (c.pc.Sending? || c.pc.Waiting? ==> s.queues[call].slot == s.queues[call].first)
    && (Result(c.pc).Some? ==> call in s.queues && s.queues[call].first == Result(c.pc)
                               && s.queues[call].request == c.request)
  }

  /** The reader and the latches: a latch is set only on the way out, and by then
      whoever is registered has been, or is about to be, served. */
  ghost predicate ReaderSound(s: State) {
    && (s.error.Some? ==>
          s.reader.Closing? || s.reader.Stopped? || ((s.reader.Picking? || s.reader.Putting?) && !s.reader.next.Loop?))
    && (s.eof <==> s.reader.Stopped? || ((s.reader.Picking? || s.reader.Putting?) && s.reader.next.Stop?))
    && ((s.reader.Picking? || s.reader.Putting?) && s.reader.next.Close? ==> s.error.Some?)
    && (s.reader.Classified? && s.reader.rejected.Some? ==>
          s.reader.rejected.value.Rejected? && s.reader.rejected.value.event == s.reader.event
          && FromLog(s, s.reader.rejected.value))
    && (s.reader.Classified? && s.reader.settled ==> FromLog(s, Settled(s.reader.event)))
    && (s.reader.Picking? || s.reader.Putting? ==> Shown(s, s.reader.outcome))
    && (s.reader.Putting? ==> s.reader.call in s.queues)
    && (s.reader.Putting? && !s.reader.next.Loop? && s.active.Some? ==> s.active.value.call == s.reader.call)
    && (s.active.Some? && (s.reader.Stopped? || (s.reader.Closing? && s.error.Some?)) ==>
          s.active.value.call in s.queues && s.queues[s.active.value.call].first.Some?)
  }

  ghost predicate QueueSound(s: State, q: Queue) {
    (q.slot.Some? ==> q.first.Some?) && (q.first.Some? ==> Shown(s, q.first.value))
  }

  ghost predicate Inv(s: State) {
    && (forall call | call in s.callers :: CallSound(s, call))
    && (s.active.Some? ==> s.active.value.call in s.callers)
    && (s.promptLock.Some? ==> s.promptLock.value in s.callers)
    && (forall call | call in s.queues :: call in s.callers)
    && (forall call | call in s.queues :: QueueSound(s, s.queues[call]))
    && ReaderSound(s)
  }

  lemma ReaderKeepsReader(s: State, a: ReaderAction)
    requires ReaderSound(s)
    requires forall call | call in s.queues :: QueueSound(s, s.queues[call])
    requires s.active.Some? ==> s.active.value.call in s.queues
    ensures ReaderSound(ReaderStep(s, a))
  {
  }

  /** The reader touches one queue, and only by offering to it. */
  lemma ReaderTouches(s: State, a: ReaderAction)
    ensures var s' := ReaderStep(s, a);
            && s'.callers == s.callers && s'.active == s.active && s'.promptLock == s.promptLock
            && s'.queues.Keys == s.queues.Keys && s.rendered <= s'.rendered && s.log <= s'.log
            && forall call | call in s.queues ::
                 s'.queues[call] == s.queues[call] ||
                 (s.reader.Putting? && s'.queues[call] == Offer(s.queues[call], s.reader.outcome))
  {
  }

  lemma ReaderKeepsCall(s: State, a: ReaderAction, call: nat)
    requires call in s.callers && CallSound(s, call) && (call in s.queues ==> QueueSound(s, s.queues[call]))
    requires s.reader.Putting? ==> Shown(s, s.reader.outcome)
    ensures call in ReaderStep(s, a).callers && CallSound(ReaderStep(s, a), call)
    ensures call in s.queues ==>
              call in ReaderStep(s, a).queues && QueueSound(ReaderStep(s, a), ReaderStep(s, a).queues[call])
  {
    ReaderTouches(s, a);
  }

  lemma ReaderKeeps(s: State, a: ReaderAction)
    requires Inv(s)
    ensures Inv(ReaderStep(s, a))
  {
    ReaderTouches(s, a);
    assert s.active.Some? ==> CallSound(s, s.active.value.call);
    ReaderKeepsReader(s, a);
    forall call | call in s.callers
      ensures CallSound(ReaderStep(s, a), call)
      ensures call in s.queues ==> QueueSound(ReaderStep(s, a), ReaderStep(s, a).queues[call])
    {
      ReaderKeepsCall(s, a, call);
    }
  }

  lemma CallerKeepsReader(s: State, call: nat, a: CallerAction)
    requires call in s.callers && CallSound(s, call) && ReaderSound(s)
    ensures ReaderSound(CallerStep(s, call, s.callers[call].pc, a))
  {
  }

  /** A caller's step leaves every other call's record alone. */
  lemma CallerTouches(s: State, call: nat, a: CallerAction)
    requires call in s.callers && CallSound(s, call)
    ensures var s' := CallerStep(s, call, s.callers[call].pc, a);
            && s'.callers.Keys == s.callers.Keys && s'.rendered == s.rendered && s'.log == s.log
            && s.queues.Keys <= s'.queues.Keys <= s.queues.Keys + {call}
            && (forall c | c in s'.callers && c != call :: s'.callers[c] == s.callers[c])
            && (forall c | c in s'.queues && c != call :: s'.queues[c] == s.queues[c])
            && (s'.promptLock == s.promptLock || {s.promptLock, s'.promptLock} == {None, Some(call)})
            && (s'.active == s.active
                || (HoldsLock(s.callers[call].pc) && (s'.active.Some? ==> s'.active.value.call == call)))
  {
  }

  lemma OwnKept(s: State, call: nat, a: CallerAction)
    requires call in s.callers && CallSound(s, call) && (call in s.queues ==> QueueSound(s, s.queues[call]))
    ensures var s' := CallerStep(s, call, s.callers[call].pc, a);
            call in s'.callers && CallSound(s', call) && (call in s'.queues ==> QueueSound(s', s'.queues[call]))
  {
  }

  lemma OthersKept(s: State, call: nat, a: CallerAction, other: nat)
    requires Inv(s) && call in s.callers && other in s.callers && other != call
    ensures other in CallerStep(s, call, s.callers[call].pc, a).callers
    ensures CallSound(CallerStep(s, call, s.callers[call].pc, a), other)
  {
    assert CallSound(s, call) && CallSound(s, other);
    CallerTouches(s, call, a);
  }

  lemma CallsKept(s: State, call: nat, a: CallerAction)
    requires Inv(s) && call in s.callers
    ensures var s' := CallerStep(s, call, s.callers[call].pc, a);
            && (forall c | c in s'.callers :: CallSound(s', c))
            && (forall c | c in s'.queues :: QueueSound(s', s'.queues[c]))
  {
    var s' := CallerStep(s, call, s.callers[call].pc, a);
    assert CallSound(s, call);
    CallerTouches(s, call, a);
    OwnKept(s, call, a);
    forall other | other in s'.callers ensures CallSound(s', other) {
      if other != call {
        OthersKept(s, call, a, other);
      }
    }
    forall c | c in s'.queues ensures QueueSound(s', s'.queues[c]) {
      if c != call {
        assert QueueSound(s, s.queues[c]);
      }
    }
  }

  lemma CallerKeeps(s: State, call: nat, a: CallerAction)
    requires Inv(s) && call in s.callers
    ensures Inv(CallerStep(s, call, s.callers[call].pc, a))
  {
    assert CallSound(s, call);
    CallsKept(s, call, a);
    CallerTouches(s, call, a);
    CallerKeepsReader(s, call, a);
  }

  lemma StartKeeps(s: State, call: nat, request: string)
    requires Inv(s)
    ensures Inv(Step(s, Starts(call, request)))
  {
    forall c | c in s.callers ensures CallSound(Step(s, Starts(call, request)), c) {
      assert CallSound(s, c);
    }
  }

  lemma StepKeeps(s: State, a: Action)
    requires Inv(s)
    ensures Inv(Step(s, a))
  {
    match a {
      case Reads(r) => ReaderKeeps(s, r);
      case Calls(call, c) =>
        if call in s.callers {
          CallerKeeps(s, call, c);
        }
      case Starts(call, request) => StartKeeps(s, call, request);
    }
  }

  lemma {:induction false} RunKeeps(s: State, schedule: seq<Action>)
    requires Inv(s)
    ensures Inv(Run(s, schedule))
    decreases |schedule|
  {
    if schedule != [] {
      StepKeeps(s, schedule[0]);
      RunKeeps(Step(s, schedule[0]), schedule[1..]);
    }
  }

  // ---- what every interleaving guarantees ----

  /** At most one prompt is past the lock, and the registered prompt is that one:
      its number, its request, its queue. */
  lemma OnePromptAtATime(schedule: seq<Action>, c: nat, d: nat)
    requires var s := Run(START, schedule);
             c in s.callers && d in s.callers && HoldsLock(s.callers[c].pc) && HoldsLock(s.callers[d].pc)
    ensures c == d
    ensures var s := Run(START, schedule);
            s.active.Some? ==> s.active == Some(Active(s.callers[c].request, c))
  {
    var s := Run(START, schedule);
    RunKeeps(START, schedule);
    assert CallSound(s, c) && CallSound(s, d);
    if s.active.Some? {
      assert CallSound(s, s.active.value.call);
    }
  }

  /** A queue's first result never changes once it is there. */
  lemma {:induction false} FirstIsFinal(s: State, schedule: seq<Action>, call: nat)
    requires Inv(s) && call in s.queues && s.queues[call].first.Some?
    ensures call in Run(s, schedule).queues && Run(s, schedule).queues[call].first == s.queues[call].first
    decreases |schedule|
  {
    if schedule != [] {
      StepKeeps(s, schedule[0]);
      FirstStays(s, schedule[0], call);
      FirstIsFinal(Step(s, schedule[0]), schedule[1..], call);
    }
  }

  lemma FirstStays(s: State, a: Action, call: nat)
    requires Inv(s) && call in s.queues && s.queues[call].first.Some?
    ensures call in Step(s, a).queues && Step(s, a).queues[call].first == s.queues[call].first
  {
    assert CallSound(s, call);
    match a {
      case Reads(r) => ReaderTouches(s, r);
      case Calls(c, step) =>
        if c in s.callers {
          assert CallSound(s, c);
          CallerTouches(s, c, step);
        }
      case Starts(_, _) =>
    }
  }

  /** Each prompt gets at most one outcome, and it is the first that was ever offered to
      its queue.  A settlement was made from an `agent_settled` line, a rejection from a
      response that says `success` is false and names the request registered when it was
      read, or names none when none was; and the callback had accepted that line. */
  lemma OutcomeIsFirst(schedule: seq<Action>, c: nat, o: Outcome)
    requires c in Run(START, schedule).callers && Result(Run(START, schedule).callers[c].pc) == Some(o)
    ensures c in Run(START, schedule).queues && Run(START, schedule).queues[c].first == Some(o)
    ensures var s := Run(START, schedule);
            && (o.Settled? ==>
                  o.event < |s.log| && o.event in s.rendered && s.log[o.event].event.AgentSettled?)
            && (o.Rejected? ==>
                  o.event < |s.log| && o.event in s.rendered
                  && s.log[o.event] == Line(Response(o.named, Some(false)), o.named))
  {
    RunKeeps(START, schedule);
    var s := Run(START, schedule);
    assert CallSound(s, c) && QueueSound(s, s.queues[c]);
  }

  /** The lines of the log are exactly those received, in order: line `n` was received by
      some action of the run, with `n` lines before it and that request registered. */
  lemma {:induction false} LineWasReceived(s: State, schedule: seq<Action>, n: nat) returns (k: nat)
    requires |s.log| <= n < |Run(s, schedule).log|
    ensures k < |schedule| && schedule[k].Reads? && schedule[k].r == Receive(Run(s, schedule).log[n].event)
    ensures var before := Run(s, schedule[..k]);
            && before.reader.Reading? && |before.log| == n
            && Run(s, schedule).log[n].active
               == (if before.active.Some? then Some(before.active.value.request) else None)
    decreases |schedule|
  {
    var s1 := Step(s, schedule[0]);
    StepLogs(s, schedule[0]);
    RunLogs(s1, schedule[1..]);
    if |s1.log| > n {
      k := 0;
      assert schedule[..0] == [];
    } else {
      k := LineWasReceived(s1, schedule[1..], n);
      assert schedule[..k + 1][1..] == schedule[1..][..k];
      k := k + 1;
    }
  }

  lemma StepLogs(s: State, a: Action)
    ensures Step(s, a).log ==
            if a.Reads? && a.r.Receive? && s.reader.Reading?
            then s.log + [Line(a.r.event, if s.active.Some? then Some(s.active.value.request) else None)]
            else s.log
  {
  }

  lemma {:induction false} RunLogs(s: State, schedule: seq<Action>)
    ensures s.log <= Run(s, schedule).log
    decreases |schedule|
  {
    if schedule != [] {
      StepLogs(s, schedule[0]);
      RunLogs(Step(s, schedule[0]), schedule[1..]);
    }
  }

  /** No lost wake-up: once the reader has stopped, or has failed and served the
      failure, every prompt that waits, or is about to, finds a result in its
      queue. */
  lemma NoLostWakeUp(schedule: seq<Action>, c: nat)
    requires var s := Run(START, schedule);
             && (s.reader.Stopped? || (s.reader.Closing? && s.error.Some?))
             && c in s.callers && (s.callers[c].pc.Sending? || s.callers[c].pc.Waiting?)
    ensures c in Run(START, schedule).queues && Run(START, schedule).queues[c].slot.Some?
  {
    RunKeeps(START, schedule);
    assert CallSound(Run(START, schedule), c);
  }

  /** The next step of a call that holds the prompt lock. */
  function NextOf(pc: CallerPc): CallerAction
    requires HoldsLock(pc)
  {
    match pc
    case Entering => Enter
    case Sending => Send(true)
    case Waiting => Get
    case Leaving(_) => Unregister
    case Unlocking(_) => Unlock
  }

  function Remaining(pc: CallerPc): nat {
    match pc
    case Queued => 6
    case Entering => 5
    case Sending => 4
    case Waiting => 3
    case Leaving(_) => 2
    case Unlocking(_) => 1
    case Finished(_) => 0
  }

  lemma StaysStopped(s: State, a: Action)
    requires s.reader.Stopped?
    ensures var s' := Step(s, a); s'.reader.Stopped? && s'.error == s.error && s'.exitStatus == s.exitStatus
  {
  }

  /** The latches never open again, so neither does the session. */
  lemma {:induction false} StoppedForGood(s: State, schedule: seq<Action>)
    requires Inv(s) && s.reader.Stopped?
    ensures Run(s, schedule).reader.Stopped? && Run(s, schedule).eof
    ensures Run(s, schedule).error == s.error && Run(s, schedule).exitStatus == s.exitStatus
    decreases |schedule|
  {
    if schedule != [] {
      StepKeeps(s, schedule[0]);
      StaysStopped(s, schedule[0]);
      StoppedForGood(Step(s, schedule[0]), schedule[1..]);
    }
  }

  /** What a call raises that finds the reader gone. */
  function Refusal(s: State): Ending {
    if s.error.Some? then Latched(s.error.value) else Gone(s.exitStatus)
  }

  /** A call that has not entered yet, or has been refused. */
  predicate Refused(s: State, c: nat) {
    c in s.callers ==>
      match s.callers[c].pc {
        case Queued => true
        case Entering => true
        case Unlocking(ending) => ending == Refusal(s)
        case Finished(ending) => ending == Refusal(s)
        case _ => false
      }
  }

  lemma RefusedStays(s: State, a: Action, c: nat)
    requires s.reader.Stopped? && ReaderSound(s) && Refused(s, c)
    ensures Refused(Step(s, a), c)
  {
  }

  /** A call that starts, or still queues, once the reader is gone never registers a
      prompt: whatever anybody does, it queues, enters, and raises the latched error,
      or else the exit status. */
  lemma {:induction false} LateCallIsRefused(s: State, schedule: seq<Action>, c: nat)
    requires Inv(s) && s.reader.Stopped? && Refused(s, c)
    ensures Refused(Run(s, schedule), c)
    decreases |schedule|
  {
    if schedule != [] {
      StepKeeps(s, schedule[0]);
      StaysStopped(s, schedule[0]);
      RefusedStays(s, schedule[0], c);
      LateCallIsRefused(Step(s, schedule[0]), schedule[1..], c);
    }
  }

  // ---- every call returns ----

  /** The steps a call has left, its start included. */
  function Weight(s: State, c: nat): nat {
    if c in s.callers then Remaining(s.callers[c].pc) else 7
  }

  /** The steps that the calls numbered below `n` have left. */
  function Work(s: State, n: nat): nat {
    if n == 0 then 0 else Work(s, n - 1) + Weight(s, n - 1)
  }

  predicate Lighter(s: State, s': State, c: nat) { Weight(s', c) < Weight(s, c) }

  ghost predicate NoHeavier(s: State, s': State) {
    forall c: nat :: Weight(s', c) <= Weight(s, c)
  }

  lemma {:induction false} WorkDrops(s: State, s': State, n: nat)
    requires NoHeavier(s, s')
    ensures Work(s', n) <= Work(s, n)
    ensures forall c | 0 <= c < n && Lighter(s, s', c) :: Work(s', n) < Work(s, n)
  {
    if n > 0 {
      WorkDrops(s, s', n - 1);
    }
  }

  /** With the reader gone a caller's step moves that caller on, or changes nothing. */
  lemma CallerWeighs(s: State, c: nat, a: CallerAction)
    requires c in s.callers
    ensures var s' := CallerStep(s, c, s.callers[c].pc, a);
            NoHeavier(s, s') && (s' == s || Lighter(s, s', c))
  {
  }

  lemma StepWeighs(s: State, a: Action)
    requires s.reader.Stopped?
    ensures NoHeavier(s, Step(s, a)) && (Step(s, a) == s || exists c :: Lighter(s, Step(s, a), c))
  {
    match a {
      case Reads(_) =>
      case Calls(c, step) =>
        if c in s.callers {
          CallerWeighs(s, c, step);
        }
      case Starts(c, _) =>
        if c !in s.callers {
          assert Lighter(s, Step(s, a), c);
        }
    }
  }

  /** Over a run calls only get lighter, and if none does nothing happened at all. */
  lemma {:induction false} RunWeighs(s: State, schedule: seq<Action>)
    requires s.reader.Stopped?
    ensures Run(s, schedule).reader.Stopped? && NoHeavier(s, Run(s, schedule))
    ensures Run(s, schedule) == s || exists c :: Lighter(s, Run(s, schedule), c)
    decreases |schedule|
  {
    if schedule != [] {
      var s1 := Step(s, schedule[0]);
      StepWeighs(s, schedule[0]);
      StaysStopped(s, schedule[0]);
      RunWeighs(s1, schedule[1..]);
      if s1 != s {
        var c :| Lighter(s, s1, c);
        assert Lighter(s, Run(s, schedule), c);
      }
    }
  }

  /** The action is the call's own next step; a write may succeed or fail. */
  predicate Attempts(pc: CallerPc, a: CallerAction) {
    match pc
    case Queued => a.TakeLock?
    case Entering => a.Enter?
    case Sending => a.Send?
    case Waiting => a.Get?
    case Leaving(_) => a.Unregister?
    case Unlocking(_) => a.Unlock?
    case Finished(_) => false
  }

  predicate AttemptAt(s: State, segment: seq<Action>, c: nat, k: nat) {
    && k < |segment| && segment[k].Calls? && segment[k].call == c
    && c in Run(s, segment[..k]).callers
    && Attempts(Run(s, segment[..k]).callers[c].pc, segment[k].c)
  }

  /** Every call that could go on gets a turn, or is already over by the end. */
  predicate Fair(s: State, segment: seq<Action>) {
    forall c | c in s.callers && !s.callers[c].pc.Finished? ::
      Lighter(s, Run(s, segment), c) || exists k | 0 <= k < |segment| :: AttemptAt(s, segment, c, k)
  }

  /** The lock holder can always move, and so can a queued call while the lock is
      free. */
  lemma AttemptMoves(s: State, c: nat, a: CallerAction)
    requires c in s.callers && CallSound(s, c) && ReaderSound(s) && s.reader.Stopped?
    requires Attempts(s.callers[c].pc, a) && (HoldsLock(s.callers[c].pc) || s.promptLock.None?)
    ensures Lighter(s, Step(s, Calls(c, a)), c)
  {
  }

  /** Somebody whose attempt cannot fail. */
  lemma Mover(s: State, c: nat) returns (m: nat)
    requires Inv(s) && c in s.callers && !s.callers[c].pc.Finished?
    ensures m in s.callers && !s.callers[m].pc.Finished?
    ensures HoldsLock(s.callers[m].pc) || s.promptLock.None?
  {
    if s.promptLock.Some? {
      m := s.promptLock.value;
      assert CallSound(s, m);
    } else {
      m := c;
    }
  }

  lemma RunOneMore(s: State, schedule: seq<Action>, k: nat)
    requires k < |schedule|
    ensures Run(s, schedule[..k + 1]) == Step(Run(s, schedule[..k]), schedule[k])
    ensures Run(s, schedule) == Run(Run(s, schedule[..k + 1]), schedule[k + 1..])
  {
    assert schedule[..k + 1] == schedule[..k] + [schedule[k]];
    RunAppend(s, schedule[..k], [schedule[k]]);
    assert [schedule[k]][1..] == [];
    assert schedule == schedule[..k + 1] + schedule[k + 1..];
    RunAppend(s, schedule[..k + 1], schedule[k + 1..]);
  }

  lemma Lightens(s: State, s1: State, s2: State, c: nat)
    requires NoHeavier(s, s1) && NoHeavier(s1, s2) && (Lighter(s, s1, c) || Lighter(s1, s2, c))
    ensures Lighter(s, s2, c)
  {
  }

  /** While a call is unfinished, a fair segment moves someone on. */
  lemma SegmentMoves(s: State, segment: seq<Action>, c: nat) returns (m: nat)
    requires Inv(s) && s.reader.Stopped? && Fair(s, segment)
    requires c in s.callers && !s.callers[c].pc.Finished?
    ensures NoHeavier(s, Run(s, segment)) && Lighter(s, Run(s, segment), m)
  {
    RunWeighs(s, segment);
    m := Mover(s, c);
    if !Lighter(s, Run(s, segment), m) {
      var k :| 0 <= k < |segment| && AttemptAt(s, segment, m, k);
      var s1 := Run(s, segment[..k]);
      RunWeighs(s, segment[..k]);
      RunOneMore(s, segment, k);
      RunWeighs(s, segment[..k + 1]);
      RunWeighs(Run(s, segment[..k + 1]), segment[k + 1..]);
      if s1 == s {
        assert CallSound(s, m);
        AttemptMoves(s, m, segment[k].c);
      } else {
        var i :| Lighter(s, s1, i);
        StepWeighs(s1, segment[k]);
        Lightens(s, s1, Run(s, segment[..k + 1]), i);
        m := i;
      }
      Lightens(s, Run(s, segment[..k + 1]), Run(s, segment), m);
    }
  }

  function RunAll(s: State, segments: seq<seq<Action>>): State
    decreases |segments|
  {
    if segments == [] then s else RunAll(Run(s, segments[0]), segments[1..])
  }

  predicate FairAll(s: State, segments: seq<seq<Action>>)
    decreases |segments|
  {
    segments == [] || (Fair(s, segments[0]) && FairAll(Run(s, segments[0]), segments[1..]))
  }

  /** All calls there are have numbers below `n`. */
  predicate Numbered(s: State, n: nat) { forall c | c in s.callers :: c < n }

  predicate StartsBelow(schedule: seq<Action>, n: nat) {
    forall i | 0 <= i < |schedule| && schedule[i].Starts? :: schedule[i].call < n
  }

  predicate AllStartBelow(segments: seq<seq<Action>>, n: nat) {
    forall i | 0 <= i < |segments| :: StartsBelow(segments[i], n)
  }

  lemma {:induction false} StaysNumbered(s: State, schedule: seq<Action>, n: nat)
    requires Numbered(s, n) && StartsBelow(schedule, n)
    ensures Numbered(Run(s, schedule), n)
    decreases |schedule|
  {
    if schedule != [] {
      StepNumbered(s, schedule[0], n);
      StaysNumbered(Step(s, schedule[0]), schedule[1..], n);
    }
  }

  lemma StepNumbered(s: State, a: Action, n: nat)
    requires Numbered(s, n) && (a.Starts? ==> a.call < n)
    ensures Numbered(Step(s, a), n)
  {
  }

  lemma {:induction false} WeightWithin(s: State, n: nat, c: nat)
    requires c < n
    ensures Weight(s, c) <= Work(s, n)
  {
    if c < n - 1 {
      WeightWithin(s, n - 1, c);
    }
  }

  lemma {:induction false} RunAllWeighs(s: State, segments: seq<seq<Action>>)
    requires s.reader.Stopped?
    ensures NoHeavier(s, RunAll(s, segments))
    decreases |segments|
  {
    if segments != [] {
      RunWeighs(s, segments[0]);
      RunAllWeighs(Run(s, segments[0]), segments[1..]);
    }
  }

  /** Nobody waits for ever.  Once the reader is gone, as many fair segments as the
      calls have steps left bring every call to its end, also those that start
      meanwhile and also those queued on the prompt lock, as long as calls do not
      keep arriving without end. */
  lemma {:induction false} EveryCallReturns(s: State, segments: seq<seq<Action>>, n: nat, c: nat)
    requires Inv(s) && s.reader.Stopped? && c in s.callers
    requires Numbered(s, n) && AllStartBelow(segments, n) && FairAll(s, segments)
    requires |segments| >= Work(s, n)
    ensures c in RunAll(s, segments).callers && RunAll(s, segments).callers[c].pc.Finished?
    decreases |segments|
  {
    WeightWithin(s, n, c);
    RunAllWeighs(s, segments);
    if !s.callers[c].pc.Finished? {
      var s1 := Run(s, segments[0]);
      var m := SegmentMoves(s, segments[0], c);
      StaysNumbered(s, segments[0], n);
      RunKeeps(s, segments[0]);
      RunWeighs(s, segments[0]);
      assert AllStartBelow(segments[1..], n);
      WorkDrops(s, s1, n);
      LighterBelow(s, s1, n, m);
      EveryCallReturns(s1, segments[1..], n, c);
    }
  }

  lemma LighterBelow(s: State, s': State, n: nat, m: nat)
    requires Numbered(s', n) && Lighter(s, s', m)
    ensures m < n
  {
  }

  lemma {:induction false} LateCallIsRefusedThroughout(s: State, segments: seq<seq<Action>>, c: nat)
    requires Inv(s) && s.reader.Stopped? && Refused(s, c)
    ensures Refused(RunAll(s, segments), c) && Refusal(RunAll(s, segments)) == Refusal(s)
    decreases |segments|
  {
    if segments != [] {
      LateCallIsRefused(s, segments[0], c);
      StoppedForGood(s, segments[0]);
      RunKeeps(s, segments[0]);
      LateCallIsRefusedThroughout(Run(s, segments[0]), segments[1..], c);
    }
  }

  /** Instead of blocking: from any moment of any run at which the reader is gone,
      every call returns, and a call that had not entered by then, or starts only
      later, can return in no way but by raising the latched error, or else the exit
      status. */
  lemma NothingBlocksAfterStop(schedule: seq<Action>, segments: seq<seq<Action>>, n: nat, c: nat)
    requires var s := Run(START, schedule);
             && s.reader.Stopped? && Numbered(s, n) && AllStartBelow(segments, n)
             && FairAll(s, segments) && |segments| >= Work(s, n)
    ensures var s, s' := Run(START, schedule), RunAll(Run(START, schedule), segments);
            && (c in s.callers ==> c in s'.callers && s'.callers[c].pc.Finished?)
            && (c in s.callers && (s.callers[c].pc.Queued? || s.callers[c].pc.Entering?) ==>
                  s'.callers[c].pc == Finished(Refusal(s)))
            && (c !in s.callers && c in s'.callers && s'.callers[c].pc.Finished? ==>
                  s'.callers[c].pc == Finished(Refusal(s)))
  {
    var s := Run(START, schedule);
    RunKeeps(START, schedule);
    if c in s.callers {
      EveryCallReturns(s, segments, n, c);
    }
    if Refused(s, c) {
      LateCallIsRefusedThroughout(s, segments, c);
    }
  }

  // ---- whom a rejection reaches ----

  /** The registered prompt has been written and waits with nothing in its queue. */
  predicate Steady(s: State) {
    && s.active.Some?
    && s.active.value.call in s.callers && s.callers[s.active.value.call].pc.Waiting?
    && s.active.value.call in s.queues && s.queues[s.active.value.call].slot.None?
  }

  predicate Misnamed(q: Queue) {
    q.first.Some? && q.first.value.Rejected? && q.first.value.named != Some(q.request)
  }

  /** Since `before`, call `c` came to return the rejection of some other request. */
  predicate Wronged(before: State, s: State, c: nat) {
    && c in s.callers && c in s.queues
    && Result(s.callers[c].pc) == s.queues[c].first
    && Misnamed(s.queues[c]) && !(c in before.queues && Misnamed(before.queues[c]))
  }

  predicate NoMoreLines(schedule: seq<Action>) {
    forall i | 0 <= i < |schedule| :: !(schedule[i].Reads? && schedule[i].r.Receive?)
  }

  /** From `s`, the reader's handling of this one line can wrong a prompt. */
  ghost predicate CanWrong(s: State, e: Event) {
    exists schedule, c :: NoMoreLines(schedule) && Wronged(s, Run(Step(s, Reads(Receive(e))), schedule), c)
  }

  /** While the line is handled: no new misnamed result, and either the rejection
      is still on its way to a steady prompt that it names, or it is done with. */
  ghost predicate OnTrack(before: State, s: State) {
    && Inv(s)
    && NoneNew(before, s)
    && match s.reader {
         case Classified(Some(o), _, _) => Steady(s) && o.Rejected? && o.named == Some(s.active.value.request)
         case Picking(o, _) => o.Rejected? ==> Steady(s) && o.named == Some(s.active.value.request)
         case Putting(call, o, _) =>
           o.Rejected? ==> Steady(s) && call == s.active.value.call && o.named == Some(s.active.value.request)
         case _ => true
       }
  }

  ghost predicate NoneNew(before: State, s: State) {
    forall c | c in s.queues && Misnamed(s.queues[c]) :: c in before.queues && Misnamed(before.queues[c])
  }

  lemma NoneNewReader(before: State, s: State, r: ReaderAction)
    requires OnTrack(before, s) && !r.Receive?
    ensures NoneNew(before, ReaderStep(s, r))
  {
    ReaderTouches(s, r);
    var s' := ReaderStep(s, r);
    assert s.active.Some? ==> CallSound(s, s.active.value.call);
    forall c | c in s'.queues && Misnamed(s'.queues[c]) ensures c in before.queues && Misnamed(before.queues[c]) {
      if s'.queues[c] != s.queues[c] {
        assert s'.queues[c] == Offer(s.queues[c], s.reader.outcome);
      }
    }
  }

  lemma OnTrackReader(before: State, s: State, r: ReaderAction)
    requires OnTrack(before, s) && !r.Receive?
    ensures OnTrack(before, ReaderStep(s, r))
  {
    ReaderKeeps(s, r);
    NoneNewReader(before, s, r);
    assert s.active.Some? ==> CallSound(s, s.active.value.call);
    hide Inv, ReaderSound, QueueSound, NoneNew;
  }

  lemma SteadyCaller(s: State, call: nat, a: CallerAction)
    requires Inv(s) && Steady(s) && call in s.callers
    ensures var s' := CallerStep(s, call, s.callers[call].pc, a);
            Steady(s') && s'.active == s.active && s'.queues == s.queues
  {
    assert CallSound(s, call) && CallSound(s, s.active.value.call);
  }

  /** A caller's step puts no result anywhere. */
  lemma CallerOffersNothing(s: State, call: nat, a: CallerAction, c: nat)
    requires call in s.callers && CallSound(s, call)
    requires c in CallerStep(s, call, s.callers[call].pc, a).queues
    ensures var q := CallerStep(s, call, s.callers[call].pc, a).queues[c];
            q.first.None? || (c in s.queues && s.queues[c].first == q.first && s.queues[c].request == q.request)
  {
  }

  lemma OnTrackCaller(before: State, s: State, call: nat, a: CallerAction)
    requires OnTrack(before, s) && call in s.callers
    ensures OnTrack(before, CallerStep(s, call, s.callers[call].pc, a))
  {
    var s' := CallerStep(s, call, s.callers[call].pc, a);
    assert CallSound(s, call);
    forall c | c in s'.queues && Misnamed(s'.queues[c]) ensures c in before.queues && Misnamed(before.queues[c]) {
      CallerOffersNothing(s, call, a, c);
      assert Misnamed(s.queues[c]);
    }
    CallerKeeps(s, call, a);
    CallerLeavesReader(s, call, a);
    if Steady(s) {
      SteadyCaller(s, call, a);
    }
  }

  lemma CallerLeavesReader(s: State, call: nat, a: CallerAction)
    requires call in s.callers
    ensures CallerStep(s, call, s.callers[call].pc, a).reader == s.reader
  {
  }

  lemma {:induction false} OnTrackRun(before: State, s: State, schedule: seq<Action>)
    requires OnTrack(before, s) && NoMoreLines(schedule)
    ensures OnTrack(before, Run(s, schedule))
    decreases |schedule|
  {
    if schedule != [] {
      var a := schedule[0];
      match a {
        case Reads(r) => OnTrackReader(before, s, r);
        case Calls(call, c) =>
          if call in s.callers {
            OnTrackCaller(before, s, call, c);
          }
        case Starts(_, _) => StepKeeps(s, a);
      }
      OnTrackRun(before, Step(s, a), schedule[1..]);
    }
  }

  /** A rejection of a steady prompt reaches that prompt or nobody. */
  lemma SteadyIsSafe(s: State, e: Event)
    requires Inv(s) && s.reader.Reading? && (Rejects(s, e) ==> Steady(s))
    ensures !CanWrong(s, e)
  {
    var s1 := Step(s, Reads(Receive(e)));
    StepKeeps(s, Reads(Receive(e)));
    assert OnTrack(s, s1);
    forall schedule, c | NoMoreLines(schedule) ensures !Wronged(s, Run(s1, schedule), c) {
      OnTrackRun(s, s1, schedule);
    }
  }

  lemma {:induction false} RunAppend(s: State, a: seq<Action>, b: seq<Action>)
    ensures Run(s, a + b) == Run(Run(s, a), b)
    decreases |a|
  {
    if a == [] {
      assert a + b == b;
    } else {
      assert (a + b)[1..] == a[1..] + b;
      RunAppend(Step(s, a[0]), a[1..], b);
    }
  }

  lemma FreshCall(keys: set<nat>) returns (c: nat)
    ensures forall k | k in keys :: k < c
  {
    c := 0;
    var rest := keys;
    while rest != {}
      invariant rest <= keys && forall k | k in keys && k !in rest :: k < c
      decreases |rest|
    {
      var k :| k in rest;
      rest := rest - {k};
      c := if k < c then c else k + 1;
    }
  }

  /** How the lock holder can be made to leave without hearing from the reader. */
  function WayOut(pc: CallerPc): CallerAction
    requires HoldsLock(pc)
  {
    if pc.Sending? then Send(false) else NextOf(pc)
  }

  lemma StepOut(s: State, c: nat)
    requires Inv(s) && s.reader.Classified? && s.promptLock == Some(c) && !Steady(s)
    ensures c in s.callers && HoldsLock(s.callers[c].pc)
    ensures var s' := CallerStep(s, c, s.callers[c].pc, WayOut(s.callers[c].pc));
            && s'.reader == s.reader && s'.callers.Keys == s.callers.Keys && !Steady(s')
            && (s'.promptLock.None? || s'.promptLock == Some(c))
            && Remaining(s'.callers[c].pc) < Remaining(s.callers[c].pc)
  {
    assert CallSound(s, c);
    hide Inv, ReaderSound, QueueSound;
    if s.callers[c].pc.Waiting? {
      assert s.active == Some(Active(s.callers[c].request, c));
    }
  }

  /** While a classified line is being rendered, an unsteady prompt can leave. */
  lemma Vacate(s: State) returns (schedule: seq<Action>)
    requires Inv(s) && s.reader.Classified? && !Steady(s)
    ensures NoMoreLines(schedule)
    ensures var s' := Run(s, schedule);
            Inv(s') && s'.promptLock.None? && s'.reader == s.reader && s'.callers.Keys == s.callers.Keys
    decreases if s.promptLock.Some? && s.promptLock.value in s.callers
              then Remaining(s.callers[s.promptLock.value].pc) else 0
  {
    if s.promptLock.None? {
      schedule := [];
    } else {
      var c := s.promptLock.value;
      StepOut(s, c);
      var a := Calls(c, WayOut(s.callers[c].pc));
      StepKeeps(s, a);
      var rest := Vacate(Step(s, a));
      schedule := [a] + rest;
      assert schedule[1..] == rest;
    }
  }

  /** The next prompt registers and is written. */
  lemma EnterNext(s: State, c: nat, request: string) returns (schedule: seq<Action>)
    requires Inv(s) && s.promptLock.None? && c !in s.callers && s.reader.Classified?
    ensures NoMoreLines(schedule)
    ensures var s' := Run(s, schedule);
            && s'.active == Some(Active(request, c)) && s'.reader == s.reader
            && c in s'.callers && s'.callers[c] == Caller(request, Waiting)
            && c in s'.queues && s'.queues[c] == Queue(request, None, None)
  {
    schedule := [Starts(c, request), Calls(c, TakeLock), Calls(c, Enter), Calls(c, Send(true))];
    var s1 := Step(s, schedule[0]);
    var s2 := Step(s1, schedule[1]);
    var s3 := Step(s2, schedule[2]);
    var s4 := Step(s3, schedule[3]);
    assert Run(s3, schedule[3..]) == s4;
    assert Run(s2, schedule[2..]) == s4;
    assert Run(s1, schedule[1..]) == s4;
  }

  /** What the line being handled will end a prompt with. */
  function Pending(r: ReaderPc): Option<Outcome> {
    match r
    case Classified(rejected, settled, n) =>
      if rejected.Some? then rejected else if settled then Some(Settled(n)) else None
    case _ => None
  }

  /** The reader hands its outcome to whichever prompt is active by now. */
  lemma ServeNext(s: State, c: nat, o: Outcome) returns (schedule: seq<Action>)
    requires Pending(s.reader) == Some(o) && s.active.Some? && s.active.value.call == c
    requires c in s.callers && s.callers[c].pc.Waiting?
    requires c in s.queues && s.queues[c].slot.None? && s.queues[c].first.None?
    ensures NoMoreLines(schedule)
    ensures var s' := Run(s, schedule);
            && c in s'.callers && s'.callers[c] == s.callers[c].(pc := Leaving(Returned(o)))
            && c in s'.queues && s'.queues[c] == Queue(s.queues[c].request, None, Some(o))
  {
    schedule := [Reads(Render(true, "")), Reads(Pick), Reads(Put), Calls(c, Get)];
    var s1 := Step(s, schedule[0]);
    var s2 := Step(s1, schedule[1]);
    var s3 := Step(s2, schedule[2]);
    var s4 := Step(s3, schedule[3]);
    assert Run(s3, schedule[3..]) == s4;
    assert Run(s2, schedule[2..]) == s4;
    assert Run(s1, schedule[1..]) == s4;
  }

  /** The next prompt receives what was meant for another, or for nobody. */
  lemma Intrude(s: State, c: nat, request: string, o: Outcome) returns (schedule: seq<Action>)
    requires Inv(s) && s.promptLock.None? && c !in s.callers && Pending(s.reader) == Some(o)
    ensures NoMoreLines(schedule)
    ensures var s' := Run(s, schedule);
            && c in s'.callers && s'.callers[c] == Caller(request, Leaving(Returned(o)))
            && c in s'.queues && s'.queues[c] == Queue(request, None, Some(o))
  {
    var enter := EnterNext(s, c, request);
    var serve := ServeNext(Run(s, enter), c, o);
    schedule := enter + serve;
    RunAppend(s, enter, serve);
  }

  /** An unsteady prompt's rejection can reach the next prompt instead. */
  lemma UnsteadyIsUnsafe(s: State, e: Event)
    requires Inv(s) && s.reader.Reading? && Rejects(s, e) && !Steady(s)
    ensures CanWrong(s, e)
  {
    var s1 := Step(s, Reads(Receive(e)));
    StepKeeps(s, Reads(Receive(e)));
    var leave := Vacate(s1);
    var c := FreshCall(s1.callers.Keys);
    var request := if e.id == Some("a") then "b" else "a";
    var intrude := Intrude(Run(s1, leave), c, request, Rejected(e.id, |s.log|));
    RunAppend(s1, leave, intrude);
    assert c !in s.queues;
    assert Wronged(s, Run(s1, leave + intrude), c);
  }

  /** The exact condition.  A rejection reaches only the prompt it names, in every
      continuation, if and only if that prompt was already written and had no
      result yet when the reader classified the line.  (A failing response without
      an id, read while no prompt is active, is the remaining unsafe case.) */
  lemma RejectionMisroutedIff(s: State, e: Event)
    requires Inv(s) && s.reader.Reading?
    ensures CanWrong(s, e) <==>
            !Steady(s) && e == Response(if s.active.Some? then Some(s.active.value.request) else None, Some(false))
  {
    if Rejects(s, e) && !Steady(s) {
      UnsteadyIsUnsafe(s, e);
    } else {
      SteadyIsSafe(s, e);
    }
  }

  /** Prompt "a" is sent. */
  lemma SendFirst() returns (schedule: seq<Action>)
    ensures Run(START, schedule) ==
            START.(promptLock := Some(0), active := Some(Active("a", 0)), queues := map[0 := Queue("a", None, None)],
                   callers := map[0 := Caller("a", Waiting)])
  {
    schedule := [Starts(0, "a"), Calls(0, TakeLock), Calls(0, Enter), Calls(0, Send(true))];
    var s1 := Step(START, schedule[0]);
    var s2 := Step(s1, schedule[1]);
    var s3 := Step(s2, schedule[2]);
    var s4 := Step(s3, schedule[3]);
    assert Run(s3, schedule[3..]) == s4;
    assert Run(s2, schedule[2..]) == s4;
    assert Run(s1, schedule[1..]) == s4;
  }

  /** Pi settles the active prompt. */
  lemma SettleActive(s: State) returns (schedule: seq<Action>)
    requires s.reader.Reading? && s.active.Some? && s.active.value.call in s.queues
    requires s.queues[s.active.value.call].slot.None?
    ensures var s', c := Run(s, schedule), s.active.value.call;
            && s'.reader.Reading? && s'.active == s.active
            && c in s'.queues && s'.queues[c].slot == Some(Settled(|s.log|))
  {
    schedule := [Reads(Receive(AgentSettled(None))), Reads(Render(true, "")), Reads(Pick), Reads(Put)];
    var s1 := Step(s, schedule[0]);
    var s2 := Step(s1, schedule[1]);
    var s3 := Step(s2, schedule[2]);
    var s4 := Step(s3, schedule[3]);
    assert Run(s3, schedule[3..]) == s4;
    assert Run(s2, schedule[2..]) == s4;
    assert Run(s1, schedule[1..]) == s4;
  }

  /** A concrete run: Pi settles prompt "a", then rejects "a" as well; before the
      callback returns, "a" is taken off and "b" is sent.  "b" is rejected. */
  lemma StaleRejection() returns (settle: seq<Action>, e: Event)
    ensures e == Response(Some("a"), Some(false))
    ensures Inv(Run(START, settle)) && Run(START, settle).reader.Reading?
    ensures Run(START, settle).active == Some(Active("a", 0)) && CanWrong(Run(START, settle), e)
  {
    e := Response(Some("a"), Some(false));
    var send := SendFirst();
    var serve := SettleActive(Run(START, send));
    settle := send + serve;
    RunAppend(START, send, serve);
    RunKeeps(START, settle);
    RejectionMisroutedIff(Run(START, settle), e);
  }

  // ---- whom any line reaches ----

  function EventOf(o: Outcome): Option<nat> {
    match o
    case Settled(n) => Some(n)
    case Rejected(_, n) => Some(n)
    case _ => None
  }

  /** The line ends a prompt: it rejects the active one, or says Pi has settled. */
  predicate EndsPrompt(s: State, e: Event) { Rejects(s, e) || e.AgentSettled? }

  /** Call `c` registered only after `before`, and returns the outcome of event `n`. */
  predicate EndedBy(before: State, s: State, c: nat, n: nat) {
    && c !in before.queues && c in s.queues && c in s.callers
    && s.queues[c].first.Some? && EventOf(s.queues[c].first.value) == Some(n)
    && Result(s.callers[c].pc) == s.queues[c].first
  }

  /** From `s`, this one line can end a prompt that registers only after it was read. */
  ghost predicate CanEndLater(s: State, e: Event) {
    exists schedule, c ::
      NoMoreLines(schedule) && EndedBy(s, Run(Step(s, Reads(Receive(e))), schedule), c, |s.log|)
  }

  /** No prompt registered since `before` holds a result of event `n`. */
  ghost predicate NoneLate(before: State, s: State, n: nat) {
    forall c | c in s.queues && c !in before.queues && s.queues[c].first.Some? ::
      EventOf(s.queues[c].first.value) != Some(n)
  }

  /** While the line is handled, its outcome is aimed at a prompt of `before`. */
  ghost predicate Aimed(before: State, s: State, n: nat) {
    && Inv(s) && before.queues.Keys <= s.queues.Keys && NoneLate(before, s, n)
    && match s.reader {
         case Classified(_, _, _) =>
           Pending(s.reader).Some? ==> Steady(s) && s.active.value.call in before.queues
         case Picking(o, _) => EventOf(o) == Some(n) ==> Steady(s) && s.active.value.call in before.queues
         case Putting(call, o, _) => EventOf(o) == Some(n) ==> call in before.queues
         case _ => true
       }
  }

  lemma NoneLateReader(before: State, s: State, n: nat, r: ReaderAction)
    requires Aimed(before, s, n) && !r.Receive?
    ensures NoneLate(before, ReaderStep(s, r), n)
  {
    ReaderTouches(s, r);
    var s' := ReaderStep(s, r);
    forall c | c in s'.queues && c !in before.queues && s'.queues[c].first.Some?
      ensures EventOf(s'.queues[c].first.value) != Some(n)
    {
      if s'.queues[c] != s.queues[c] {
        assert s'.queues[c] == Offer(s.queues[c], s.reader.outcome);
      }
    }
  }

  lemma AimedReader(before: State, s: State, n: nat, r: ReaderAction)
    requires Aimed(before, s, n) && !r.Receive?
    ensures Aimed(before, ReaderStep(s, r), n)
  {
    ReaderKeeps(s, r);
    ReaderTouches(s, r);
    NoneLateReader(before, s, n, r);
    assert s.active.Some? ==> CallSound(s, s.active.value.call);
    hide Inv, ReaderSound, QueueSound, NoneLate, CallSound;
  }

  lemma AimedCaller(before: State, s: State, n: nat, call: nat, a: CallerAction)
    requires Aimed(before, s, n) && call in s.callers
    ensures Aimed(before, CallerStep(s, call, s.callers[call].pc, a), n)
  {
    var s' := CallerStep(s, call, s.callers[call].pc, a);
    assert CallSound(s, call);
    forall c | c in s'.queues && c !in before.queues && s'.queues[c].first.Some?
      ensures EventOf(s'.queues[c].first.value) != Some(n)
    {
      CallerOffersNothing(s, call, a, c);
    }
    CallerKeeps(s, call, a);
    CallerTouches(s, call, a);
    CallerLeavesReader(s, call, a);
    if Steady(s) {
      SteadyCaller(s, call, a);
    }
  }

  lemma {:induction false} AimedRun(before: State, s: State, n: nat, schedule: seq<Action>)
    requires Aimed(before, s, n) && NoMoreLines(schedule)
    ensures Aimed(before, Run(s, schedule), n)
    decreases |schedule|
  {
    if schedule != [] {
      var a := schedule[0];
      match a {
        case Reads(r) => AimedReader(before, s, n, r);
        case Calls(call, c) =>
          if call in s.callers {
            AimedCaller(before, s, n, call, c);
          }
        case Starts(_, _) => StepKeeps(s, a);
      }
      AimedRun(before, Step(s, a), n, schedule[1..]);
    }
  }

  lemma SteadyEndsItself(s: State, e: Event)
    requires Inv(s) && s.reader.Reading? && (EndsPrompt(s, e) ==> Steady(s))
    ensures !CanEndLater(s, e)
  {
    var s1 := Step(s, Reads(Receive(e)));
    StepKeeps(s, Reads(Receive(e)));
    assert Aimed(s, s1, |s.log|);
    forall schedule, c | NoMoreLines(schedule) ensures !EndedBy(s, Run(s1, schedule), c, |s.log|) {
      AimedRun(s, s1, |s.log|, schedule);
    }
  }

  lemma UnsteadyEndsNext(s: State, e: Event)
    requires Inv(s) && s.reader.Reading? && EndsPrompt(s, e) && !Steady(s)
    ensures CanEndLater(s, e)
  {
    var s1 := Step(s, Reads(Receive(e)));
    StepKeeps(s, Reads(Receive(e)));
    var leave := Vacate(s1);
    var c := FreshCall(s1.callers.Keys);
    assert c !in s.queues;
    var o := Pending(s1.reader).value;
    var intrude := Intrude(Run(s1, leave), c, "", o);
    RunAppend(s1, leave, intrude);
    assert EndedBy(s, Run(s1, leave + intrude), c, |s.log|);
  }

  /** The exact condition for lines of both kinds.  A line can end a prompt that was
      not yet registered when the line was read if and only if it ends prompts at all
      and the prompt registered then, if any, was not waiting for its first result.
      So `run_prompt` may return on a settlement older than its prompt. */
  lemma LateEndIff(s: State, e: Event)
    requires Inv(s) && s.reader.Reading?
    ensures CanEndLater(s, e) <==>
            && !Steady(s)
            && (e.AgentSettled?
                || e == Response(if s.active.Some? then Some(s.active.value.request) else None, Some(false)))
  {
    if EndsPrompt(s, e) && !Steady(s) {
      UnsteadyEndsNext(s, e);
    } else {
      SteadyEndsItself(s, e);
    }
  }

  /** The shortest such run: Pi says it has settled while nothing is active, and the
      first prompt ever sent returns on that. */
  lemma EarlySettlement()
    ensures CanEndLater(START, AgentSettled(None))
  {
    LateEndIff(START, AgentSettled(None));
  }
}
