/** What becomes of one line: whom it ends, and with what, when the other threads run
    freely between any two steps of the reader. */
module PromptDelivery {
  import opened Outcomes
  import opened PromptSession

  predicate OnlyCalls(schedule: seq<Action>) {
    forall i | 0 <= i < |schedule| :: !schedule[i].Reads?
  }

  /** The reader's steps `steps`, each followed by what the other threads do meanwhile. */
  function Interleaved(steps: seq<ReaderAction>, meanwhile: seq<seq<Action>>): seq<Action>
    requires |meanwhile| == |steps|
  {
    if steps == [] then [] else [Reads(steps[0])] + meanwhile[0] + Interleaved(steps[1..], meanwhile[1..])
  }

  predicate AllOnlyCalls(meanwhile: seq<seq<Action>>) {
    forall i | 0 <= i < |meanwhile| :: OnlyCalls(meanwhile[i])
  }

  /** The first result of every queue is what it was, and a new queue has none. */
  ghost predicate SameFirsts(s: State, s': State) {
    && s.queues.Keys <= s'.queues.Keys
    && forall c | c in s'.queues :: s'.queues[c].first == if c in s.queues then s.queues[c].first else None
  }

  ghost predicate SameReader(s: State, s': State) {
    && s'.reader == s.reader && s'.log == s.log && s'.rendered == s.rendered
    && s'.error == s.error && s'.eof == s.eof && s'.exitStatus == s.exitStatus
  }

  /** Other threads leave the reader and every first result alone, and a prompt that
      waits for its first result stays registered. */
  ghost predicate Meanwhile(s: State, s': State) {
    && Inv(s') && SameReader(s, s') && SameFirsts(s, s')
    && (Steady(s) ==> Steady(s') && s'.active == s.active)
  }

  lemma CallStep(s: State, call: nat, c: CallerAction)
    requires Inv(s) && call in s.callers
    ensures Meanwhile(s, CallerStep(s, call, s.callers[call].pc, c))
  {
    var s' := CallerStep(s, call, s.callers[call].pc, c);
    CallerKeeps(s, call, c);
    assert CallSound(s, call);
    CallerTouches(s, call, c);
    forall q | q in s'.queues ensures s'.queues[q].first == if q in s.queues then s.queues[q].first else None {
      CallerOffersNothing(s, call, c, q);
      if q in s.queues {
        QueueIsMadeOnce(s, call, c, q);
      }
    }
    if Steady(s) {
      SteadyCaller(s, call, c);
    }
    CallerLeavesLatches(s, call, c);
  }

  /** A queue is made once. */
  lemma QueueIsMadeOnce(s: State, call: nat, c: CallerAction, q: nat)
    requires call in s.callers && CallSound(s, call) && q in s.queues
    ensures q in CallerStep(s, call, s.callers[call].pc, c).queues
    ensures CallerStep(s, call, s.callers[call].pc, c).queues[q].first == s.queues[q].first
  {
  }

  lemma CallerLeavesLatches(s: State, call: nat, c: CallerAction)
    requires call in s.callers
    ensures SameReader(s, CallerStep(s, call, s.callers[call].pc, c))
  {
  }

  lemma OtherStep(s: State, a: Action)
    requires Inv(s) && !a.Reads?
    ensures Meanwhile(s, Step(s, a))
  {
    hide Inv;
    match a {
      case Calls(call, c) =>
        if call in s.callers {
          CallStep(s, call, c);
        }
      case Starts(call, request) => StartKeeps(s, call, request);
    }
  }

  lemma MeanwhileThen(s: State, s1: State, s2: State)
    requires Meanwhile(s, s1) && Meanwhile(s1, s2)
    ensures Meanwhile(s, s2)
  {
    hide Inv, Steady;
  }

  lemma {:induction false} CallsRun(s: State, schedule: seq<Action>)
    requires Inv(s) && OnlyCalls(schedule)
    ensures Meanwhile(s, Run(s, schedule))
    decreases |schedule|
  {
    if schedule != [] {
      OtherStep(s, schedule[0]);
      hide Inv, Meanwhile, Step;
      CallsRun(Step(s, schedule[0]), schedule[1..]);
      MeanwhileThen(s, Step(s, schedule[0]), Run(s, schedule));
    } else {
      hide Inv;
    }
  }

  /** One step of the reader, then the other threads. */
  lemma Advance(s: State, r: ReaderAction, calls: seq<Action>, rest: seq<Action>) returns (s': State)
    requires Inv(s) && OnlyCalls(calls)
    ensures Meanwhile(ReaderStep(s, r), s') && Run(s, [Reads(r)] + calls + rest) == Run(s', rest)
  {
    var s1 := ReaderStep(s, r);
    ReaderKeeps(s, r);
    CallsRun(s1, calls);
    s' := Run(s1, calls);
    hide Inv, Meanwhile, ReaderStep;
    assert [Reads(r)] + calls + rest == [Reads(r)] + (calls + rest);
    assert ([Reads(r)] + (calls + rest))[1..] == calls + rest;
    RunAppend(s1, calls, rest);
  }

  /** The registered prompt's first result is `o`, and every other first result is what
      it was. */
  ghost predicate EndsWith(s: State, s': State, o: Outcome)
    requires s.active.Some?
  {
    var call := s.active.value.call;
    && s.queues.Keys <= s'.queues.Keys
    && call in s'.queues && s'.queues[call].first == Some(o)
    && forall c | c in s'.queues && c != call :: s'.queues[c].first == if c in s.queues then s.queues[c].first else None
  }

  lemma {:induction false} InterleavedHead(r: ReaderAction, steps: seq<ReaderAction>, meanwhile: seq<seq<Action>>)
    requires |meanwhile| == |steps| + 1
    ensures Interleaved([r] + steps, meanwhile) == [Reads(r)] + meanwhile[0] + Interleaved(steps, meanwhile[1..])
  {
    assert ([r] + steps)[1..] == steps;
  }

  /** Whatever the reader does before it puts a result, the waiting prompt still waits. */
  lemma StillWaits(s: State, r: ReaderAction, s': State)
    requires Inv(s) && Steady(s) && !s.reader.Putting? && Meanwhile(ReaderStep(s, r), s')
    ensures s.active.Some? && Steady(s') && s'.active == s.active && SameFirsts(s, s')
  {
    hide Inv;
  }

  lemma EndsLater(s: State, s1: State, s2: State, o: Outcome)
    requires s.active.Some? && s1.active == s.active && SameFirsts(s, s1) && EndsWith(s1, s2, o)
    ensures EndsWith(s, s2, o)
  {
  }

  lemma PutEnds(s: State, s': State)
    requires Inv(s) && Steady(s) && s.reader.Putting? && s.reader.call == s.active.value.call
    requires Meanwhile(ReaderStep(s, Put), s')
    ensures EndsWith(s, s', s.reader.outcome)
  {
    assert CallSound(s, s.active.value.call);
    hide Inv, ReaderSound, QueueSound, CallSound, SameReader;
  }

  /** Picking and putting end the prompt that waits. */
  lemma Delivered(s: State, meanwhile: seq<seq<Action>>)
    requires Inv(s) && Steady(s) && s.reader.Picking? && |meanwhile| == 2 && AllOnlyCalls(meanwhile)
    ensures var s' := Run(s, Interleaved([Pick, Put], meanwhile));
            && Inv(s') && EndsWith(s, s', s.reader.outcome) && s'.reader == After(s.reader.next)
            && s'.error == s.error && s'.eof == s.eof && s'.exitStatus == s.exitStatus
  {
    InterleavedHead(Pick, [Put], meanwhile);
    InterleavedHead(Put, [], meanwhile[1..]);
    hide Inv, Interleaved, EndsWith, OnlyCalls, Steady, SameFirsts;
    var s1 := Advance(s, Pick, meanwhile[0], [Reads(Put)] + meanwhile[1] + []);
    StillWaits(s, Pick, s1);
    var s2 := Advance(s1, Put, meanwhile[1], []);
    PutEnds(s1, s2);
    EndsLater(s, s1, s2, s.reader.outcome);
  }

  /** What a line says to the prompt registered when it is read: a response that says
      `success` is false under that prompt's id rejects it, and a settlement settles
      it. */
  ghost predicate Says(e: Event, request: string, n: nat, o: Outcome) {
    || (e == Response(Some(request), Some(false)) && o == Rejected(Some(request), n))
    || (e.AgentSettled? && o == Settled(n))
  }

  /** A line that rejects or settles the waiting prompt, once the callback accepts it, is
      exactly that prompt's first result, whatever the other threads do meanwhile, and
      no other prompt's. */
  lemma ServedExactly(s: State, e: Event, o: Outcome, message: string, meanwhile: seq<seq<Action>>)
    requires Inv(s) && s.reader.Reading? && Steady(s) && Says(e, s.active.value.request, |s.log|, o)
    requires |meanwhile| == 4 && AllOnlyCalls(meanwhile)
    ensures var s' := Run(s, Interleaved([Receive(e), Render(true, message), Pick, Put], meanwhile));
            Inv(s') && s'.reader.Reading? && EndsWith(s, s', o) && s'.error == s.error
  {
    InterleavedHead(Receive(e), [Render(true, message), Pick, Put], meanwhile);
    InterleavedHead(Render(true, message), [Pick, Put], meanwhile[1..]);
    hide Inv, Interleaved, EndsWith, OnlyCalls, Steady, SameFirsts;
    assert meanwhile[1..][1..] == meanwhile[2..];
    var rest := Interleaved([Pick, Put], meanwhile[2..]);
    var s1 := Advance(s, Receive(e), meanwhile[0], [Reads(Render(true, message))] + meanwhile[1] + rest);
    StillWaits(s, Receive(e), s1);
    var s2 := Advance(s1, Render(true, message), meanwhile[1], rest);
    StillWaits(s1, Render(true, message), s2);
    Delivered(s2, meanwhile[2..]);
    EndsLater(s1, s2, Run(s2, rest), o);
    EndsLater(s, s1, Run(s2, rest), o);
  }

  /** Any other line, once the callback accepts it, ends nobody. */
  lemma OthersIgnored(s: State, e: Event, message: string, meanwhile: seq<seq<Action>>)
    requires Inv(s) && s.reader.Reading? && !e.AgentSettled?
    requires e != Response(if s.active.Some? then Some(s.active.value.request) else None, Some(false))
    requires |meanwhile| == 2 && AllOnlyCalls(meanwhile)
    ensures var s' := Run(s, Interleaved([Receive(e), Render(true, message)], meanwhile));
            Inv(s') && s'.reader.Reading? && SameFirsts(s, s') && s'.error == s.error
  {
    InterleavedHead(Receive(e), [Render(true, message)], meanwhile);
    InterleavedHead(Render(true, message), [], meanwhile[1..]);
    var s1 := Advance(s, Receive(e), meanwhile[0], [Reads(Render(true, message))] + meanwhile[1] + []);
    var s2 := Advance(s1, Render(true, message), meanwhile[1], []);
    hide Inv, ReaderSound, QueueSound, CallSound;
  }

  /** A callback that raises, on any line, fails the session: the waiting prompt ends with
      its message, which stays latched. */
  lemma RefusedLineFails(s: State, e: Event, message: string, meanwhile: seq<seq<Action>>)
    requires Inv(s) && s.reader.Reading? && Steady(s) && |meanwhile| == 5 && AllOnlyCalls(meanwhile)
    ensures var s' := Run(s, Interleaved([Receive(e), Render(false, message), Latch, Pick, Put], meanwhile));
            Inv(s') && s'.reader.Closing? && EndsWith(s, s', Failed(message)) && s'.error == Some(message)
  {
    InterleavedHead(Receive(e), [Render(false, message), Latch, Pick, Put], meanwhile);
    InterleavedHead(Render(false, message), [Latch, Pick, Put], meanwhile[1..]);
    hide Inv, Interleaved, EndsWith, OnlyCalls, Steady, SameFirsts;
    assert meanwhile[1..][1..] == meanwhile[2..];
    var rest := Interleaved([Latch, Pick, Put], meanwhile[2..]);
    var s1 := Advance(s, Receive(e), meanwhile[0], [Reads(Render(false, message))] + meanwhile[1] + rest);
    StillWaits(s, Receive(e), s1);
    var s2 := Advance(s1, Render(false, message), meanwhile[1], rest);
    StillWaits(s1, Render(false, message), s2);
    FailureServed(s2, message, meanwhile[2..]);
    EndsLater(s1, s2, Run(s2, rest), Failed(message));
    EndsLater(s, s1, Run(s2, rest), Failed(message));
  }

  /** So does a line that cannot be decoded, or a stream that raises. */
  lemma BrokenLineFails(s: State, message: string, meanwhile: seq<seq<Action>>)
    requires Inv(s) && s.reader.Reading? && Steady(s) && |meanwhile| == 4 && AllOnlyCalls(meanwhile)
    ensures var s' := Run(s, Interleaved([Broken(message), Latch, Pick, Put], meanwhile));
            Inv(s') && s'.reader.Closing? && EndsWith(s, s', Failed(message)) && s'.error == Some(message)
  {
    InterleavedHead(Broken(message), [Latch, Pick, Put], meanwhile);
    hide Inv, Interleaved, EndsWith, OnlyCalls, Steady, SameFirsts;
    var rest := Interleaved([Latch, Pick, Put], meanwhile[1..]);
    var s1 := Advance(s, Broken(message), meanwhile[0], rest);
    StillWaits(s, Broken(message), s1);
    FailureServed(s1, message, meanwhile[1..]);
    EndsLater(s, s1, Run(s1, rest), Failed(message));
  }

  lemma FailureServed(s: State, message: string, meanwhile: seq<seq<Action>>)
    requires Inv(s) && Steady(s) && s.reader == Failing(message) && |meanwhile| == 3 && AllOnlyCalls(meanwhile)
    ensures var s' := Run(s, Interleaved([Latch, Pick, Put], meanwhile));
            Inv(s') && s'.reader.Closing? && EndsWith(s, s', Failed(message)) && s'.error == Some(message)
  {
    InterleavedHead(Latch, [Pick, Put], meanwhile);
    hide Inv, Interleaved, EndsWith, OnlyCalls, Steady, SameFirsts;
    var rest := Interleaved([Pick, Put], meanwhile[1..]);
    var s1 := Advance(s, Latch, meanwhile[0], rest);
    StillWaits(s, Latch, s1);
    Delivered(s1, meanwhile[1..]);
    EndsLater(s, s1, Run(s1, rest), Failed(message));
  }

  lemma CloseServed(s: State, status: int, meanwhile: seq<seq<Action>>)
    requires Inv(s) && Steady(s) && s.reader.Closing? && |meanwhile| == 3 && AllOnlyCalls(meanwhile)
    ensures var s' := Run(s, Interleaved([CloseWith(status), Pick, Put], meanwhile));
            && Inv(s') && s'.reader.Stopped? && EndsWith(s, s', Exited(status))
            && s'.error == s.error && s'.eof && s'.exitStatus == status
  {
    InterleavedHead(CloseWith(status), [Pick, Put], meanwhile);
    hide Inv, Interleaved, EndsWith, OnlyCalls, Steady, SameFirsts;
    var rest := Interleaved([Pick, Put], meanwhile[1..]);
    var s1 := Advance(s, CloseWith(status), meanwhile[0], rest);
    StillWaits(s, CloseWith(status), s1);
    Delivered(s1, meanwhile[1..]);
    EndsLater(s, s1, Run(s1, rest), Exited(status));
  }

  /** The end of the stream ends the waiting prompt with the exit status. */
  lemma EndServed(s: State, status: int, meanwhile: seq<seq<Action>>)
    requires Inv(s) && s.reader.Reading? && Steady(s) && |meanwhile| == 4 && AllOnlyCalls(meanwhile)
    ensures var s' := Run(s, Interleaved([EndOfFile, CloseWith(status), Pick, Put], meanwhile));
            && Inv(s') && s'.reader.Stopped? && EndsWith(s, s', Exited(status))
            && s'.error == s.error && s'.eof && s'.exitStatus == status
  {
    InterleavedHead(EndOfFile, [CloseWith(status), Pick, Put], meanwhile);
    hide Inv, Interleaved, EndsWith, OnlyCalls, Steady, SameFirsts;
    var rest := Interleaved([CloseWith(status), Pick, Put], meanwhile[1..]);
    var s1 := Advance(s, EndOfFile, meanwhile[0], rest);
    StillWaits(s, EndOfFile, s1);
    CloseServed(s1, status, meanwhile[1..]);
    EndsLater(s, s1, Run(s1, rest), Exited(status));
  }
}
