/** Any number of processes sharing one instance store.

    Every file-system call is one action, a process may die between any two of
    them, and a schedule is any interleaving.  Actions are total: an action that
    its process cannot take leaves the state alone, so a theorem about every
    schedule is a theorem about every run. */
module StoreProtocol {
  import opened Outcomes
  import opened InstanceDisk

  type Pid = nat

  /** What a lock holder does after the pending record has been drained. */
  datatype Goal =
    | SaveMany(cohort: seq<Instance>)
    | SaveOne(document: Instance)
    | Remove(target: string)
    | Read                                             // load or list under the lock
    | Answer(wanted: string, seen: set<Option<Instance>>)  // an unlocked load that had to recover

  datatype ReadResult = Found(instance: Instance) | NotFound | Invalid

  /** Where a process is.  A process that is not in the table is not running an
      operation.  `seen` is the history of the values an unlocked load's
      identifier has had since the call began. */
  datatype Pc =
    | Holding                                                  // inside `with store.locked()`
    | Publishing(docs: seq<Instance>, calls: nat, next: Option<Goal>)
    | Drained(goal: Goal)
    | Renaming(document: Instance)                             // save(): directory made, rename next
    | Quarantining(target: string)                             // remove(): record read, rename next
    | Checking(wanted: string, seen: set<Option<Instance>>)    // load(): before exists()
    | Waiting(wanted: string, seen: set<Option<Instance>>)     // load(): saw the record, wants the lock
    | Releasing(wanted: string, seen: set<Option<Instance>>)   // load(): record drained, lock still held
    | Reading(wanted: string, seen: set<Option<Instance>>)     // load(): before reading run.json
    | Loaded(wanted: string, seen: set<Option<Instance>>, result: ReadResult)

  datatype State = State(disk: Disk, lock: Option<Pid>, procs: map<Pid, Pc>)

  datatype Action =
    | Acquire            // enter `with store.locked()`
    | Release            // leave it
    | Die                // the process dies; the kernel drops its flock
    | Begin(goal: Goal)  // an operation under the lock looks for the pending record
    | Publish            // the next call of a publication, or its refusal
    | Unlink             // drop the record after the last call
    | Advance            // the next step of the operation itself
    | StartLoad(wanted: string)

  predicate NeedsLock(pc: Pc) {
    match pc
    case Holding => true
    case Publishing(_, _, _) => true
    case Drained(_) => true
    case Renaming(_) => true
    case Quarantining(_) => true
    case Releasing(_, _) => true
    case _ => false
  }

  function ReadRecord(d: Disk, id: string): ReadResult {
    if id in d.entries && d.entries[id].Holds? then
      match Committed(d, id)
      case Some(x) => Found(x)
      case None => Invalid
    else NotFound
  }

  /** A read finds exactly the committed record, of either intent; it is an error exactly
      over a record that is not committed, and misses exactly where there is none. */
  lemma ReadRecordIs(d: Disk, id: string)
    ensures forall x :: ReadRecord(d, id) == Found(x) <==> Committed(d, id) == Some(x)
    ensures ReadRecord(d, id).Invalid? <==> id in d.entries && d.entries[id].Holds? && Committed(d, id).None?
    ensures ReadRecord(d, id).NotFound? <==> !(id in d.entries && d.entries[id].Holds?)
  {
  }

  function Answered(r: ReadResult): Option<Instance>
    requires !r.Invalid?
  {
    if r.Found? then Some(r.instance) else None
  }

  // ---- bookkeeping ----

  function Goto(s: State, p: Pid, pc: Pc): State {
    s.(procs := s.procs[p := pc])
  }

  function Quit(s: State, p: Pid): State {
    s.(procs := s.procs - {p}, lock := if s.lock == Some(p) then None else s.lock)
  }

  /** A raise inside an operation: back to the enclosing `with`, or out of an
      unlocked load. */
  function Raise(s: State, p: Pid, next: Option<Goal>): State {
    if next.Some? && next.value.Answer? then Quit(s, p) else Goto(s, p, Holding)
  }

  function Look(pc: Pc, d: Disk): Pc {
    match pc
    case Publishing(docs, n, Some(Answer(id, seen))) =>
      Publishing(docs, n, Some(Answer(id, seen + {Lookup(d, id)})))
    case Checking(id, seen) => Checking(id, seen + {Lookup(d, id)})
    case Waiting(id, seen) => Waiting(id, seen + {Lookup(d, id)})
    case Releasing(id, seen) => Releasing(id, seen + {Lookup(d, id)})
    case Reading(id, seen) => Reading(id, seen + {Lookup(d, id)})
    case _ => pc
  }

  /** Every running load records the current value of its identifier. */
  function Observe(s: State): State {
    s.(procs := map p | p in s.procs :: Look(s.procs[p], s.disk))
  }

  // ---- the actions ----

  function Act(s: State, p: Pid, a: Action): State {
    match a
    case Acquire =>
      if s.lock.Some? then s
      else if p !in s.procs then Goto(s.(lock := Some(p)), p, Holding)
      else if s.procs[p].Waiting? then Recover(s.(lock := Some(p)), p, Answer(s.procs[p].wanted, s.procs[p].seen))
      else s
    case StartLoad(id) => if p in s.procs then s else Goto(s, p, Checking(id, {}))
    case Die => if p in s.procs then Quit(s, p) else s
    case Release => if p in s.procs && s.procs[p].Holding? then Quit(s, p) else s
    case Begin(goal) => if p in s.procs && s.procs[p].Holding? && !goal.Answer? then Recover(s, p, goal) else s
    case Publish => if p in s.procs && s.procs[p].Publishing? then PublishNext(s, p, s.procs[p]) else s
    case Unlink =>
      if p in s.procs && s.procs[p].Publishing? && s.procs[p].calls == Calls(s.procs[p].docs)
      then Continue(s.(disk := DropBatch(s.disk)), p, s.procs[p].next)
      else s
    case Advance => if p in s.procs then AdvanceFrom(s, p, s.procs[p]) else s
  }

  /** `_recover_pending_batch_locked`: nothing to do, a refusal, or a redo. */
  function Recover(s: State, p: Pid, goal: Goal): State {
    match s.disk.pending
    case None => Continue(s, p, Some(goal))
    case Some(batch) =>
      if ValidBatch(batch) then Goto(s, p, Publishing(batch.documents, 0, Some(goal)))
      else Raise(s, p, Some(goal))
  }

  function Continue(s: State, p: Pid, next: Option<Goal>): State {
    match next
    case None => Goto(s, p, Holding)
    case Some(Answer(id, seen)) => Goto(s, p, Releasing(id, seen))
    case Some(goal) => Goto(s, p, Drained(goal))
  }

  /** `_publish_instance_batch`, one call at a time. */
  function PublishNext(s: State, p: Pid, pc: Pc): State
    requires pc.Publishing?
  {
    if pc.calls >= Calls(pc.docs) then s
    else if pc.calls % 2 == 0 && !Writable(s.disk, pc.docs[pc.calls / 2].id) then Raise(s, p, pc.next)
    else Goto(s.(disk := PublishCall(s.disk, pc.docs, pc.calls)), p, pc.(calls := pc.calls + 1))
  }

  function AdvanceFrom(s: State, p: Pid, pc: Pc): State {
    match pc
    // save_many: refuse, or rename the pending record into place
    case Drained(SaveMany(docs)) =>
      if ValidCohort(docs) then Goto(s.(disk := PutBatch(s.disk, docs)), p, Publishing(docs, 0, None))
      else Goto(s, p, Holding)
    // save: refuse, or make the directory
    case Drained(SaveOne(x)) =>
      if ValidInstance(x) && Writable(s.disk, x.id)
      then Goto(s.(disk := MakeDirectory(s.disk, x.id)), p, Renaming(x))
      else Goto(s, p, Holding)
    case Renaming(x) => Goto(s.(disk := PutRecord(s.disk, x)), p, Holding)
    // remove: refuse anything but a stopped instance, then quarantine it
    case Drained(Remove(id)) =>
      if Committed(s.disk, id).Some? && Committed(s.disk, id).value.intent.Stopped?
      then Goto(s, p, Quarantining(id))
      else Goto(s, p, Holding)
    case Quarantining(id) => Goto(s.(disk := DropEntry(s.disk, id)), p, Holding)
    case Drained(Read) => Goto(s, p, Holding)
    // load without the lock
    case Checking(id, seen) =>
      if s.disk.pending.None? then Goto(s, p, Reading(id, seen)) else Goto(s, p, Waiting(id, seen))
    case Releasing(id, seen) => Goto(s.(lock := None), p, Reading(id, seen))
    case Reading(id, seen) => Goto(s, p, Loaded(id, seen, ReadRecord(s.disk, id)))
    case _ => s
  }

  function Step(s: State, p: Pid, a: Action): State {
    Observe(Act(s, p, a))
  }

  type Schedule = seq<(Pid, Action)>

  /** The state after the first `n` actions of a schedule. */
  function Run(s: State, schedule: Schedule, n: nat): State
    requires n <= |schedule|
  {
    if n == 0 then s else Step(Run(s, schedule, n - 1), schedule[n - 1].0, schedule[n - 1].1)
  }

  /** Any disk at all, with nobody working on it. */
  predicate Initial(s: State) {
    s.lock.None? && s.procs == map[]
  }

  // ---- the invariant ----

  ghost predicate Sound(d: Disk, pc: Pc) {
    match pc
    case Publishing(docs, n, next) =>
      && ValidCohort(docs) && n <= Calls(docs)
      && d.pending == Some(Instances(docs))
      && (forall i | 0 <= i < n / 2 :: Committed(d, docs[i].id) == Some(docs[i]))
      && (next.Some? && next.value.Answer? ==> Lookup(d, next.value.wanted) in next.value.seen)
    case Drained(goal) => d.pending.None? && !goal.Answer?
    case Renaming(x) => d.pending.None? && ValidInstance(x)
    case Quarantining(id) =>
      d.pending.None? && Committed(d, id).Some? && Committed(d, id).value.intent.Stopped?
    case Releasing(id, seen) => d.pending.None? && Lookup(d, id) in seen
    case Checking(id, seen) => Lookup(d, id) in seen
    case Waiting(id, seen) => Lookup(d, id) in seen
    case Reading(id, seen) => Lookup(d, id) in seen && Committed(d, id) in seen
    case Loaded(id, seen, result) => !result.Invalid? ==> Answered(result) in seen
    case Holding => true
  }

  /** At most one process is past the lock, and it is the recorded holder. */
  ghost predicate Exclusive(s: State) {
    && (s.lock.Some? ==> s.lock.value in s.procs && NeedsLock(s.procs[s.lock.value]))
    && (forall p | p in s.procs && NeedsLock(s.procs[p]) :: s.lock == Some(p))
  }

  ghost predicate Inv(s: State) {
    && Exclusive(s)
    && (forall p | p in s.procs :: Sound(s.disk, s.procs[p]))
  }

  // ---- the atomic map the store refines ----

  datatype Event = Nothing | Put(cohort: map<string, Instance>) | Delete(id: string)

  function Effect(inventory: map<string, Instance>, e: Event): map<string, Instance> {
    match e
    case Nothing => inventory
    case Put(cohort) => inventory + cohort
    case Delete(id) => inventory - {id}
  }

  function EventOf(pc: Pc): Event {
    match pc
    case Drained(SaveMany(docs)) => if ValidCohort(docs) then Put(Cohort(docs)) else Nothing
    case Renaming(x) => Put(map[x.id := x])
    case Quarantining(id) => Delete(id)
    case _ => Nothing
  }

  /** The atomic operation an action performs.  A cohort takes effect at the
      rename of its pending record and nowhere else. */
  function Linearizes(s: State, p: Pid, a: Action): Event {
    if a.Advance? && p in s.procs then EventOf(s.procs[p]) else Nothing
  }

  /** The disk a process leaves when it advances. */
  function Advanced(d: Disk, pc: Pc): Disk {
    match pc
    case Drained(SaveMany(docs)) => if ValidCohort(docs) then PutBatch(d, docs) else d
    case Drained(SaveOne(x)) => if ValidInstance(x) && Writable(d, x.id) then MakeDirectory(d, x.id) else d
    case Renaming(x) => PutRecord(d, x)
    case Quarantining(id) => DropEntry(d, id)
    case _ => d
  }

  /** A disk change is harmless to everyone else when each identifier keeps its
      committed record or takes the inventory's value. */
  ghost predicate Gentle(d: Disk, d': Disk) {
    forall id :: Committed(d', id) == Committed(d, id) || Committed(d', id) == Lookup(d', id)
  }

  lemma PublishRefines(d: Disk, docs: seq<Instance>, n: nat)
    requires d.pending == Some(Instances(docs)) && ValidCohort(docs) && n < Calls(docs)
    requires n % 2 == 0 ==> Writable(d, docs[n / 2].id)
    ensures var d' := PublishCall(d, docs, n);
            Inventory(d') == Inventory(d) && Gentle(d, d')
  {
    PublishCallKeepsInventory(d, docs, n);
    FindAt(docs, n / 2);
  }

  /** The documents already in place stay in place. */
  lemma PublishedSoFar(d: Disk, docs: seq<Instance>, n: nat)
    requires ValidCohort(docs) && n < Calls(docs)
    requires forall i | 0 <= i < n / 2 :: Committed(d, docs[i].id) == Some(docs[i])
    ensures forall i | 0 <= i < (n + 1) / 2 :: Committed(PublishCall(d, docs, n), docs[i].id) == Some(docs[i])
  {
  }

  lemma CallsAreGentle(d: Disk, docs: seq<Instance>, x: Instance, id: string)
    ensures Gentle(d, MakeDirectory(d, id)) && Gentle(d, DropBatch(d)) && Gentle(d, PutBatch(d, docs))
    ensures d.pending.None? ==> Gentle(d, PutRecord(d, x)) && Gentle(d, DropEntry(d, id))
  {
  }

  lemma PublishNextRefines(s: State, p: Pid, pc: Pc)
    requires pc.Publishing? && Sound(s.disk, pc)
    ensures var d' := PublishNext(s, p, pc).disk; Inventory(d') == Inventory(s.disk) && Gentle(s.disk, d')
  {
    if pc.calls < Calls(pc.docs) && (pc.calls % 2 == 0 ==> Writable(s.disk, pc.docs[pc.calls / 2].id)) {
      PublishRefines(s.disk, pc.docs, pc.calls);
    }
  }

  lemma UnlinkRefines(d: Disk, docs: seq<Instance>)
    requires Sound(d, Publishing(docs, Calls(docs), None))
    ensures Inventory(DropBatch(d)) == Inventory(d) && Gentle(d, DropBatch(d))
  {
    DropBatchKeepsInventory(d, docs);
    CallsAreGentle(d, docs, docs[0], "");
  }

  lemma RenameRefines(d: Disk, x: Instance)
    requires Sound(d, Renaming(x))
    ensures Inventory(PutRecord(d, x)) == Inventory(d) + map[x.id := x] && Gentle(d, PutRecord(d, x))
  {
    PutRecordPutsOne(d, x);
    CallsAreGentle(d, [], x, x.id);
  }

  lemma AdvanceRefines(d: Disk, pc: Pc)
    requires Sound(d, pc)
    ensures Inventory(Advanced(d, pc)) == Effect(Inventory(d), EventOf(pc)) && Gentle(d, Advanced(d, pc))
  {
    match pc {
      case Drained(SaveMany(docs)) =>
        if ValidCohort(docs) {
          PutBatchAppliesCohort(d, docs);
          CallsAreGentle(d, docs, docs[0], "");
        }
      case Drained(SaveOne(x)) =>
        MakeDirectoryKeepsInventory(d, x.id);
        CallsAreGentle(d, [], x, x.id);
      case Renaming(x) =>
        RenameRefines(d, x);
      case Quarantining(id) =>
        DropEntryDropsOne(d, id);
        CallsAreGentle(d, [], Committed(d, id).value, id);
      case _ =>
    }
  }

  lemma ActDisk(s: State, p: Pid, a: Action)
    requires p in s.procs
    ensures Act(s, p, a).disk ==
            if a.Publish? && s.procs[p].Publishing? then PublishNext(s, p, s.procs[p]).disk
            else if a.Unlink? && s.procs[p].Publishing? && s.procs[p].calls == Calls(s.procs[p].docs)
            then DropBatch(s.disk)
            else if a.Advance? then Advanced(s.disk, s.procs[p])
            else s.disk
  {
  }

  /** One move of the lock holder. */
  lemma HolderRefines(s: State, p: Pid, a: Action)
    requires p in s.procs && NeedsLock(s.procs[p]) && Sound(s.disk, s.procs[p])
    ensures Inventory(Act(s, p, a).disk) == Effect(Inventory(s.disk), Linearizes(s, p, a))
    ensures Gentle(s.disk, Act(s, p, a).disk)
  {
    var pc := s.procs[p];
    ActDisk(s, p, a);
    if a.Publish? && pc.Publishing? {
      PublishNextRefines(s, p, pc);
    } else if a.Unlink? && pc.Publishing? && pc.calls == Calls(pc.docs) {
      UnlinkRefines(s.disk, pc.docs);
    } else if a.Advance? {
      AdvanceRefines(s.disk, pc);
    }
  }

  lemma OutsiderHarmless(s: State, p: Pid, a: Action)
    requires p in s.procs ==> !NeedsLock(s.procs[p])
    ensures Act(s, p, a).disk == s.disk && Linearizes(s, p, a) == Nothing
  {
  }

  /** One action, whatever it is: only the lock holder changes the disk, and the
      inventory changes by exactly the event of that action. */
  lemma ActRefines(s: State, p: Pid, a: Action)
    requires Inv(s)
    ensures Inventory(Act(s, p, a).disk) == Effect(Inventory(s.disk), Linearizes(s, p, a))
    ensures Gentle(s.disk, Act(s, p, a).disk)
    ensures Act(s, p, a).disk != s.disk ==> s.lock == Some(p)
  {
    if p in s.procs && NeedsLock(s.procs[p]) {
      HolderRefines(s, p, a);
    } else {
      OutsiderHarmless(s, p, a);
    }
  }

  // ---- every interleaving ----

  /** A process that did not move still finds its invariant. */
  lemma BystanderSound(d: Disk, d': Disk, pc: Pc)
    requires Sound(d, pc)
    requires d == d' || (!NeedsLock(pc) && Gentle(d, d'))
    ensures Sound(d', Look(pc, d'))
  {
  }

  lemma RecoverSound(s: State, p: Pid, goal: Goal)
    requires goal.Answer? ==> Lookup(s.disk, goal.wanted) in goal.seen
    ensures var s' := Recover(s, p, goal);
            s'.disk == s.disk && (p in s'.procs ==> Sound(s.disk, s'.procs[p]))
  {
  }

  lemma PublishPcSound(d: Disk, docs: seq<Instance>, n: nat, next: Option<Goal>)
    requires Sound(d, Publishing(docs, n, next)) && n < Calls(docs)
    ensures Sound(PublishCall(d, docs, n), Look(Publishing(docs, n + 1, next), PublishCall(d, docs, n)))
  {
    PublishedSoFar(d, docs, n);
  }

  lemma PublishMoverSound(s: State, p: Pid)
    requires p in s.procs && s.procs[p].Publishing? && Sound(s.disk, s.procs[p])
    requires p in PublishNext(s, p, s.procs[p]).procs
    ensures var s' := PublishNext(s, p, s.procs[p]); Sound(s'.disk, Look(s'.procs[p], s'.disk))
  {
    var docs, n := s.procs[p].docs, s.procs[p].calls;
    if n < Calls(docs) && (n % 2 == 0 ==> Writable(s.disk, docs[n / 2].id)) {
      PublishPcSound(s.disk, docs, n, s.procs[p].next);
      assert PublishNext(s, p, s.procs[p]).procs[p] == Publishing(docs, n + 1, s.procs[p].next);
    }
  }

  lemma AdvanceMoverSound(s: State, p: Pid)
    requires p in s.procs && Sound(s.disk, s.procs[p])
    ensures var s' := AdvanceFrom(s, p, s.procs[p]);
            p in s'.procs && Sound(s'.disk, Look(s'.procs[p], s'.disk))
  {
  }

  lemma UnlinkMoverSound(s: State, p: Pid)
    requires p in s.procs && s.procs[p].Publishing? && Sound(s.disk, s.procs[p])
    requires s.procs[p].calls == Calls(s.procs[p].docs)
    ensures var s' := Continue(s.(disk := DropBatch(s.disk)), p, s.procs[p].next);
            p in s'.procs && Sound(s'.disk, Look(s'.procs[p], s'.disk))
  {
  }

  lemma MoverSound(s: State, p: Pid, a: Action)
    requires p in s.procs ==> Sound(s.disk, s.procs[p])
    requires p in Act(s, p, a).procs
    ensures Sound(Act(s, p, a).disk, Look(Act(s, p, a).procs[p], Act(s, p, a).disk))
  {
    match a {
      case Acquire =>
        if p in s.procs && s.lock.None? && s.procs[p].Waiting? {
          RecoverSound(s.(lock := Some(p)), p, Answer(s.procs[p].wanted, s.procs[p].seen));
        }
      case Begin(goal) =>
        if !goal.Answer? {
          RecoverSound(s, p, goal);
        }
      case Publish =>
        if p in s.procs && s.procs[p].Publishing? {
          PublishMoverSound(s, p);
        }
      case Unlink =>
        if p in s.procs && s.procs[p].Publishing? && s.procs[p].calls == Calls(s.procs[p].docs) {
          UnlinkMoverSound(s, p);
        }
      case Advance =>
        if p in s.procs {
          AdvanceMoverSound(s, p);
        }
      case _ =>
    }
  }

  lemma LockDiscipline(s: State, p: Pid, a: Action)
    requires Exclusive(s)
    ensures var s' := Act(s, p, a);
            s'.procs - {p} == s.procs - {p} &&
            s'.lock == (if p in s'.procs && NeedsLock(s'.procs[p]) then Some(p)
                        else if s.lock == Some(p) then None else s.lock) &&
            (s'.lock == Some(p) ==> s.lock.None? || s.lock == Some(p))
  {
    var s' := Act(s, p, a);
    match a {
      case Publish =>
        if p in s.procs && s.procs[p].Publishing? {
          assert s.lock == Some(p);
        }
      case Advance =>
        if p in s.procs {
          assert NeedsLock(s.procs[p]) ==> s.lock == Some(p);
        }
      case _ =>
    }
  }

  lemma ExclusiveKept(s: State, p: Pid, a: Action)
    requires Exclusive(s)
    ensures Exclusive(Act(s, p, a))
    ensures forall q | q != p :: q in s.procs <==> q in Act(s, p, a).procs
    ensures forall q | q != p && q in s.procs :: Act(s, p, a).procs[q] == s.procs[q]
  {
    LockDiscipline(s, p, a);
    var s' := Act(s, p, a);
    forall q | q != p
      ensures q in s.procs <==> q in s'.procs
      ensures q in s.procs ==> s'.procs[q] == s.procs[q]
    {
      assert q in s.procs <==> q in s.procs - {p};
      assert q in s'.procs <==> q in s'.procs - {p};
    }
  }

  lemma ObservedExclusive(s: State)
    requires Exclusive(s)
    ensures Exclusive(Observe(s))
  {
  }

  /** Every action of every process keeps the invariant, and its effect on the
      inventory is the atomic event it linearizes. */
  lemma StepRefines(s: State, p: Pid, a: Action)
    requires Inv(s)
    ensures Inv(Step(s, p, a))
    ensures Inventory(Step(s, p, a).disk) == Effect(Inventory(s.disk), Linearizes(s, p, a))
  {
    hide Act, Linearizes, Sound, Look, Effect;
    var s' := Act(s, p, a);
    ActRefines(s, p, a);
    ExclusiveKept(s, p, a);
    ObservedExclusive(s');
    forall q | q in s'.procs ensures Sound(s'.disk, Look(s'.procs[q], s'.disk)) {
      if q == p {
        MoverSound(s, p, a);
      } else {
        BystanderSound(s.disk, s'.disk, s.procs[q]);
      }
    }
  }

  /** From any disk, after any schedule. */
  lemma {:induction false} Reachable(s: State, schedule: Schedule, n: nat)
    requires Initial(s) && n <= |schedule|
    ensures Inv(Run(s, schedule, n))
  {
    if n > 0 {
      Reachable(s, schedule, n - 1);
      StepRefines(Run(s, schedule, n - 1), schedule[n - 1].0, schedule[n - 1].1);
    }
  }

  /** The inventory after `n` atomic operations. */
  function Replay(inventory: map<string, Instance>, events: seq<Event>): map<string, Instance> {
    if events == [] then inventory
    else Effect(Replay(inventory, events[..|events| - 1]), events[|events| - 1])
  }

  function EventAt(s: State, schedule: Schedule, k: nat): Event
    requires k < |schedule|
  {
    Linearizes(Run(s, schedule, k), schedule[k].0, schedule[k].1)
  }

  function Events(s: State, schedule: Schedule, n: nat): (events: seq<Event>)
    requires n <= |schedule|
    ensures |events| == n
  {
    if n == 0 then [] else Events(s, schedule, n - 1) + [EventAt(s, schedule, n - 1)]
  }

  /** Refinement over whole runs: whatever interleaving and whatever deaths, the
      inventory is that of a plain map on which each cohort, save and removal
      acted at once. */
  lemma {:induction false} RunRefinesMap(s: State, schedule: Schedule, n: nat)
    requires Initial(s) && n <= |schedule|
    ensures Inventory(Run(s, schedule, n).disk) == Replay(Inventory(s.disk), Events(s, schedule, n))
  {
    if n > 0 {
      var before, earlier := Run(s, schedule, n - 1), Events(s, schedule, n - 1);
      RunRefinesMap(s, schedule, n - 1);
      Reachable(s, schedule, n - 1);
      StepRefines(before, schedule[n - 1].0, schedule[n - 1].1);
      assert Events(s, schedule, n)[..n - 1] == earlier;
      assert Run(s, schedule, n) == Step(before, schedule[n - 1].0, schedule[n - 1].1);
    }
  }

  /** A removal is of a stopped instance, and happens with no batch pending, so
      no leftover record can bring the instance back. */
  lemma RemovalIsFinal(s: State, p: Pid, a: Action, id: string)
    requires Inv(s) && Linearizes(s, p, a) == Delete(id)
    ensures id in Inventory(s.disk) && Inventory(s.disk)[id].intent.Stopped?
    ensures id !in Inventory(Step(s, p, a).disk)
    ensures Step(s, p, a).disk.pending.None? && id !in Step(s, p, a).disk.entries
  {
    StepRefines(s, p, a);
    assert Lookup(s.disk, id) == Committed(s.disk, id);
  }

  predicate Puts(e: Event, id: string) {
    e.Put? && id in e.cohort
  }

  lemma AbsentStays(s: State, p: Pid, a: Action, id: string)
    requires Inv(s) && id !in Inventory(s.disk) && !Puts(Linearizes(s, p, a), id)
    ensures id !in Inventory(Step(s, p, a).disk)
  {
    StepRefines(s, p, a);
    EffectAbsent(Inventory(s.disk), Linearizes(s, p, a), id);
  }

  /** Action `k` of the schedule puts `id`. */
  predicate PutsAt(s: State, schedule: Schedule, k: nat, id: string) {
    k < |schedule| && Puts(EventAt(s, schedule, k), id)
  }

  predicate AbsentAt(s: State, schedule: Schedule, k: nat, id: string) {
    k <= |schedule| && id !in Inventory(Run(s, schedule, k).disk)
  }

  lemma AbsentNext(s: State, schedule: Schedule, k: nat, id: string)
    requires Initial(s) && k < |schedule| && AbsentAt(s, schedule, k, id) && !PutsAt(s, schedule, k, id)
    ensures AbsentAt(s, schedule, k + 1, id)
  {
    Reachable(s, schedule, k);
    AbsentStays(Run(s, schedule, k), schedule[k].0, schedule[k].1, id);
  }

  /** An absent instance stays absent until somebody puts it. */
  lemma {:induction false} NoResurrection(s: State, schedule: Schedule, i: nat, j: nat, id: string)
    requires Initial(s) && i <= j <= |schedule|
    requires AbsentAt(s, schedule, i, id) && forall k: nat | i <= k < j :: !PutsAt(s, schedule, k, id)
    ensures AbsentAt(s, schedule, j, id)
    decreases j
  {
    hide AbsentAt, PutsAt;
    if i < j {
      NoResurrection(s, schedule, i, j - 1, id);
      AbsentNext(s, schedule, j - 1, id);
    }
  }

  lemma EffectAbsent(inventory: map<string, Instance>, e: Event, id: string)
    requires id !in inventory
    ensures id in Effect(inventory, e) <==> Puts(e, id)
  {
  }

  // ---- what readers see ----

  /** `_list_report_locked` after the drain: the valid records, and the entries it
      reports as errors.  Empty directories are unpublished and skipped. */
  function Listed(d: Disk): map<string, Instance> {
    map id | id in d.entries && ValidId(id) && Committed(d, id).Some? :: Committed(d, id).value
  }

  function ListErrors(d: Disk): set<string> {
    set id | id in d.entries && (!ValidId(id) || (!d.entries[id].Empty? && Committed(d, id).None?))
  }

  /** On a drained disk the valid records are the inventory, and no error means that
      every entry is a record or empty. */
  lemma ListedIsInventory(d: Disk)
    requires d.pending.None?
    ensures Listed(d) == Inventory(d)
    ensures ListErrors(d) == {} <==>
            forall id | id in d.entries :: ValidId(id) && (d.entries[id].Empty? || id in Inventory(d))
  {
    assert forall id :: Lookup(d, id) == Committed(d, id);
    assert forall id | Committed(d, id).Some? :: ValidId(id);
    assert Listed(d).Keys == Inventory(d).Keys;
    if ListErrors(d) == {} {
      forall id | id in d.entries
        ensures ValidId(id) && (d.entries[id].Empty? || id in Inventory(d))
      {
        assert id !in ListErrors(d);
      }
    }
  }

  /** Between moments `i` and `j` process `p` is inside a listing, past the drain. */
  ghost predicate ListingThroughout(s: State, schedule: Schedule, i: nat, j: nat, p: Pid)
    requires j <= |schedule|
  {
    i <= j && forall k | i <= k <= j :: Local(Run(s, schedule, k), p) == Some(Drained(Read))
  }

  /** Nobody else changes the disk while a process lists under the lock, and neither
      does the listing. */
  lemma ListerUndisturbed(s: State, q: Pid, a: Action, p: Pid)
    requires Inv(s) && Local(s, p) == Some(Drained(Read))
    ensures Step(s, q, a).disk == s.disk
  {
    ActRefines(s, q, a);
    assert NeedsLock(s.procs[p]);
    if q == p {
      ActDisk(s, p, a);
    }
  }

  lemma UndisturbedNext(s: State, schedule: Schedule, k: nat, p: Pid)
    requires Initial(s) && k < |schedule| && Local(Run(s, schedule, k), p) == Some(Drained(Read))
    ensures Run(s, schedule, k + 1).disk == Run(s, schedule, k).disk
    ensures Run(s, schedule, k).disk.pending.None?
  {
    Reachable(s, schedule, k);
    assert Sound(Run(s, schedule, k).disk, Run(s, schedule, k).procs[p]);
    ListerUndisturbed(Run(s, schedule, k), schedule[k].0, schedule[k].1, p);
  }

  /** All moments of one listing see the same disk, whatever the other processes do
      in between. */
  lemma {:induction false} ListingSeesOneDisk(s: State, schedule: Schedule, i: nat, j: nat, p: Pid)
    requires Initial(s) && j <= |schedule| && ListingThroughout(s, schedule, i, j, p)
    ensures Run(s, schedule, j).disk == Run(s, schedule, i).disk
    decreases j
  {
    hide Run, Local;
    if i < j {
      assert Local(Run(s, schedule, j - 1), p) == Some(Drained(Read));
      ListingSeesOneDisk(s, schedule, i, j - 1, p);
      UndisturbedNext(s, schedule, j - 1, p);
    }
  }

  lemma ListingIsDrained(s: State, schedule: Schedule, k: nat, p: Pid)
    requires Initial(s) && k <= |schedule| && Local(Run(s, schedule, k), p) == Some(Drained(Read))
    ensures Run(s, schedule, k).disk.pending.None?
  {
    Reachable(s, schedule, k);
    assert Sound(Run(s, schedule, k).disk, Run(s, schedule, k).procs[p]);
  }

  /** The loop of `_list_report_locked`: the names are read at moment `i`, and each
      entry at a moment of its own, with any actions of other processes before,
      between and after.  The result is the inventory of every single moment of the
      listing, hence all of each cohort or none of it, and the errors are exactly the
      entries that are neither records nor empty. */
  method ListingIsAtomic(s: State, schedule: Schedule, i: nat, j: nat, p: Pid, names: seq<string>, moments: seq<nat>)
    returns (result: map<string, Instance>, errors: set<string>)
    requires Initial(s) && j <= |schedule| && ListingThroughout(s, schedule, i, j, p)
    requires forall id :: id in names <==> id in Run(s, schedule, i).disk.entries
    requires |moments| == |names| && forall n | 0 <= n < |moments| :: i <= moments[n] <= j
    ensures forall k | i <= k <= j ::
              && result == Inventory(Run(s, schedule, k).disk)
              && result == Replay(Inventory(s.disk), Events(s, schedule, k))
              && errors == ListErrors(Run(s, schedule, k).disk)
    ensures forall id :: id in errors <==>
              && id in Run(s, schedule, i).disk.entries && id !in result
              && (ValidId(id) ==> !Run(s, schedule, i).disk.entries[id].Empty?)
  {
    hide Run, Local, Events, Replay;
    result, errors := map[], {};
    ghost var d := Run(s, schedule, i).disk;
    for n := 0 to |names|
      invariant forall id :: id in result <==> id in names[..n] && ValidId(id) && Committed(d, id).Some?
      invariant forall id | id in result :: Committed(d, id) == Some(result[id])
      invariant forall id :: id in errors <==> id in names[..n] && id in ListErrors(d)
    {
      var id := names[n];
      ListingSeesOneDisk(s, schedule, i, moments[n], p);
      var now := Run(s, schedule, moments[n]).disk;
      if !ValidId(id) {
        errors := errors + {id};
      } else if Committed(now, id).Some? {
        result := result[id := Committed(now, id).value];
      } else if !now.entries[id].Empty? {
        errors := errors + {id};
      }
      assert names[..n + 1] == names[..n] + [id];
    }
    assert names[..|names|] == names;
    ListingIsDrained(s, schedule, i, p);
    ListedIsInventory(d);
    assert result == Listed(d) && errors == ListErrors(d);
    forall k | i <= k <= j
      ensures Run(s, schedule, k).disk == d && Inventory(d) == Replay(Inventory(s.disk), Events(s, schedule, k))
    {
      ListingSeesOneDisk(s, schedule, i, k, p);
      RunRefinesMap(s, schedule, k);
    }
  }

  function Local(s: State, p: Pid): Option<Pc> {
    if p in s.procs then Some(s.procs[p]) else None
  }

  /** The identifier and history of a load in progress. */
  function Load(pc: Pc): Option<(string, set<Option<Instance>>)> {
    match pc
    case Publishing(_, _, Some(Answer(id, seen))) => Some((id, seen))
    case Checking(id, seen) => Some((id, seen))
    case Waiting(id, seen) => Some((id, seen))
    case Releasing(id, seen) => Some((id, seen))
    case Reading(id, seen) => Some((id, seen))
    case Loaded(id, seen, _) => Some((id, seen))
    case _ => None
  }

  predicate Loading(s: State, p: Pid, id: string) {
    p in s.procs && Load(s.procs[p]).Some? && Load(s.procs[p]).value.0 == id
  }

  function Seen(s: State, p: Pid): set<Option<Instance>> {
    if p in s.procs && Load(s.procs[p]).Some? then Load(s.procs[p]).value.1 else {}
  }

  /** One step of anyone adds at most the current value to a load's history. */
  lemma SeenGrows(s: State, q: Pid, a: Action, p: Pid, id: string)
    requires Exclusive(s)
    requires Loading(s, p, id) && Loading(Step(s, q, a), p, id)
    ensures Seen(Step(s, q, a), p) <= Seen(s, p) + {Lookup(Step(s, q, a).disk, id)}
  {
    hide Act, Exclusive, Lookup, NeedsLock;
    var s' := Act(s, q, a);
    if q != p {
      ExclusiveKept(s, q, a);
    } else {
      OwnHistory(s, p, a);
    }
    assert Step(s, q, a).procs[p] == Look(s'.procs[p], s'.disk);
  }

  lemma OwnHistory(s: State, p: Pid, a: Action)
    requires p in s.procs && Load(s.procs[p]).Some?
    ensures p in Act(s, p, a).procs ==>
              Load(Act(s, p, a).procs[p]).Some? ==> Load(Act(s, p, a).procs[p]) == Load(s.procs[p])
  {
  }

  ghost predicate LoadingThroughout(s: State, schedule: Schedule, i: nat, j: nat, p: Pid, id: string)
    requires j <= |schedule|
  {
    && i <= j
    && (forall k | i <= k <= j :: Loading(Run(s, schedule, k), p, id))
    && Local(Run(s, schedule, i), p) == Some(Checking(id, {Lookup(Run(s, schedule, i).disk, id)}))
  }

  lemma SeenAtStart(s: State, p: Pid, id: string)
    ensures Local(s, p) == Some(Checking(id, {Lookup(s.disk, id)})) ==> Seen(s, p) == {Lookup(s.disk, id)}
  {
  }

  lemma {:induction false} SeenIsHistory(s: State, schedule: Schedule, i: nat, j: nat, p: Pid, id: string,
                                         v: Option<Instance>)
    requires Initial(s) && j <= |schedule| && LoadingThroughout(s, schedule, i, j, p, id)
    requires v in Seen(Run(s, schedule, j), p)
    ensures exists k | i <= k <= j :: Lookup(Run(s, schedule, k).disk, id) == v
  {
    hide Inv, Sound, Lookup, Loading, Seen, Act, Look;
    if i == j || v == Lookup(Run(s, schedule, j).disk, id) {
      SeenAtStart(Run(s, schedule, i), p, id);
      assert Lookup(Run(s, schedule, j).disk, id) == v;
    } else {
      var before := Run(s, schedule, j - 1);
      Reachable(s, schedule, j - 1);
      assert Loading(before, p, id) && Loading(Run(s, schedule, j), p, id);
      SeenGrows(before, schedule[j - 1].0, schedule[j - 1].1, p, id);
      SeenIsHistory(s, schedule, i, j - 1, p, id, v);
    }
  }

  /** A load gets its result in one step, from the disk of that moment, and keeps it. */
  lemma LoadStep(s: State, q: Pid, a: Action, p: Pid, id: string, result: ReadResult)
    requires Exclusive(s) && Loading(s, p, id) && Loading(Step(s, q, a), p, id)
    requires Step(s, q, a).procs[p].Loaded? && Step(s, q, a).procs[p].result == result
    ensures (s.procs[p].Loaded? && s.procs[p].result == result) ||
            (s.procs[p].Reading? && result == ReadRecord(s.disk, id))
  {
    var s' := Act(s, q, a);
    if q != p {
      hide Act;
      ExclusiveKept(s, q, a);
    }
    assert Step(s, q, a).procs[p] == Look(s'.procs[p], s'.disk);
  }

  /** A load that has its result at moment `j` read it at one moment of the call. */
  lemma {:induction false} LoadReadOnce(s: State, schedule: Schedule, i: nat, j: nat, p: Pid, id: string,
                                        result: ReadResult)
    returns (k: nat)
    requires Initial(s) && j <= |schedule| && LoadingThroughout(s, schedule, i, j, p, id)
    requires Local(Run(s, schedule, j), p).Some? && Local(Run(s, schedule, j), p).value.Loaded?
    requires Local(Run(s, schedule, j), p).value.result == result
    ensures i <= k < j && result == ReadRecord(Run(s, schedule, k).disk, id)
  {
    hide Inv, Sound, Act, Observe, Lookup, Committed, ReadRecord;
    var before := Run(s, schedule, j - 1);
    Reachable(s, schedule, j - 1);
    InvIsExclusive(before);
    assert Loading(before, p, id) && Loading(Run(s, schedule, j), p, id);
    LoadStep(before, schedule[j - 1].0, schedule[j - 1].1, p, id, result);
    if before.procs[p].Loaded? && before.procs[p].result == result {
      k := LoadReadOnce(s, schedule, i, j - 1, p, id, result);
    } else {
      k := j - 1;
    }
  }

  lemma InvIsExclusive(s: State)
    requires Inv(s)
    ensures Exclusive(s)
  {
  }

  /** An unlocked load that ends between moments `i` and `j`, no matter who saved,
      removed, recovered or died meanwhile.  If it answers, its answer was the
      inventory's value for the identifier at some moment in between; if it fails, at
      some moment in between the disk held a record under the identifier that was not
      committed.  What it found, it found committed. */
  lemma LoadIsLinearizable(s: State, schedule: Schedule, i: nat, j: nat, p: Pid, id: string, result: ReadResult)
    requires Initial(s) && j <= |schedule| && LoadingThroughout(s, schedule, i, j, p, id)
    requires Local(Run(s, schedule, j), p) == Some(Loaded(id, Seen(Run(s, schedule, j), p), result))
    ensures result.Found? ==> exists k | i <= k <= j :: Lookup(Run(s, schedule, k).disk, id) == Some(result.instance)
    ensures result.NotFound? ==> exists k | i <= k <= j :: Lookup(Run(s, schedule, k).disk, id).None?
    ensures exists k | i <= k <= j ::
              var d := Run(s, schedule, k).disk;
              && (forall x :: result == Found(x) <==> Committed(d, id) == Some(x))
              && (result.Invalid? <==> id in d.entries && d.entries[id].Holds? && Committed(d, id).None?)
              && (result.NotFound? <==> !(id in d.entries && d.entries[id].Holds?))
  {
    if !result.Invalid? {
      Reachable(s, schedule, j);
      assert Sound(Run(s, schedule, j).disk, Run(s, schedule, j).procs[p]);
      hide Inv, Sound, Act, Observe, Lookup, Seen;
      SeenIsHistory(s, schedule, i, j, p, id, Answered(result));
    }
    hide *;
    var k := LoadReadOnce(s, schedule, i, j, p, id, result);
    ReadRecordIs(Run(s, schedule, k).disk, id);
  }
}
