/** What an operation of the shared store does when nobody interferes: every goal runs
    to its end in the expected number of steps, and leaves the disk that the lock
    holder's code leaves. */
module StoreAlone {
  import opened Outcomes
  import opened InstanceDisk
  import opened StoreProtocol

  /** One process, holding the lock. */
  function Solo(d: Disk, p: Pid, pc: Pc): State { State(d, Some(p), map[p := pc]) }

  function End(s: State, schedule: Schedule): State { Run(s, schedule, |schedule|) }

  function Times(p: Pid, a: Action, n: nat): Schedule { seq(n, _ => (p, a)) }

  lemma {:induction false} RunAppend(s: State, a: Schedule, b: Schedule, m: nat)
    requires m <= |b|
    ensures Run(s, a + b, |a| + m) == Run(End(s, a), b, m)
    decreases m
  {
    hide Step;
    if m == 0 {
      RunPrefix(s, a, b, |a|);
    } else {
      RunAppend(s, a, b, m - 1);
      assert (a + b)[|a| + m - 1] == b[m - 1];
    }
  }

  lemma {:induction false} RunPrefix(s: State, a: Schedule, b: Schedule, m: nat)
    requires m <= |a|
    ensures Run(s, a + b, m) == Run(s, a, m)
    decreases m
  {
    hide Step;
    if m > 0 {
      RunPrefix(s, a, b, m - 1);
    }
  }

  lemma EndAppend(s: State, a: Schedule, b: Schedule)
    ensures End(s, a + b) == End(End(s, a), b)
  {
    hide Run;
    RunAppend(s, a, b, |b|);
  }

  lemma EndOne(s: State, p: Pid, a: Action)
    ensures End(s, [(p, a)]) == Step(s, p, a)
  {
    hide Step;
    assert Run(s, [(p, a)], 0) == s;
  }

  /** A step of a process alone, when its new place records nothing. */
  lemma SoloStep(s: State, p: Pid, a: Action, d: Disk, pc: Pc)
    requires Act(s, p, a) == Solo(d, p, pc) && Look(pc, d) == pc
    ensures Step(s, p, a) == Solo(d, p, pc)
  {
    hide Act;
  }

  predicate Locked(next: Option<Goal>) { next.Some? ==> !next.value.Answer? }

  lemma PublishOne(d: Disk, docs: seq<Instance>, p: Pid, next: Option<Goal>, m: nat)
    requires m < Calls(docs) && ValidCohort(docs) && Publishable(d, docs) && Locked(next)
    ensures Step(Solo(After(d, docs, m), p, Publishing(docs, m, next)), p, Publish)
         == Solo(After(d, docs, m + 1), p, Publishing(docs, m + 1, next))
  {
    var s := Solo(After(d, docs, m), p, Publishing(docs, m, next));
    AfterNext(d, docs, m);
    WritableLater(d, docs, m, m / 2);
    hide After, PublishCall, Writable, Publishable, ValidCohort;
    assert PublishNext(s, p, s.procs[p]) == Solo(After(d, docs, m + 1), p, Publishing(docs, m + 1, next));
    SoloStep(s, p, Publish, After(d, docs, m + 1), Publishing(docs, m + 1, next));
  }

  lemma {:induction false} PublishAlone(d: Disk, docs: seq<Instance>, p: Pid, next: Option<Goal>, m: nat)
    requires m <= Calls(docs) && ValidCohort(docs) && Publishable(d, docs) && Locked(next)
    ensures End(Solo(d, p, Publishing(docs, 0, next)), Times(p, Publish, m))
         == Solo(After(d, docs, m), p, Publishing(docs, m, next))
    decreases m
  {
    var s := Solo(d, p, Publishing(docs, 0, next));
    if m == 0 {
      assert Times(p, Publish, 0) == [];
    } else {
      hide Step, Run, ValidCohort, Publishable, After;
      PublishAlone(d, docs, p, next, m - 1);
      assert Times(p, Publish, m) == Times(p, Publish, m - 1) + [(p, Publish)];
      EndAppend(s, Times(p, Publish, m - 1), [(p, Publish)]);
      EndOne(End(s, Times(p, Publish, m - 1)), p, Publish);
      PublishOne(d, docs, p, next, m - 1);
    }
  }

  /** A publication and the unlink of its record. */
  function Publication(p: Pid, docs: seq<Instance>): Schedule {
    Times(p, Publish, Calls(docs)) + [(p, Unlink)]
  }

  function Next(next: Option<Goal>): Pc { if next.Some? then Drained(next.value) else Holding }

  lemma PublicationAlone(d: Disk, docs: seq<Instance>, p: Pid, next: Option<Goal>)
    requires ValidCohort(docs) && Publishable(d, docs) && Locked(next)
    ensures End(Solo(d, p, Publishing(docs, 0, next)), Publication(p, docs))
         == Solo(DropBatch(After(d, docs, Calls(docs))), p, Next(next))
  {
    hide Run, ValidCohort, Publishable, After, Step, Times, End;
    var s, done := Solo(d, p, Publishing(docs, 0, next)), After(d, docs, Calls(docs));
    PublishAlone(d, docs, p, next, Calls(docs));
    EndAppend(s, Times(p, Publish, Calls(docs)), [(p, Unlink)]);
    var s1 := Solo(done, p, Publishing(docs, Calls(docs), next));
    EndOne(s1, p, Unlink);
    UnlinkAlone(done, docs, p, next);
  }

  lemma UnlinkAlone(d: Disk, docs: seq<Instance>, p: Pid, next: Option<Goal>)
    requires Locked(next)
    ensures Step(Solo(d, p, Publishing(docs, Calls(docs), next)), p, Unlink) == Solo(DropBatch(d), p, Next(next))
  {
    var s := Solo(d, p, Publishing(docs, Calls(docs), next));
    assert Act(s, p, Unlink) == Solo(DropBatch(d), p, Next(next));
    SoloStep(s, p, Unlink, DropBatch(d), Next(next));
  }

  /** The steps of a drain. */
  function Drain(d: Disk, p: Pid, goal: Goal): Schedule {
    [(p, Begin(goal))]
    + (if d.pending.Some? && ValidBatch(d.pending.value) then Publication(p, d.pending.value.documents) else [])
  }

  /** A drain that is not disturbed finishes, and leaves the recovered disk. */
  lemma DrainAlone(d: Disk, p: Pid, goal: Goal)
    requires Recoverable(d) && !goal.Answer?
    ensures End(Solo(d, p, Holding), Drain(d, p, goal)) == Solo(Recovered(d), p, Drained(goal))
  {
    hide Run, ValidCohort, Publishable, After;
    var s := Solo(d, p, Holding);
    EndOne(s, p, Begin(goal));
    if d.pending.None? {
      assert Act(s, p, Begin(goal)) == Solo(d, p, Drained(goal));
      SoloStep(s, p, Begin(goal), d, Drained(goal));
      assert Drain(d, p, goal) == [(p, Begin(goal))];
    } else {
      var docs := d.pending.value.documents;
      assert Act(s, p, Begin(goal)) == Solo(d, p, Publishing(docs, 0, Some(goal)));
      SoloStep(s, p, Begin(goal), d, Publishing(docs, 0, Some(goal)));
      EndAppend(s, [(p, Begin(goal))], Publication(p, docs));
      PublicationAlone(d, docs, p, Some(goal));
    }
  }

  /** What follows the drain. */
  function Rest(p: Pid, goal: Goal): Schedule {
    match goal
    case SaveMany(docs) => [(p, Advance)] + Publication(p, docs)
    case SaveOne(_) => [(p, Advance)] + [(p, Advance)]
    case Remove(_) => [(p, Advance)] + [(p, Advance)]
    case _ => [(p, Advance)]
  }

  /** The operation can be done on a drained disk. */
  predicate Possible(d: Disk, goal: Goal) {
    match goal
    case SaveMany(docs) => ValidCohort(docs) && Publishable(d, docs)
    case SaveOne(x) => ValidInstance(x) && Writable(d, x.id)
    case Remove(id) => Committed(d, id).Some? && Committed(d, id).value.intent.Stopped?
    case Read => true
    case Answer(_, _) => false
  }

  lemma TwoAdvances(d: Disk, p: Pid, pc: Pc, middle: Disk, between: Pc, done: Disk)
    requires Act(Solo(d, p, pc), p, Advance) == Solo(middle, p, between) && Look(between, middle) == between
    requires Act(Solo(middle, p, between), p, Advance) == Solo(done, p, Holding)
    ensures End(Solo(d, p, pc), [(p, Advance)] + [(p, Advance)]) == Solo(done, p, Holding)
  {
    hide Act, Run, Step;
    SoloStep(Solo(d, p, pc), p, Advance, middle, between);
    SoloStep(Solo(middle, p, between), p, Advance, done, Holding);
    EndOne(Solo(d, p, pc), p, Advance);
    EndOne(Solo(middle, p, between), p, Advance);
    EndAppend(Solo(d, p, pc), [(p, Advance)], [(p, Advance)]);
  }

  lemma SaveManyRest(d: Disk, p: Pid, docs: seq<Instance>)
    requires d.pending.None? && ValidCohort(docs) && Publishable(d, docs)
    ensures End(Solo(d, p, Drained(SaveMany(docs))), Rest(p, SaveMany(docs)))
         == Solo(DropBatch(After(PutBatch(d, docs), docs, Calls(docs))), p, Holding)
  {
    var s := Solo(d, p, Drained(SaveMany(docs)));
    assert Act(s, p, Advance) == Solo(PutBatch(d, docs), p, Publishing(docs, 0, None));
    assert Publishable(PutBatch(d, docs), docs) by {
      forall k | 0 <= k < |docs| ensures Writable(PutBatch(d, docs), docs[k].id) {
        assert Writable(d, docs[k].id) && Committed(PutBatch(d, docs), docs[k].id) == Committed(d, docs[k].id);
      }
    }
    hide Run, ValidCohort, Publishable, After, Act;
    SoloStep(s, p, Advance, PutBatch(d, docs), Publishing(docs, 0, None));
    EndOne(s, p, Advance);
    EndAppend(s, [(p, Advance)], Publication(p, docs));
    PublicationAlone(PutBatch(d, docs), docs, p, None);
  }

  /** Every operation that is possible, run alone from any disk that recovery can
      finish, finishes and leaves exactly this. */
  lemma OperationAlone(d: Disk, p: Pid, goal: Goal)
    requires Recoverable(d) && Possible(Recovered(d), goal)
    ensures var s, drained := End(Solo(d, p, Holding), Drain(d, p, goal) + Rest(p, goal)), Recovered(d);
            && s.procs == map[p := Holding] && s.lock == Some(p) && s.disk.pending.None?
            && match goal {
                 case SaveMany(docs) =>
                   Inventory(s.disk) == Inventory(drained) + Cohort(docs)
                   && forall id | Find(docs, id).Some? :: Committed(s.disk, id) == Find(docs, id)
                 case SaveOne(x) =>
                   Inventory(s.disk) == Inventory(drained)[x.id := x] && Committed(s.disk, x.id) == Some(x)
                 case Remove(id) => Inventory(s.disk) == Inventory(drained) - {id} && id !in s.disk.entries
                 case _ => s.disk == drained
               }
  {
    var drained := Recovered(d);
    DrainAlone(d, p, goal);
    EndAppend(Solo(d, p, Holding), Drain(d, p, goal), Rest(p, goal));
    match goal {
      case SaveMany(docs) =>
        SaveManyRest(drained, p, docs);
        SaveManyLeaves(drained, docs);
      case SaveOne(x) =>
        SaveOneRest(drained, p, x);
      case Remove(id) =>
        RemoveRest(drained, p, id);
      case _ =>
        EndOne(Solo(drained, p, Drained(goal)), p, Advance);
        SoloStep(Solo(drained, p, Drained(goal)), p, Advance, drained, Holding);
    }
  }

  lemma SaveManyLeaves(d: Disk, docs: seq<Instance>)
    requires d.pending.None? && ValidCohort(docs)
    ensures var done := DropBatch(After(PutBatch(d, docs), docs, Calls(docs)));
            && done.pending.None? && Inventory(done) == Inventory(d) + Cohort(docs)
            && forall id | Find(docs, id).Some? :: Committed(done, id) == Find(docs, id)
  {
    var put := PutBatch(d, docs);
    var written := After(put, docs, Calls(docs));
    PutBatchAppliesCohort(d, docs);
    AfterKeepsBatch(put, docs, Calls(docs));
    assert docs[..Calls(docs) / 2] == docs;
    forall id ensures Committed(written, id) == if Find(docs, id).Some? then Find(docs, id) else Committed(put, id) {
      AfterCommitted(put, docs, Calls(docs), id);
    }
    forall id ensures Lookup(written, id) == Lookup(put, id) {
    }
    SameLookup(put, written);
    forall i | 0 <= i < |docs| ensures Committed(written, docs[i].id) == Some(docs[i]) {
      FindAt(docs, i);
    }
    DropBatchKeepsInventory(written, docs);
    forall id | Find(docs, id).Some? ensures Committed(DropBatch(written), id) == Find(docs, id) {
      assert Committed(DropBatch(written), id) == Committed(written, id);
    }
  }

  lemma SaveOneRest(d: Disk, p: Pid, x: Instance)
    requires d.pending.None? && ValidInstance(x) && Writable(d, x.id)
    ensures var s := End(Solo(d, p, Drained(SaveOne(x))), Rest(p, SaveOne(x)));
            && s.procs == map[p := Holding] && s.lock == Some(p) && s.disk.pending.None?
            && Inventory(s.disk) == Inventory(d)[x.id := x] && Committed(s.disk, x.id) == Some(x)
  {
    hide Inventory, Lookup, End;
    var made := MakeDirectory(d, x.id);
    MakeDirectoryKeepsInventory(d, x.id);
    PutRecordPutsOne(made, x);
    SaveOneSteps(d, p, x);
  }

  lemma SaveOneSteps(d: Disk, p: Pid, x: Instance)
    requires d.pending.None? && ValidInstance(x) && Writable(d, x.id)
    ensures End(Solo(d, p, Drained(SaveOne(x))), Rest(p, SaveOne(x)))
         == Solo(PutRecord(MakeDirectory(d, x.id), x), p, Holding)
  {
    hide ValidInstance, Writable, End;
    var made := MakeDirectory(d, x.id);
    TwoAdvances(d, p, Drained(SaveOne(x)), made, Renaming(x), PutRecord(made, x));
  }

  lemma RemoveRest(d: Disk, p: Pid, id: string)
    requires d.pending.None? && Committed(d, id).Some? && Committed(d, id).value.intent.Stopped?
    ensures var s := End(Solo(d, p, Drained(Remove(id))), Rest(p, Remove(id)));
            && s.procs == map[p := Holding] && s.lock == Some(p) && s.disk.pending.None?
            && Inventory(s.disk) == Inventory(d) - {id} && id !in s.disk.entries
  {
    DropEntryDropsOne(d, id);
    TwoAdvances(d, p, Drained(Remove(id)), d, Quarantining(id), DropEntry(d, id));
  }

  /** An unlocked load that nobody disturbs, with no batch pending, answers in three
      steps with the inventory's value, and fails only over an uncommitted record. */
  lemma LoadAlone(d: Disk, p: Pid, id: string)
    requires d.pending.None?
    ensures var s := End(State(d, None, map[]), [(p, StartLoad(id)), (p, Advance), (p, Advance)]);
            && s.disk == d && p in s.procs && s.procs[p].Loaded?
            && (forall x :: s.procs[p].result == Found(x) <==> Lookup(d, id) == Some(x))
            && (s.procs[p].result.Invalid? <==> id in d.entries && d.entries[id].Holds? && Committed(d, id).None?)
  {
    var schedule := [(p, StartLoad(id)), (p, Advance), (p, Advance)];
    var s0 := State(d, None, map[]);
    var s1 := Step(s0, p, StartLoad(id));
    var s2 := Step(s1, p, Advance);
    var s3 := Step(s2, p, Advance);
    ReadRecordIs(d, id);
    assert s1.disk == d && p in s1.procs && s1.procs[p].Checking? && s1.procs[p].wanted == id;
    assert s2.disk == d && p in s2.procs && s2.procs[p].Reading? && s2.procs[p].wanted == id;
    assert s3.disk == d && p in s3.procs && s3.procs[p].Loaded? && s3.procs[p].result == ReadRecord(d, id);
    hide Step;
    assert Run(s0, schedule, 1) == s1;
    assert Run(s0, schedule, 2) == s2;
    assert Run(s0, schedule, 3) == s3;
  }
}
