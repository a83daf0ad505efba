/** The realm commands: in which order they save intent, apply the compiled
    system through DComp, and remove records, each of them wholly under the
    control lock.

    `store` is the inventory, changed by one atomic event at a time (module
    StoreProtocol).  `maybe` holds, by the record it was compiled from, every team
    component that DComp may be running or that an operation it still has pending
    may start.  Any store operation, `up` or `down` can raise or be cut short by
    the death of the process: its `Fate`. */
module RealmLifecycle {
  import opened InstanceDisk
  import opened StoreProtocol

  /** `Fails(true, ...)` is an operation cut short after it took effect in the
      store; `left` picks what a cut-short `up` or `down` leaves of the components
      it could leave. */
  datatype Fate = Works | Fails(applied: bool, left: set<Instance>)

  datatype Command =
    | Run(bindings: map<string, Instance>)
    | Refresh(rebuilt: map<string, Instance>)
    | Start(target: string, stamped: Instance)
    | Stop(targets: set<string>, restamped: map<string, Instance>)
    | Forget(forgotten: string)
    | Repair      // also models, `providers restart`, `gateway build`
    | Gateway     // gateway administration on a realm with nothing applied
    | Shutdown    // also `gateway destroy-store`

  function Desired(store: map<string, Instance>): set<Instance> {
    set id | id in store && store[id].intent.Running? :: store[id]
  }

  predicate Keyed(m: map<string, Instance>) {
    forall id | id in m :: m[id].id == id
  }

  /** The cohorts the commands compute from their inputs and the store. */
  predicate WellMade(c: Command) {
    match c
    case Run(bindings) => Keyed(bindings) && forall id | id in bindings :: bindings[id].intent.Running?
    case Refresh(rebuilt) => Keyed(rebuilt) && forall id | id in rebuilt :: rebuilt[id].intent.Running?
    case Start(id, x) => x.id == id && x.intent.Running?
    case Stop(_, restamped) => Keyed(restamped) && forall id | id in restamped :: restamped[id].intent.Stopped?
    case _ => true
  }

  /** Every component DComp may run, or may yet start, belongs to an instance the
      store still has. */
  predicate Owned(store: map<string, Instance>, maybe: set<Instance>) {
    forall x | x in maybe :: x.id in store
  }

  /** The desired records are the stored ones whose intent is running. */
  lemma DesiredIs(store: map<string, Instance>, x: Instance)
    requires Keyed(store)
    ensures x in Desired(store) <==> x.id in store && store[x.id] == x && x.intent.Running?
  {
    if x in Desired(store) {
      var id :| id in store && store[id].intent.Running? && store[id] == x;
      assert id == x.id;
    }
  }

  lemma StoppedIsNotDesired(store: map<string, Instance>, id: string)
    requires id in store && store[id].intent.Stopped?
    ensures Desired(store - {id}) == Desired(store)
  {
    var less := store - {id};
    forall x | x in Desired(store) ensures x in Desired(less) {
      var k :| k in store && store[k].intent.Running? && store[k] == x;
      assert k in less && less[k] == x;
    }
  }

  class Realm {
    var store: map<string, Instance>
    var maybe: set<Instance>

    predicate Safe()
      reads this
    {
      Keyed(store) && Owned(store, maybe)
    }

    /** DComp runs exactly the instances whose stored intent is running, at their
        stored versions. */
    predicate Converged()
      reads this
    {
      maybe == Desired(store)
    }

    constructor ()
      ensures store == map[] && maybe == {}
    {
      store, maybe := map[], {};
    }

    /** One atomic store event, or a failure before or after it. */
    method Save(e: Event, fate: Fate) returns (ok: bool)
      modifies this`store
      ensures ok <==> fate.Works?
      ensures store == if ok || fate.applied then Effect(old(store), e) else old(store)
    {
      if fate.Works? || fate.applied {
        store := Effect(store, e);
      }
      ok := fate.Works?;
    }

    /** `runtime.apply`: on success DComp runs the target; cut short, any part of
        the old and the new components may be there or be pending. */
    method Apply(target: set<Instance>, fate: Fate) returns (ok: bool)
      modifies this`maybe
      ensures ok <==> fate.Works?
      ensures maybe == if ok then target else (old(maybe) + target) * fate.left
    {
      maybe := if fate.Works? then target else (maybe + target) * fate.left;
      ok := fate.Works?;
    }

    method Down(fate: Fate) returns (ok: bool)
      modifies this`maybe
      ensures ok <==> fate.Works?
      ensures maybe == if ok then {} else old(maybe) * fate.left
    {
      maybe := if fate.Works? then {} else maybe * fate.left;
      ok := fate.Works?;
    }

    /** Nothing is stored before DComp has applied the system as it was. */
    method CmdRun(bindings: map<string, Instance>, fates: (Fate, Fate, Fate)) returns (ok: bool)
      requires Safe() && WellMade(Run(bindings))
      modifies this
      ensures Safe()
      ensures ok <==> bindings.Keys * old(store).Keys == {} && fates == (Works, Works, Works)
      ensures ok ==> store == old(store) + bindings && Converged()
      ensures store != old(store) ==>
                bindings.Keys * old(store).Keys == {} && store == old(store) + bindings && fates.0.Works?
      // where each cut leaves the realm
      ensures bindings.Keys * old(store).Keys != {} ==> store == old(store) && maybe == old(maybe)
      ensures bindings.Keys * old(store).Keys == {} && !fates.0.Works? ==>
                store == old(store) && maybe == (old(maybe) + Desired(old(store))) * fates.0.left
      ensures bindings.Keys * old(store).Keys == {} && fates.0.Works? && !fates.1.Works? ==>
                && store == (if fates.1.applied then old(store) + bindings else old(store))
                && maybe == Desired(old(store))
      ensures bindings.Keys * old(store).Keys == {} && fates.0.Works? && fates.1.Works? && !fates.2.Works? ==>
                && store == old(store) + bindings
                && maybe == (Desired(old(store)) + Desired(store)) * fates.2.left
    {
      if bindings.Keys * store.Keys != {} {
        return false;
      }
      ok := Apply(Desired(store), fates.0);
      if !ok {
        return;
      }
      ok := Save(Put(bindings), fates.1);
      if !ok {
        return;
      }
      ok := Apply(Desired(store), fates.2);
    }

    /** Every running instance is rebuilt; the providers are reconciled alone
        before the new records are published and applied. */
    method CmdRefresh(rebuilt: map<string, Instance>, fates: (Fate, Fate, Fate)) returns (ok: bool)
      requires Safe() && WellMade(Refresh(rebuilt))
      requires forall id :: id in rebuilt <==> id in store && store[id].intent.Running?
      modifies this
      ensures Safe()
      ensures ok <==> fates == (Works, Works, Works)
      ensures ok ==> store == old(store) + rebuilt && store.Keys == old(store).Keys && Converged()
      ensures store != old(store) ==> store == old(store) + rebuilt && fates.0.Works?
      // where each cut leaves the realm
      ensures !fates.0.Works? ==> store == old(store) && maybe == old(maybe) * fates.0.left
      ensures fates.0.Works? && !fates.1.Works? ==>
                && store == (if fates.1.applied then old(store) + rebuilt else old(store))
                && maybe == {}
      ensures fates.0.Works? && fates.1.Works? && !fates.2.Works? ==>
                store == old(store) + rebuilt && maybe == Desired(store) * fates.2.left
    {
      ok := Apply({}, fates.0);
      if !ok {
        return;
      }
      ok := Save(Put(rebuilt), fates.1);
      if !ok {
        return;
      }
      ok := Apply(Desired(store), fates.2);
    }

    method CmdStart(id: string, stamped: Instance, fates: (Fate, Fate)) returns (ok: bool)
      requires Safe() && WellMade(Start(id, stamped))
      modifies this
      ensures Safe()
      ensures ok <==> id in old(store) && old(store[id]).intent.Stopped? && fates == (Works, Works)
      ensures ok ==> store == old(store)[id := stamped] && Converged() && stamped in maybe
      // where each cut leaves the realm
      ensures !(id in old(store) && old(store[id]).intent.Stopped?) ==> store == old(store) && maybe == old(maybe)
      ensures id in old(store) && old(store[id]).intent.Stopped? && !fates.0.Works? ==>
                && store == (if fates.0.applied then old(store)[id := stamped] else old(store))
                && maybe == old(maybe)
      ensures id in old(store) && old(store[id]).intent.Stopped? && fates.0.Works? && !fates.1.Works? ==>
                && store == old(store)[id := stamped]
                && maybe == (old(maybe) + Desired(store)) * fates.1.left
    {
      if id !in store || store[id].intent.Running? {
        return false;
      }
      ok := Save(Put(map[id := stamped]), fates.0);
      if !ok {
        return;
      }
      ok := Apply(Desired(store), fates.1);
      assert ok ==> store[id] == stamped;
    }

    method CmdStop(targets: set<string>, restamped: map<string, Instance>, fates: (Fate, Fate)) returns (ok: bool)
      requires Safe() && WellMade(Stop(targets, restamped)) && targets <= restamped.Keys
      modifies this
      ensures Safe()
      ensures ok <==> targets <= old(store).Keys && fates == (Works, Works)
      ensures ok ==> Converged() && forall x | x in maybe :: x.id !in targets
      ensures store.Keys == old(store).Keys
      ensures forall id | id in store ::
                store[id] == if targets <= store.Keys && (fates.0.Works? || fates.0.applied)
                                && id in targets && old(store)[id].intent.Running?
                             then restamped[id] else old(store)[id]
      // where each cut leaves DComp
      ensures !(targets <= old(store).Keys) || !fates.0.Works? ==> maybe == old(maybe)
      ensures targets <= old(store).Keys && fates.0.Works? && !fates.1.Works? ==>
                maybe == (old(maybe) + Desired(store)) * fates.1.left
    {
      if !(targets <= store.Keys) {
        return false;
      }
      var changed: map<string, Instance> := map[];
      var todo := targets;
      while todo != {}
        invariant todo <= targets
        invariant forall id :: id in changed <==> id in targets && id !in todo && store[id].intent.Running?
        invariant forall id | id in changed :: changed[id] == restamped[id]
        decreases |todo|
      {
        var id :| id in todo;
        todo := todo - {id};
        if store[id].intent.Running? {
          changed := changed[id := restamped[id]];
        }
      }
      ok := Save(Put(changed), fates.0);
      if !ok {
        return;
      }
      ok := Apply(Desired(store), fates.1);
    }

    /** A record goes only when it is stopped and DComp has applied, successfully,
        a system without it. */
    method CmdForget(id: string, fates: (Fate, Fate)) returns (ok: bool)
      requires Safe()
      modifies this
      ensures Safe()
      ensures store != old(store) ==>
                && id in old(store) && old(store[id]).intent.Stopped? && store == old(store) - {id}
                && fates.0.Works? && (forall x | x in maybe :: x.id != id)
      ensures ok <==> id in old(store) && old(store[id]).intent.Stopped? && fates == (Works, Works)
      ensures ok ==> store == old(store) - {id} && id !in store && Converged()
      // where each cut leaves the realm
      ensures !(id in old(store) && old(store[id]).intent.Stopped?) ==> store == old(store) && maybe == old(maybe)
      ensures id in old(store) && old(store[id]).intent.Stopped? && !fates.0.Works? ==>
                store == old(store) && maybe == (old(maybe) + Desired(store)) * fates.0.left
      ensures id in old(store) && old(store[id]).intent.Stopped? && fates.0.Works? ==>
                && store == (if fates.1.Works? || fates.1.applied then old(store) - {id} else old(store))
                && maybe == Desired(old(store)) == Desired(store)
    {
      if id !in store || store[id].intent.Running? {
        return false;
      }
      ok := Apply(Desired(store), fates.0);
      if !ok {
        return;
      }
      ok := Save(Delete(id), fates.1);
      StoppedIsNotDesired(old(store), id);
    }

    method CmdRepair(fate: Fate) returns (ok: bool)
      requires Safe()
      modifies this`maybe
      ensures Safe()
      ensures ok <==> fate.Works?
      ensures ok ==> Converged()
      ensures !ok ==> maybe == (old(maybe) + Desired(store)) * fate.left
    {
      ok := Apply(Desired(store), fate);
    }

    method CmdGateway(fate: Fate) returns (ok: bool)
      requires Safe()
      modifies this`maybe
      ensures Safe()
      ensures ok <==> fate.Works?
      ensures maybe == if ok then {} else old(maybe) * fate.left
    {
      ok := Apply({}, fate);
    }

    method CmdShutdown(fate: Fate) returns (ok: bool)
      requires Safe()
      modifies this`maybe
      ensures Safe()
      ensures ok <==> fate.Works?
      ensures maybe == if ok then {} else old(maybe) * fate.left
    {
      ok := Down(fate);
    }

    method Do(c: Command, fates: (Fate, Fate, Fate)) returns (ok: bool)
      requires Safe() && WellMade(c)
      modifies this
      ensures Safe()
      ensures ok <==>
                match c {
                  case Run(bindings) => bindings.Keys * old(store).Keys == {} && fates == (Works, Works, Works)
                  case Refresh(rebuilt) =>
                    && rebuilt.Keys == (set id | id in old(store) && old(store)[id].intent.Running?)
                    && fates == (Works, Works, Works)
                  case Start(id, _) =>
                    id in old(store) && old(store)[id].intent.Stopped? && fates.0.Works? && fates.1.Works?
                  case Stop(targets, restamped) =>
                    targets <= restamped.Keys && targets <= old(store).Keys && fates.0.Works? && fates.1.Works?
                  case Forget(id) =>
                    id in old(store) && old(store)[id].intent.Stopped? && fates.0.Works? && fates.1.Works?
                  case _ => fates.0.Works?
                }
      ensures ok ==> if c.Gateway? || c.Shutdown? then maybe == {} else Converged()
      ensures ok ==>
                match c {
                  case Run(bindings) => store == old(store) + bindings
                  case Refresh(rebuilt) => store == old(store) + rebuilt
                  case Start(id, x) => store == old(store)[id := x]
                  case Stop(targets, restamped) =>
                    && store.Keys == old(store).Keys
                    && forall id | id in store ::
                         store[id] == if id in targets && old(store)[id].intent.Running? then restamped[id]
                                      else old(store)[id]
                  case Forget(id) => store == old(store) - {id}
                  case _ => store == old(store)
                }
    {
      match c
      case Run(bindings) => ok := CmdRun(bindings, fates);
      case Refresh(rebuilt) =>
        // a run whose definitions do not rebuild exactly the running instances raises
        ok := false;
        if rebuilt.Keys == (set id | id in store && store[id].intent.Running?) {
          ok := CmdRefresh(rebuilt, fates);
        }
      case Start(id, x) => ok := CmdStart(id, x, (fates.0, fates.1));
      case Stop(targets, restamped) =>
        ok := false;
        if targets <= restamped.Keys {
          ok := CmdStop(targets, restamped, (fates.0, fates.1));
        }
      case Forget(id) => ok := CmdForget(id, (fates.0, fates.1));
      case Repair => ok := CmdRepair(fates.0);
      case Gateway => ok := CmdGateway(fates.0);
      case Shutdown => ok := CmdShutdown(fates.0);
    }

    /** Every run: any commands, each cut short anywhere or not.  The realm is safe
        throughout, and one repair that works converges it. */
    method Play(commands: seq<(Command, (Fate, Fate, Fate))>, last: Fate)
      requires Safe()
      requires forall i | 0 <= i < |commands| :: WellMade(commands[i].0)
      modifies this
      ensures Safe()
      ensures last.Works? ==> Converged()
    {
      for i := 0 to |commands|
        invariant Safe()
      {
        var _ := Do(commands[i].0, commands[i].1);
      }
      var _ := CmdRepair(last);
    }
  }
}
