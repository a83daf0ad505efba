/** The instance store as the lock holder runs it: the methods of `StateStore`
    over one disk, in a process that completes `life` more file-system calls and
    then dies. */
module StateStores {
  import opened Outcomes
  import opened InstanceDisk
  import StoreProtocol

  /** How a call ends: normally, by raising, or with the process dead. */
  datatype Ending = Done | Refused | Died

  /** `_prepare_instance`'s time stamps. */
  function Stamp(x: Instance, now: string): Instance {
    x.(createdAt := if x.createdAt == "" then now else x.createdAt, updatedAt := now)
  }

  /** A stamp touches times only, and a creation time only where there was none. */
  lemma StampKeeps(x: Instance, now: string)
    ensures Stamp(x, now).id == x.id && Stamp(x, now).intent == x.intent && Stamp(x, now).settings == x.settings
    ensures Stamp(x, now).updatedAt == now
    ensures x.createdAt != "" ==> Stamp(x, now).createdAt == x.createdAt
    ensures x.createdAt == "" ==> Stamp(x, now).createdAt == now
  {
  }

  function StampAll(selected: seq<Instance>, now: string): (docs: seq<Instance>)
    ensures |docs| == |selected|
    ensures forall i | 0 <= i < |docs| :: docs[i] == Stamp(selected[i], now)
  {
    seq(|selected|, i requires 0 <= i < |selected| => Stamp(selected[i], now))
  }

  /** A cohort save runs to its end: the leftover batch can be redone, no entry is
      in the way, and the process lives for every call of both. */
  predicate SaveManyCompletes(d: Disk, docs: seq<Instance>, life: nat) {
    && Recoverable(d) && life >= RecoveryCalls(d)
    && (docs != [] ==>
          ValidCohort(docs) && Publishable(Recovered(d), docs) && life >= RecoveryCalls(d) + Calls(docs) + 2)
  }

  lemma RecoveredInventory(d: Disk, n: nat)
    requires d.pending.Some? && ValidBatch(d.pending.value)
    requires n <= Calls(d.pending.value.documents)
    ensures Inventory(After(d, d.pending.value.documents, n)) == Inventory(d)
    ensures Inventory(Recovered(d)) == Inventory(d)
  {
    var docs := d.pending.value.documents;
    AfterInventory(d, docs, n);
    AfterInventory(d, docs, Calls(docs));
    AfterKeepsBatch(d, docs, Calls(docs));
    assert docs[..Calls(docs) / 2] == docs;
    forall i | 0 <= i < |docs|
      ensures Committed(After(d, docs, Calls(docs)), docs[i].id) == Some(docs[i])
    {
      AfterCommitted(d, docs, Calls(docs), docs[i].id);
      FindAt(docs, i);
    }
    DropBatchKeepsInventory(After(d, docs, Calls(docs)), docs);
  }

  lemma AfterInventory(d: Disk, docs: seq<Instance>, n: nat)
    requires d.pending == Some(Instances(docs)) && ValidCohort(docs) && n <= Calls(docs)
    ensures Inventory(After(d, docs, n)) == Inventory(d)
  {
    AfterKeepsBatch(d, docs, n);
    forall id ensures Lookup(After(d, docs, n), id) == Lookup(d, id) {
      AfterCommitted(d, docs, n, id);
      PrefixFind(docs, n / 2, id);
    }
    SameLookup(d, After(d, docs, n));
  }

  /** The checks of `_save_many_locked` before anything is written: no repeated
      identifier and every record valid. */
  method PrepareAll(selected: seq<Instance>, now: string) returns (documents: Option<seq<Instance>>)
    ensures documents.Some? <==> selected == [] || ValidCohort(StampAll(selected, now))
    ensures documents.Some? ==> documents.value == StampAll(selected, now)
  {
    var stamped: seq<Instance> := [];
    var identifiers: set<string> := {};
    for i := 0 to |selected|
      invariant stamped == StampAll(selected, now)[..i]
      invariant identifiers == set x | x in stamped :: x.id
      invariant DistinctIds(stamped)
      invariant forall k | 0 <= k < i :: ValidInstance(stamped[k])
    {
      var document := Stamp(selected[i], now);
      if selected[i].id in identifiers {
        assert exists k :: 0 <= k < i && StampAll(selected, now)[k].id == document.id;
        return None;
      }
      identifiers := identifiers + {selected[i].id};
      if !ValidInstance(document) {
        assert !ValidInstance(StampAll(selected, now)[i]);
        return None;
      }
      stamped := stamped + [document];
    }
    assert stamped == StampAll(selected, now);
    documents := Some(stamped);
  }

  /** The loop of `_list_report_locked` over the entries of `instances/`. */
  method Enumerate(d: Disk) returns (result: map<string, Instance>, errors: set<string>)
    ensures forall id :: id in result <==> Committed(d, id).Some?
    ensures forall id | id in result :: Committed(d, id) == Some(result[id])
    ensures errors == StoreProtocol.ListErrors(d)
  {
    result, errors := map[], {};
    var todo := d.entries.Keys;
    while todo != {}
      invariant todo <= d.entries.Keys
      invariant forall id :: id in result <==> id in d.entries && id !in todo && Committed(d, id).Some?
      invariant forall id | id in result :: Committed(d, id) == Some(result[id])
      invariant forall id :: id in errors <==> id in StoreProtocol.ListErrors(d) && id !in todo
      decreases |todo|
    {
      var id :| id in todo;
      todo := todo - {id};
      if !ValidId(id) {
        errors := errors + {id};
      } else if Committed(d, id).Some? {
        result := result[id := Committed(d, id).value];
      } else if !d.entries[id].Empty? {
        errors := errors + {id};
      }
    }
  }

  class StateStore {
    var disk: Disk
    var life: nat

    constructor (disk: Disk, life: nat)
      ensures this.disk == disk && this.life == life
    {
      this.disk := disk;
      this.life := life;
    }

    /** Publish one record: refused over an entry that is neither a valid record
        of its own nor an empty directory. */
    method WriteInstanceDocument(x: Instance) returns (r: Ending, calls: nat)
      requires ValidInstance(x)
      modifies this
      ensures calls <= 2 && life == old(life) - calls
      ensures disk == After(old(disk), [x], calls)
      ensures r.Refused? <==> !Writable(old(disk), x.id)
      ensures r.Done? <==> Writable(old(disk), x.id) && old(life) >= 2
      ensures r.Done? ==> calls == 2
      ensures r.Refused? ==> calls == 0
      ensures r.Died? ==> life == 0
    {
      calls := 0;
      assert After(disk, [x], 0) == disk;
      if x.id in disk.entries && !disk.entries[x.id].Empty? && Committed(disk, x.id).None? {
        return Refused, 0;
      }
      if life == 0 {
        return Died, 0;
      }
      disk, life, calls := MakeDirectory(disk, x.id), life - 1, 1;
      if life == 0 {
        return Died, 1;
      }
      disk, life, calls := PutRecord(disk, x), life - 1, 2;
      AfterNext(old(disk), [x], 0);
      AfterNext(old(disk), [x], 1);
      r := Done;
    }

    /** Publish a cohort.  It finishes exactly when no entry is in the way and the
        process lives long enough; otherwise exactly its first calls happened. */
    method PublishInstanceBatch(docs: seq<Instance>) returns (r: Ending, calls: nat)
      requires ValidCohort(docs)
      modifies this
      ensures calls <= Calls(docs) && life == old(life) - calls
      ensures disk == After(old(disk), docs, calls)
      ensures r.Done? <==> Publishable(old(disk), docs) && old(life) >= Calls(docs)
      ensures r.Done? ==> calls == Calls(docs)
      ensures r.Refused? ==> !Publishable(old(disk), docs)
      ensures r.Died? ==> life == 0
    {
      calls := 0;
      var k := 0;
      while k < |docs|
        invariant k <= |docs| && calls == 2 * k && life == old(life) - calls
        invariant disk == After(old(disk), docs, calls)
        invariant forall i | 0 <= i < k :: Writable(old(disk), docs[i].id)
      {
        var one;
        WritableLater(old(disk), docs, calls, k);
        ghost var before := disk;
        r, one := WriteInstanceDocument(docs[k]);
        CallsShift(old(disk), docs, k, before, one);
        calls := calls + one;
        if !r.Done? {
          return;
        }
        k := k + 1;
      }
      r := Done;
    }

    /** Redo a leftover batch and drop its record.  However it ends, the inventory
        is untouched. */
    method RecoverPendingBatchLocked() returns (r: Ending)
      modifies this
      ensures Inventory(disk) == Inventory(old(disk))
      ensures r.Done? <==> Recoverable(old(disk)) && old(life) >= RecoveryCalls(old(disk))
      ensures r.Done? ==> disk == Recovered(old(disk)) && disk.pending.None?
      ensures r.Done? ==> life == old(life) - RecoveryCalls(old(disk))
      ensures r.Refused? ==> !Recoverable(old(disk))
      ensures Recoverable(old(disk)) ==> Recoverable(disk)
    {
      if disk.pending.None? {
        return Done;
      }
      if !ValidBatch(disk.pending.value) {
        return Refused;
      }
      var docs := disk.pending.value.documents;
      var calls;
      r, calls := PublishInstanceBatch(docs);
      RecoveredInventory(old(disk), calls);
      AfterKeepsBatch(old(disk), docs, calls);
      PublishableKept(old(disk), docs, calls);
      if !r.Done? {
        return;
      }
      if life == 0 {
        return Died;
      }
      disk, life := DropBatch(disk), life - 1;
    }

    /** Publish a cohort so that every reader sees all or none.  `applied` says
        whether the pending record was put in place: until then the inventory is
        the old one, from then on it is the new one, whatever else goes wrong. */
    method SaveManyLocked(selected: seq<Instance>, now: string) returns (r: Ending, applied: bool)
      modifies this
      ensures Inventory(disk) ==
              if applied then Inventory(old(disk)) + Cohort(StampAll(selected, now)) else Inventory(old(disk))
      ensures applied ==> ValidCohort(StampAll(selected, now))
      ensures r.Done? <==> SaveManyCompletes(old(disk), StampAll(selected, now), old(life))
      ensures r.Done? ==> disk.pending.None? && (applied <==> selected != [])
      ensures r.Refused? && !applied ==> !Recoverable(old(disk)) || !ValidCohort(StampAll(selected, now))
      ensures r.Done? && applied ==>
              forall id :: Committed(disk, id) == if Find(StampAll(selected, now), id).Some?
                                                  then Find(StampAll(selected, now), id)
                                                  else Lookup(old(disk), id)
    {
      applied := false;
      r := RecoverPendingBatchLocked();
      if !r.Done? || selected == [] {
        return;
      }
      var prepared := PrepareAll(selected, now);
      if prepared.None? {
        return Refused, false;
      }
      var documents := prepared.value;
      if life == 0 {
        return Died, false;
      }
      ghost var drained := disk;
      disk, life, applied := PutBatch(disk, documents), life - 1, true;
      PutBatchAppliesCohort(drained, documents);
      ghost var committed := disk;
      var calls;
      r, calls := PublishInstanceBatch(documents);
      RecoveredInventory(committed, calls);
      if !r.Done? {
        return;
      }
      if life == 0 {
        return Died, true;
      }
      disk, life := DropBatch(disk), life - 1;
      CohortCommitted(old(disk), drained, documents);
    }

    /** Save one record.  Its rename is the only step that changes the inventory. */
    method Save(x: Instance, now: string) returns (r: Ending, applied: bool)
      modifies this
      ensures Inventory(disk) ==
              if applied then Inventory(old(disk))[x.id := Stamp(x, now)] else Inventory(old(disk))
      ensures applied <==> r.Done?
      ensures r.Done? ==> disk.pending.None? && Committed(disk, x.id) == Some(Stamp(x, now))
      ensures r.Done? <==> Recoverable(old(disk)) && ValidInstance(x) && Writable(Recovered(old(disk)), x.id)
                           && old(life) >= RecoveryCalls(old(disk)) + 2
    {
      r := RecoverPendingBatchLocked();
      if !r.Done? {
        return r, false;
      }
      var document := Stamp(x, now);
      if !ValidInstance(document) {
        return Refused, false;
      }
      ghost var drained := disk;
      var calls;
      assert document.id == x.id;
      r, calls := WriteInstanceDocument(document);
      applied := r.Done?;
      OneDocument(drained, document, calls);
    }

    /** Read one record under the lock: the inventory's value, after a drain. */
    method Load(id: string) returns (r: Ending, found: StoreProtocol.ReadResult)
      modifies this
      ensures Inventory(disk) == Inventory(old(disk))
      ensures r.Done? ==> disk == Recovered(old(disk)) && disk.pending.None?
      ensures r.Done? ==> forall x :: found == StoreProtocol.Found(x) <==> Lookup(old(disk), id) == Some(x)
      ensures r.Done? ==>
                (found.Invalid? <==> id in disk.entries && disk.entries[id].Holds? && Committed(disk, id).None?)
      ensures r.Done? ==> (found.NotFound? <==> !(id in disk.entries && disk.entries[id].Holds?))
      ensures r.Done? <==> Recoverable(old(disk)) && old(life) >= RecoveryCalls(old(disk))
      ensures r.Done? ==> life == old(life) - RecoveryCalls(old(disk))
    {
      found := StoreProtocol.Invalid;
      r := RecoverPendingBatchLocked();
      if !r.Done? {
        return;
      }
      found := StoreProtocol.ReadRecord(disk, id);
      StoreProtocol.ReadRecordIs(disk, id);
      LookupFromInventory(old(disk), disk, id);
    }

    /** List under the lock: the whole inventory of one instant, and an error for
        every entry that is neither a record nor an empty directory. */
    method ListReport() returns (r: Ending, result: map<string, Instance>, errors: set<string>)
      modifies this
      ensures Inventory(disk) == Inventory(old(disk))
      ensures r.Done? <==> Recoverable(old(disk)) && old(life) >= RecoveryCalls(old(disk))
      ensures r.Done? ==> result == Inventory(old(disk)) && disk == Recovered(old(disk))
      ensures r.Done? ==> forall id :: id in errors <==>
                id in disk.entries && id !in result && (ValidId(id) ==> !disk.entries[id].Empty?)
      ensures !r.Done? ==> result == map[]
    {
      result, errors := map[], {};
      r := RecoverPendingBatchLocked();
      if r.Done? {
        result, errors := Enumerate(disk);
        forall id ensures Lookup(disk, id) == if id in result then Some(result[id]) else None {
        }
        InventoryIs(disk, result);
      }
    }

    /** Forget one instance: only a stopped one, only after a drain, and then for
        good. */
    method Remove(id: string) returns (r: Ending)
      modifies this
      ensures Inventory(disk) == if r.Done? then Inventory(old(disk)) - {id} else Inventory(old(disk))
      ensures r.Done? ==> disk.pending.None? && id !in disk.entries
      ensures r.Done? <==> Recoverable(old(disk)) && old(life) > RecoveryCalls(old(disk))
                           && Lookup(old(disk), id).Some? && Lookup(old(disk), id).value.intent.Stopped?
    {
      var found;
      r, found := Load(id);
      if !r.Done? {
        return;
      }
      if !found.Found? || !found.instance.intent.Stopped? {
        return Refused;
      }
      if life == 0 {
        return Died;
      }
      DropEntryDropsOne(disk, id);
      disk, life := DropEntry(disk, id), life - 1;
    }
  }

  lemma LookupFromInventory(d: Disk, d': Disk, id: string)
    requires Inventory(d) == Inventory(d')
    ensures Lookup(d, id) == Lookup(d', id)
  {
    assert id in Inventory(d) <==> id in Inventory(d');
  }

  /** The two calls for document `k` are calls `2k` and `2k + 1` of the cohort's. */
  lemma CallsShift(d: Disk, docs: seq<Instance>, k: nat, before: Disk, one: nat)
    requires k < |docs| && one <= 2 && before == After(d, docs, 2 * k)
    ensures After(before, [docs[k]], one) == After(d, docs, 2 * k + one)
  {
    assert 2 * k / 2 == k && (2 * k + 1) / 2 == k && (2 * k + 2) / 2 == k + 1;
    assert before == Published(d, docs, k) == Published(before, [docs[k]], 0);
    match one {
      case 0 =>
      case 1 => assert After(before, [docs[k]], 1) == MakeDirectory(before, docs[k].id);
      case 2 =>
        assert After(before, [docs[k]], 2) == Published(before, [docs[k]], 1);
        assert Published(before, [docs[k]], 1) == PutRecord(MakeDirectory(before, docs[k].id), docs[k]);
    }
  }

  lemma OneDocument(d: Disk, x: Instance, calls: nat)
    requires d.pending.None? && ValidInstance(x) && calls <= 2
    ensures Inventory(After(d, [x], calls)) == if calls == 2 then Inventory(d)[x.id := x] else Inventory(d)
    ensures calls == 2 ==> Committed(After(d, [x], 2), x.id) == Some(x)
    ensures After(d, [x], calls).pending.None?
  {
    AfterNext(d, [x], 0);
    AfterNext(d, [x], 1);
    MakeDirectoryKeepsInventory(d, x.id);
    PutRecordPutsOne(MakeDirectory(d, x.id), x);
  }

  lemma CohortCommitted(original: Disk, drained: Disk, docs: seq<Instance>)
    requires drained.pending.None? && ValidCohort(docs) && Inventory(drained) == Inventory(original)
    ensures forall id ::
              Committed(DropBatch(After(PutBatch(drained, docs), docs, Calls(docs))), id) ==
              if Find(docs, id).Some? then Find(docs, id) else Lookup(original, id)
  {
    var put := PutBatch(drained, docs);
    assert docs[..Calls(docs) / 2] == docs;
    forall id
      ensures Committed(DropBatch(After(put, docs, Calls(docs))), id) ==
              if Find(docs, id).Some? then Find(docs, id) else Lookup(original, id)
    {
      AfterCommitted(put, docs, Calls(docs), id);
      LookupFromInventory(original, drained, id);
      assert Committed(put, id) == Committed(drained, id);
    }
  }
}
