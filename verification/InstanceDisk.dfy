/** The part of a realm's state directory that holds instance records: one
    directory per instance, each with at most one `run.json`, and beside them at
    most one pending-batch record.  Temporary files and quarantined directories
    carry a leading dot, are skipped by every reader, and do not appear here. */
module InstanceDisk {
  import opened Outcomes
  import T = Text

  datatype Intent = Running | Stopped

  /** `acceptable` stands for the field checks of `Instance.from_json` other than
      the identifier's. */
  datatype Settings = Settings(values: string, acceptable: bool)

  datatype Instance = Instance(
    id: string,
    intent: Intent,
    createdAt: string,
    updatedAt: string,
    settings: Settings)

  /** What `run.json` holds: a parsed object, or bytes that do not parse. */
  datatype Record = Parsed(instance: Instance) | Garbage

  /** An entry of `instances/`.  `Stray` is a directory with contents but no
      `run.json`, or something that is not a directory. */
  datatype Entry = Empty | Stray | Holds(record: Record)

  datatype Batch = Unreadable | Instances(documents: seq<Instance>)

  datatype Disk = Disk(entries: map<string, Entry>, pending: Option<Batch>)

  predicate Alphanumeric(c: char) {
    T.Lower(c) || T.Upper(c) || T.Digit(c)
  }

  predicate ValidId(id: string) {
    && 1 <= |id| <= 64
    && Alphanumeric(id[0])
    && forall i | 0 <= i < |id| :: Alphanumeric(id[i]) || id[i] == '.' || id[i] == '_' || id[i] == '-'
  }

  predicate ValidInstance(x: Instance) {
    ValidId(x.id) && x.settings.acceptable
  }

  predicate DistinctIds(docs: seq<Instance>) {
    forall i, j | 0 <= i < j < |docs| :: docs[i].id != docs[j].id
  }

  /** The cohorts `save_many` commits and recovery accepts. */
  predicate ValidCohort(docs: seq<Instance>) {
    docs != [] && DistinctIds(docs) && forall i | 0 <= i < |docs| :: ValidInstance(docs[i])
  }

  predicate ValidBatch(b: Batch) {
    b.Instances? && ValidCohort(b.documents)
  }

  /** The document of a cohort with the given identifier. */
  function Find(docs: seq<Instance>, id: string): Option<Instance> {
    if docs == [] then None
    else if docs[|docs| - 1].id == id then Some(docs[|docs| - 1])
    else Find(docs[..|docs| - 1], id)
  }

  lemma {:induction false} FindSpec(docs: seq<Instance>, id: string)
    ensures Find(docs, id).Some? ==> Find(docs, id).value in docs && Find(docs, id).value.id == id
    ensures Find(docs, id).None? <==> forall i | 0 <= i < |docs| :: docs[i].id != id
  {
    if docs != [] && docs[|docs| - 1].id != id {
      FindSpec(docs[..|docs| - 1], id);
    }
  }

  lemma {:induction false} FindAt(docs: seq<Instance>, i: nat)
    requires i < |docs| && DistinctIds(docs)
    ensures Find(docs, docs[i].id) == Some(docs[i])
  {
    if i < |docs| - 1 {
      FindAt(docs[..|docs| - 1], i);
    }
  }

  /** The record an instance directory commits, if it is valid and its own. */
  function Committed(d: Disk, id: string): Option<Instance> {
    if id in d.entries && d.entries[id].Holds? && d.entries[id].record.Parsed?
       && ValidInstance(d.entries[id].record.instance) && d.entries[id].record.instance.id == id
    then Some(d.entries[id].record.instance)
    else None
  }

  /** What a realm means at one instant: committed records, overridden by the
      pending batch when there is one. */
  function Lookup(d: Disk, id: string): Option<Instance> {
    if d.pending.Some? && ValidBatch(d.pending.value) && Find(d.pending.value.documents, id).Some?
    then Find(d.pending.value.documents, id)
    else Committed(d, id)
  }

  function Ids(docs: seq<Instance>): (ids: set<string>)
    ensures forall id :: id in ids <==> Find(docs, id).Some?
  {
    var ids := set x | x in docs :: x.id;
    assert forall id :: id in ids <==> Find(docs, id).Some? by {
      forall id ensures id in ids <==> Find(docs, id).Some? {
        FindSpec(docs, id);
      }
    }
    ids
  }

  function PendingIds(d: Disk): set<string> {
    if d.pending.Some? && ValidBatch(d.pending.value) then Ids(d.pending.value.documents) else {}
  }

  function Inventory(d: Disk): (inventory: map<string, Instance>)
    ensures forall id :: id in inventory <==> Lookup(d, id).Some?
    ensures forall id | id in inventory :: Lookup(d, id) == Some(inventory[id])
  {
    map id | id in d.entries.Keys + PendingIds(d) && Lookup(d, id).Some? :: Lookup(d, id).value
  }

  /** A cohort as a map. */
  function Cohort(docs: seq<Instance>): (cohort: map<string, Instance>)
    ensures forall id :: id in cohort <==> Find(docs, id).Some?
    ensures forall id | id in cohort :: Find(docs, id) == Some(cohort[id])
  {
    map id | id in Ids(docs) :: Find(docs, id).value
  }

  // ---- the atomic file-system calls ----

  /** `_write_instance_document` goes ahead only here. */
  predicate Writable(d: Disk, id: string) {
    id in d.entries ==> d.entries[id].Empty? || Committed(d, id).Some?
  }

  function MakeDirectory(d: Disk, id: string): Disk {
    if id in d.entries then d else d.(entries := d.entries[id := Empty])
  }

  function PutRecord(d: Disk, x: Instance): Disk {
    d.(entries := d.entries[x.id := Holds(Parsed(x))])
  }

  function PutBatch(d: Disk, docs: seq<Instance>): Disk {
    d.(pending := Some(Instances(docs)))
  }

  function DropBatch(d: Disk): Disk {
    d.(pending := None)
  }

  function DropEntry(d: Disk, id: string): Disk {
    d.(entries := d.entries - {id})
  }

  // ---- publication of a cohort, two calls a document ----

  function Calls(docs: seq<Instance>): nat {
    2 * |docs|
  }

  /** Call `n` of a publication: make document `n / 2`'s directory, or rename its
      record into place. */
  function PublishCall(d: Disk, docs: seq<Instance>, n: nat): Disk
    requires n < Calls(docs)
  {
    if n % 2 == 0 then MakeDirectory(d, docs[n / 2].id) else PutRecord(d, docs[n / 2])
  }

  /** The first `k` documents published. */
  function Published(d: Disk, docs: seq<Instance>, k: nat): Disk
    requires k <= |docs|
  {
    if k == 0 then d
    else PutRecord(MakeDirectory(Published(d, docs, k - 1), docs[k - 1].id), docs[k - 1])
  }

  /** The disk a publication leaves when it stops after `n` calls. */
  function After(d: Disk, docs: seq<Instance>, n: nat): Disk
    requires n <= Calls(docs)
  {
    if n % 2 == 0 then Published(d, docs, n / 2)
    else MakeDirectory(Published(d, docs, n / 2), docs[n / 2].id)
  }

  lemma AfterNext(d: Disk, docs: seq<Instance>, n: nat)
    requires n < Calls(docs)
    ensures After(d, docs, n + 1) == PublishCall(After(d, docs, n), docs, n)
  {
    if n % 2 == 1 {
      assert (n + 1) / 2 == n / 2 + 1;
    }
  }

  /** No call of the publication is refused. */
  predicate Publishable(d: Disk, docs: seq<Instance>) {
    forall i | 0 <= i < |docs| :: Writable(d, docs[i].id)
  }

  lemma {:induction false} PublishedKeepsBatch(d: Disk, docs: seq<Instance>, k: nat)
    requires k <= |docs|
    ensures Published(d, docs, k).pending == d.pending
  {
    if k > 0 {
      PublishedKeepsBatch(d, docs, k - 1);
    }
  }

  lemma AfterKeepsBatch(d: Disk, docs: seq<Instance>, n: nat)
    requires n <= Calls(docs)
    ensures After(d, docs, n).pending == d.pending
  {
    PublishedKeepsBatch(d, docs, n / 2);
  }

  function EntryOf(d: Disk, id: string): Option<Entry> {
    if id in d.entries then Some(d.entries[id]) else None
  }

  lemma FindNext(docs: seq<Instance>, k: nat, id: string)
    requires k < |docs|
    ensures Find(docs[..k + 1], id) == if docs[k].id == id then Some(docs[k]) else Find(docs[..k], id)
  {
    assert docs[..k + 1][..k] == docs[..k];
  }

  lemma {:induction false} PublishedEntry(d: Disk, docs: seq<Instance>, k: nat, id: string)
    requires k <= |docs|
    ensures EntryOf(Published(d, docs, k), id) ==
            match Find(docs[..k], id) { case Some(x) => Some(Holds(Parsed(x))) case None => EntryOf(d, id) }
  {
    if k > 0 {
      PublishedEntry(d, docs, k - 1, id);
      FindNext(docs, k - 1, id);
    }
  }

  /** Exactly what is on disk after `n` calls: the first `n / 2` documents are in
      place, one more directory may exist, and nothing else moved. */
  lemma AfterEntry(d: Disk, docs: seq<Instance>, n: nat, id: string)
    requires n <= Calls(docs)
    ensures EntryOf(After(d, docs, n), id) ==
            match Find(docs[..n / 2], id) {
              case Some(x) => Some(Holds(Parsed(x)))
              case None =>
                if id !in d.entries && n % 2 == 1 && docs[n / 2].id == id then Some(Empty) else EntryOf(d, id)
            }
  {
    PublishedEntry(d, docs, n / 2, id);
  }

  /** The committed value of every identifier after `n` calls. */
  lemma AfterCommitted(d: Disk, docs: seq<Instance>, n: nat, id: string)
    requires n <= Calls(docs)
    requires forall i | 0 <= i < |docs| :: ValidInstance(docs[i])
    ensures Committed(After(d, docs, n), id) ==
            if Find(docs[..n / 2], id).Some? then Find(docs[..n / 2], id) else Committed(d, id)
  {
    AfterEntry(d, docs, n, id);
    FindSpec(docs[..n / 2], id);
    CommittedFromEntry(After(d, docs, n), d, id);
  }

  lemma CommittedFromEntry(d: Disk, d': Disk, id: string)
    ensures EntryOf(d, id) == EntryOf(d', id) ==> Committed(d, id) == Committed(d', id)
    ensures EntryOf(d, id) == Some(Empty) ==> Committed(d, id).None?
    ensures forall x | EntryOf(d, id) == Some(Holds(Parsed(x))) && x.id == id && ValidInstance(x) ::
              Committed(d, id) == Some(x)
  {
  }

  /** Republishing: any prefix followed by a full redo is one publication. */
  lemma RedoConverges(d: Disk, docs: seq<Instance>, n: nat)
    requires n <= Calls(docs) && DistinctIds(docs)
    ensures After(After(d, docs, n), docs, Calls(docs)) == After(d, docs, Calls(docs))
  {
    var once, redo := After(d, docs, Calls(docs)), After(After(d, docs, n), docs, Calls(docs));
    assert docs[..Calls(docs) / 2] == docs;
    forall id ensures EntryOf(once, id) == EntryOf(redo, id) {
      AfterEntry(d, docs, Calls(docs), id);
      AfterEntry(d, docs, n, id);
      AfterEntry(After(d, docs, n), docs, Calls(docs), id);
      PrefixFind(docs, n / 2, id);
      if n < Calls(docs) {
        FindAt(docs, n / 2);
      }
    }
    SameEntries(once, redo);
    AfterKeepsBatch(d, docs, n);
    AfterKeepsBatch(d, docs, Calls(docs));
    AfterKeepsBatch(After(d, docs, n), docs, Calls(docs));
  }

  lemma SameEntries(d: Disk, d': Disk)
    requires forall id :: EntryOf(d, id) == EntryOf(d', id)
    ensures d.entries == d'.entries
  {
    forall id
      ensures id in d.entries <==> id in d'.entries
      ensures id in d.entries ==> d.entries[id] == d'.entries[id]
    {
      assert EntryOf(d, id) == EntryOf(d', id);
    }
  }

  /** A document still to come is writable after `n` calls exactly when it was
      writable before the first. */
  lemma WritableLater(d: Disk, docs: seq<Instance>, n: nat, i: nat)
    requires n <= Calls(docs) && DistinctIds(docs) && n / 2 <= i < |docs|
    ensures Writable(After(d, docs, n), docs[i].id) <==> Writable(d, docs[i].id)
  {
    AfterEntry(d, docs, n, docs[i].id);
    FindSpec(docs[..n / 2], docs[i].id);
    CommittedFromEntry(After(d, docs, n), d, docs[i].id);
    assert EntryOf(After(d, docs, n), docs[i].id) == EntryOf(d, docs[i].id)
        || (EntryOf(After(d, docs, n), docs[i].id) == Some(Empty) && docs[i].id !in d.entries);
  }

  lemma PrefixFind(docs: seq<Instance>, k: nat, id: string)
    requires k <= |docs| && DistinctIds(docs)
    ensures Find(docs[..k], id).Some? ==> Find(docs, id) == Find(docs[..k], id)
  {
    FindSpec(docs[..k], id);
    if Find(docs[..k], id).Some? {
      var i :| 0 <= i < k && docs[i] == Find(docs[..k], id).value;
      FindAt(docs, i);
    }
  }

  /** Stopping a publication anywhere leaves it as publishable as it was. */
  lemma PublishableKept(d: Disk, docs: seq<Instance>, n: nat)
    requires n <= Calls(docs) && ValidCohort(docs)
    ensures Publishable(d, docs) ==> Publishable(After(d, docs, n), docs)
  {
    forall i | 0 <= i < |docs| ensures Writable(d, docs[i].id) ==> Writable(After(d, docs, n), docs[i].id) {
      if i < n / 2 {
        AfterCommitted(d, docs, n, docs[i].id);
        FindAt(docs[..n / 2], i);
      } else {
        WritableLater(d, docs, n, i);
      }
    }
  }

  /** The disk after attempts that died after the given numbers of calls. */
  function AfterDeaths(d: Disk, docs: seq<Instance>, deaths: seq<nat>): Disk
    requires forall i | 0 <= i < |deaths| :: deaths[i] <= Calls(docs)
  {
    if deaths == [] then d
    else After(AfterDeaths(d, docs, deaths[..|deaths| - 1]), docs, deaths[|deaths| - 1])
  }

  /** However many attempts died, and wherever, the attempt that survives is not
      refused and leaves the disk of a single undisturbed publication. */
  lemma {:induction false} RecoveryConverges(d: Disk, docs: seq<Instance>, deaths: seq<nat>)
    requires ValidCohort(docs) && Publishable(d, docs)
    requires forall i | 0 <= i < |deaths| :: deaths[i] <= Calls(docs)
    ensures Publishable(AfterDeaths(d, docs, deaths), docs)
    ensures After(AfterDeaths(d, docs, deaths), docs, Calls(docs)) == After(d, docs, Calls(docs))
  {
    if deaths != [] {
      var earlier := AfterDeaths(d, docs, deaths[..|deaths| - 1]);
      RecoveryConverges(d, docs, deaths[..|deaths| - 1]);
      RedoConverges(earlier, docs, deaths[|deaths| - 1]);
      PublishableKept(earlier, docs, deaths[|deaths| - 1]);
    }
  }

  /** Recovery can finish from here, given time. */
  predicate Recoverable(d: Disk) {
    d.pending.Some? ==> ValidBatch(d.pending.value) && Publishable(d, d.pending.value.documents)
  }

  function RecoveryCalls(d: Disk): nat {
    if d.pending.Some? && ValidBatch(d.pending.value) then Calls(d.pending.value.documents) + 1 else 0
  }

  /** The disk a completed recovery leaves. */
  function Recovered(d: Disk): Disk {
    if d.pending.Some? && ValidBatch(d.pending.value)
    then DropBatch(After(d, d.pending.value.documents, Calls(d.pending.value.documents)))
    else d
  }

  /** Republishing any prefix of the pending batch leaves the inventory alone. */
  lemma PublishCallKeepsInventory(d: Disk, docs: seq<Instance>, n: nat)
    requires d.pending == Some(Instances(docs)) && ValidCohort(docs)
    requires n < Calls(docs)
    ensures Inventory(PublishCall(d, docs, n)) == Inventory(d)
  {
    var d' := PublishCall(d, docs, n);
    forall id ensures Lookup(d', id) == Lookup(d, id) {
      if id == docs[n / 2].id {
        FindAt(docs, n / 2);
      }
    }
    SameLookup(d, d');
  }

  lemma InventoryIs(d: Disk, m: map<string, Instance>)
    requires forall id :: Lookup(d, id) == if id in m then Some(m[id]) else None
    ensures Inventory(d) == m
  {
    var a := Inventory(d);
    forall id ensures id in a <==> id in m {
      assert Lookup(d, id) == if id in m then Some(m[id]) else None;
    }
    assert a.Keys == m.Keys;
    forall id | id in a ensures a[id] == m[id] {
      assert Lookup(d, id) == Some(m[id]);
    }
  }

  lemma SameLookup(d: Disk, d': Disk)
    requires forall id :: Lookup(d, id) == Lookup(d', id)
    ensures Inventory(d) == Inventory(d')
  {
    forall id ensures Lookup(d', id) == if id in Inventory(d) then Some(Inventory(d)[id]) else None {
      assert Lookup(d, id) == Lookup(d', id);
    }
    InventoryIs(d', Inventory(d));
  }

  lemma PutBatchLookup(d: Disk, docs: seq<Instance>, id: string)
    requires d.pending.None? && ValidCohort(docs)
    ensures Lookup(PutBatch(d, docs), id) == if Find(docs, id).Some? then Find(docs, id) else Lookup(d, id)
  {
  }

  /** The rename of the pending record applies the whole cohort at once. */
  lemma PutBatchAppliesCohort(d: Disk, docs: seq<Instance>)
    requires d.pending.None? && ValidCohort(docs)
    ensures Inventory(PutBatch(d, docs)) == Inventory(d) + Cohort(docs)
  {
    var m := Inventory(d) + Cohort(docs);
    forall id ensures Lookup(PutBatch(d, docs), id) == if id in m then Some(m[id]) else None {
      PutBatchLookup(d, docs, id);
    }
    InventoryIs(PutBatch(d, docs), m);
  }

  /** Dropping the record of a fully published batch leaves the inventory alone. */
  lemma DropBatchKeepsInventory(d: Disk, docs: seq<Instance>)
    requires d.pending == Some(Instances(docs)) && ValidCohort(docs)
    requires forall i | 0 <= i < |docs| :: Committed(d, docs[i].id) == Some(docs[i])
    ensures Inventory(DropBatch(d)) == Inventory(d)
  {
    forall id ensures Lookup(DropBatch(d), id) == Lookup(d, id) {
      FindSpec(docs, id);
      if Find(docs, id).Some? {
        var i :| 0 <= i < |docs| && docs[i] == Find(docs, id).value;
      }
    }
    SameLookup(d, DropBatch(d));
  }

  lemma PutRecordPutsOne(d: Disk, x: Instance)
    requires d.pending.None? && ValidInstance(x)
    ensures Inventory(PutRecord(d, x)) == Inventory(d)[x.id := x]
  {
    InventoryIs(PutRecord(d, x), Inventory(d)[x.id := x]);
  }

  lemma MakeDirectoryKeepsInventory(d: Disk, id: string)
    ensures Inventory(MakeDirectory(d, id)) == Inventory(d)
  {
    SameLookup(d, MakeDirectory(d, id));
  }

  lemma DropEntryDropsOne(d: Disk, id: string)
    requires d.pending.None?
    ensures Inventory(DropEntry(d, id)) == Inventory(d) - {id}
  {
    InventoryIs(DropEntry(d, id), Inventory(d) - {id});
  }
}
