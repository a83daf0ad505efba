/** The generated DComp directory: content-addressed descriptor directories under
    `descriptors/`, one system file that names them, and the garbage collection of
    the rest.  A process completes `life` more file-system calls and then dies. */
module Materializers {
  import opened Outcomes

  /** An entry of `descriptors/`: an empty directory, one with just a
      `component.dcomp`, or anything else. */
  datatype Entry = Bare | Manifest(content: string) | Odd

  /** One component of a system: its name and its rendered descriptor. */
  datatype Part = Part(name: string, content: string)

  datatype Ending = Done | Refused | Died

  type Descriptors = map<string, Entry>

  /** The first 16 hexadecimal digits of a digest, of which nothing else is
      assumed; in particular two contents may share them. */
  ghost predicate Truncated(digest: string -> string) {
    forall content :: |digest(content)| == 16
  }

  function DirName(digest: string -> string, p: Part): string {
    p.name + "-" + digest(p.content)
  }

  /** Names of temporary directories; no component name is one. */
  predicate Hidden(name: string) {
    name == "" || name[0] == '.'
  }

  predicate Valid(parts: seq<Part>) {
    && (forall i | 0 <= i < |parts| :: !Hidden(parts[i].name))
    && (forall i, j | 0 <= i < j < |parts| :: parts[i].name != parts[j].name)
  }

  /** The descriptor directories of the first `k` components. */
  function DirNames(digest: string -> string, parts: seq<Part>, k: nat): (names: set<string>)
    requires k <= |parts|
    ensures forall i | 0 <= i < k :: DirName(digest, parts[i]) in names
  {
    set i | 0 <= i < k :: DirName(digest, parts[i])
  }

  /** The descriptor of `p` is absent, or there with the right bytes. */
  predicate FitsOne(digest: string -> string, d: Descriptors, p: Part) {
    DirName(digest, p) in d ==> d[DirName(digest, p)] == Manifest(p.content)
  }

  predicate Fits(digest: string -> string, d: Descriptors, parts: seq<Part>, k: nat)
    requires k <= |parts|
  {
    forall i | 0 <= i < k :: FitsOne(digest, d, parts[i])
  }

  predicate Present(digest: string -> string, d: Descriptors, p: Part) {
    DirName(digest, p) in d && d[DirName(digest, p)] == Manifest(p.content)
  }

  predicate Tidy(d: Descriptors) {
    forall name | name in d :: !d[name].Odd?
  }

  /** Descriptor names keep component names apart, whatever the digests do. */
  lemma DirNameTells(digest: string -> string, p: Part, q: Part)
    requires Truncated(digest) && DirName(digest, p) == DirName(digest, q)
    ensures p.name == q.name && digest(p.content) == digest(q.content)
  {
    var a, b := DirName(digest, p), DirName(digest, q);
    assert |digest(p.content)| == 16 && |digest(q.content)| == 16;
    assert p.name == a[..|a| - 17] && q.name == b[..|b| - 17];
    assert digest(p.content) == a[|a| - 16..] && digest(q.content) == b[|b| - 16..];
  }

  lemma DirNamesDiffer(digest: string -> string, parts: seq<Part>, i: nat, k: nat)
    requires Truncated(digest) && Valid(parts) && k <= i < |parts|
    ensures DirName(digest, parts[i]) !in DirNames(digest, parts, k)
    ensures !Hidden(DirName(digest, parts[i]))
  {
    if j :| 0 <= j < k && DirName(digest, parts[j]) == DirName(digest, parts[i]) {
      DirNameTells(digest, parts[i], parts[j]);
    }
  }

  /** `d` with the descriptors of the first `k` components added. */
  function With(digest: string -> string, d: Descriptors, parts: seq<Part>, k: nat): Descriptors
    requires k <= |parts|
  {
    if k == 0 then d
    else With(digest, d, parts, k - 1)[DirName(digest, parts[k - 1]) := Manifest(parts[k - 1].content)]
  }

  lemma MoreNames(digest: string -> string, parts: seq<Part>, k: nat)
    requires k < |parts|
    ensures DirNames(digest, parts, k + 1) == DirNames(digest, parts, k) + {DirName(digest, parts[k])}
  {
    forall name | name in DirNames(digest, parts, k + 1)
      ensures name in DirNames(digest, parts, k) + {DirName(digest, parts[k])}
    {
      var i :| 0 <= i < k + 1 && DirName(digest, parts[i]) == name;
    }
  }

  lemma {:induction false} WithKeys(digest: string -> string, d: Descriptors, parts: seq<Part>, k: nat)
    requires k <= |parts|
    ensures With(digest, d, parts, k).Keys == d.Keys + DirNames(digest, parts, k)
  {
    if k > 0 {
      WithKeys(digest, d, parts, k - 1);
      MoreNames(digest, parts, k - 1);
    }
  }

  /** Publishing descriptors that fit changes no entry that was there. */
  lemma {:induction false} WithKeeps(digest: string -> string, d: Descriptors, parts: seq<Part>, k: nat, name: string)
    requires k <= |parts| && Fits(digest, d, parts, k) && name in d
    ensures name in With(digest, d, parts, k) && With(digest, d, parts, k)[name] == d[name]
  {
    if k > 0 {
      WithKeeps(digest, d, parts, k - 1, name);
      assert FitsOne(digest, d, parts[k - 1]);
    }
  }

  lemma {:induction false} WithPresent(digest: string -> string, d: Descriptors, parts: seq<Part>, k: nat, i: nat)
    requires i < k <= |parts| && Truncated(digest) && Valid(parts)
    ensures Present(digest, With(digest, d, parts, k), parts[i])
  {
    if i < k - 1 {
      WithPresent(digest, d, parts, k - 1, i);
      DirNamesDiffer(digest, parts, k - 1, i + 1);
    }
  }

  /** A component of the system shares `p`'s name and truncated digest with other
      bytes. */
  ghost predicate Aliased(digest: string -> string, parts: seq<Part>, p: Part) {
    exists q :: q in parts && DirName(digest, q) == DirName(digest, p) && q.content != p.content
  }

  /** The only ways a call spoils a descriptor some system may need: it died between
      a manifest's unlink and its directory's removal, or it published different
      bytes under the same truncated digest. */
  ghost predicate Spoiled(digest: string -> string, d: Descriptors, parts: seq<Part>, p: Part, r: Ending) {
    || Aliased(digest, parts, p)
    || (r.Died? && DirName(digest, p) !in DirNames(digest, parts, |parts|)
        && DirName(digest, p) in d && d[DirName(digest, p)].Bare?)
  }

  /** What a call that stopped while publishing leaves: `k` descriptors more, and
      perhaps a temporary directory. */
  predicate Partly(digest: string -> string, before: Descriptors, parts: seq<Part>, k: nat, d: Descriptors,
                   temporary: string)
    requires k <= |parts|
  {
    Hidden(temporary) && temporary !in before && d - {temporary} == With(digest, before, parts, k)
  }

  lemma PartlyEntry(digest: string -> string, before: Descriptors, parts: seq<Part>, k: nat,
                    d: Descriptors, temporary: string, name: string)
    requires k <= |parts| && Partly(digest, before, parts, k, d, temporary) && name != temporary
    ensures name in d <==> name in With(digest, before, parts, k)
    ensures name in d ==> d[name] == With(digest, before, parts, k)[name]
  {
    assert name in d <==> name in d - {temporary};
  }

  lemma PartlyKeeps(digest: string -> string, before: Descriptors, parts: seq<Part>, k: nat,
                    d: Descriptors, temporary: string, name: string)
    requires k <= |parts| && Partly(digest, before, parts, k, d, temporary) && Fits(digest, before, parts, k)
    requires name in before
    ensures name in d && d[name] == before[name]
  {
    PartlyEntry(digest, before, parts, k, d, temporary, name);
    WithKeeps(digest, before, parts, k, name);
  }

  lemma PartlyFits(digest: string -> string, before: Descriptors, parts: seq<Part>, k: nat,
                   d: Descriptors, temporary: string)
    requires k <= |parts| && Truncated(digest) && Valid(parts) && Fits(digest, before, parts, k)
    requires Partly(digest, before, parts, k, d, temporary)
    ensures Fits(digest, d, parts, |parts|) <==> Fits(digest, before, parts, |parts|)
  {
    forall i | 0 <= i < |parts| ensures FitsOne(digest, d, parts[i]) <==> FitsOne(digest, before, parts[i]) {
      DirNamesDiffer(digest, parts, i, 0);
      PartlyEntry(digest, before, parts, k, d, temporary, DirName(digest, parts[i]));
      if i < k {
        WithPresent(digest, before, parts, k, i);
      } else {
        DirNamesDiffer(digest, parts, i, k);
        WithKeys(digest, before, parts, k);
        if DirName(digest, parts[i]) in before {
          WithKeeps(digest, before, parts, k, DirName(digest, parts[i]));
        }
      }
    }
  }

  /** A descriptor that fitted and no longer does was published with other bytes
      under its name. */
  lemma PartlySpoils(digest: string -> string, before: Descriptors, parts: seq<Part>, k: nat,
                     d: Descriptors, temporary: string, p: Part)
    requires k <= |parts| && Truncated(digest) && Valid(parts) && Fits(digest, before, parts, k)
    requires Partly(digest, before, parts, k, d, temporary) && !Hidden(p.name)
    requires FitsOne(digest, before, p) && !FitsOne(digest, d, p)
    ensures Aliased(digest, parts, p)
  {
    var name := DirName(digest, p);
    PartlyEntry(digest, before, parts, k, d, temporary, name);
    WithKeys(digest, before, parts, k);
    if name in before {
      WithKeeps(digest, before, parts, k, name);
    } else {
      var i :| 0 <= i < k && DirName(digest, parts[i]) == name;
      WithPresent(digest, before, parts, k, i);
      assert parts[i] in parts;
    }
  }

  /** The calls that publish the first `k` components. */
  function Calls(digest: string -> string, d: Descriptors, parts: seq<Part>, k: nat): nat
    requires k <= |parts|
  {
    if k == 0 then 0
    else Calls(digest, d, parts, k - 1) + (if DirName(digest, parts[k - 1]) in d then 0 else 4)
  }

  lemma {:induction false} CallsGrow(digest: string -> string, d: Descriptors, parts: seq<Part>, j: nat, k: nat)
    requires j <= k <= |parts|
    ensures Calls(digest, d, parts, j) <= Calls(digest, d, parts, k)
  {
    if j < k {
      CallsGrow(digest, d, parts, j, k - 1);
    }
  }

  function Manifests(d: Descriptors, names: set<string>): set<string> {
    set name | name in names && name in d && d[name].Manifest?
  }

  /** The calls that delete everything but `keep`: one a directory, and one a
      manifest. */
  function SweepCalls(d: Descriptors, keep: set<string>): nat {
    |d.Keys - keep| + |Manifests(d, d.Keys - keep)|
  }

  lemma UnlinkCosts(d: Descriptors, keep: set<string>, name: string)
    requires name in d && name !in keep && d[name].Manifest?
    ensures SweepCalls(d, keep) == SweepCalls(d[name := Bare], keep) + 1
  {
    var d' := d[name := Bare];
    assert d'.Keys == d.Keys;
    assert Manifests(d, d.Keys - keep) == Manifests(d', d.Keys - keep) + {name};
    assert name !in Manifests(d', d.Keys - keep);
  }

  lemma RemoveCosts(d: Descriptors, keep: set<string>, name: string)
    requires name in d && name !in keep && d[name].Bare?
    ensures SweepCalls(d, keep) == SweepCalls(d - {name}, keep) + 1
  {
    var d' := d - {name};
    assert d.Keys - keep == (d'.Keys - keep) + {name};
    assert Manifests(d, d.Keys - keep) == Manifests(d', d'.Keys - keep);
  }

  lemma SweepLeft(d: Descriptors, keep: set<string>, name: string)
    requires name in d && name !in keep
    ensures SweepCalls(d, keep) > 0
  {
    assert name in d.Keys - keep;
  }

  lemma SweepDone(d: Descriptors, keep: set<string>)
    requires forall name | name in d :: name in keep
    ensures SweepCalls(d, keep) == 0
  {
    assert d.Keys - keep == {};
    assert Manifests(d, d.Keys - keep) == {};
  }

  /** What a collection leaves: the kept entries as they were, of the others a part,
      and a directory without its manifest only where the process died. */
  predicate Swept(was: Descriptors, d: Descriptors, keep: set<string>, r: Ending) {
    && (forall name | name in was && name in keep :: name in d)
    && (forall name | name in d ::
          name in was && (d[name] == was[name] || (d[name].Bare? && name !in keep && r.Died?)))
    && (r.Done? ==> forall name | name in d :: name in keep)
    && (r.Done? ==> forall name | name in was && name !in keep :: !was[name].Odd?)
  }

  lemma WithHides(digest: string -> string, d: Descriptors, parts: seq<Part>, k: nat, name: string)
    requires k <= |parts| && Truncated(digest) && Valid(parts) && Hidden(name) && name !in d
    ensures name !in With(digest, d, parts, k)
  {
    WithKeys(digest, d, parts, k);
    if i :| 0 <= i < k && DirName(digest, parts[i]) == name {
      DirNamesDiffer(digest, parts, i, 0);
    }
  }

  /** What came before does not decide whether the next component fits. */
  lemma SameFit(digest: string -> string, d: Descriptors, parts: seq<Part>, k: nat)
    requires k < |parts| && Truncated(digest) && Valid(parts) && Fits(digest, d, parts, k)
    ensures FitsOne(digest, With(digest, d, parts, k), parts[k]) <==> FitsOne(digest, d, parts[k])
  {
    DirNamesDiffer(digest, parts, k, k);
    WithKeys(digest, d, parts, k);
    if DirName(digest, parts[k]) in d {
      WithKeeps(digest, d, parts, k, DirName(digest, parts[k]));
    }
  }

  lemma Published(digest: string -> string, before: Descriptors, parts: seq<Part>, k: nat,
                  d: Descriptors, temporary: string)
    requires k <= |parts| && Truncated(digest) && Valid(parts) && Fits(digest, before, parts, k)
    requires Partly(digest, before, parts, k, d, temporary)
    requires temporary in d ==> !d[temporary].Odd?
    ensures forall name | name in before :: name in d && d[name] == before[name]
    ensures Tidy(before) <==> Tidy(d)
    ensures Fits(digest, d, parts, |parts|) <==> Fits(digest, before, parts, |parts|)
    ensures forall p: Part | !Hidden(p.name) && FitsOne(digest, before, p) && !FitsOne(digest, d, p) ::
              Aliased(digest, parts, p)
    ensures k == |parts| ==> forall i | 0 <= i < |parts| :: Present(digest, d, parts[i])
  {
    forall name | name in before ensures name in d && d[name] == before[name] {
      PartlyKeeps(digest, before, parts, k, d, temporary, name);
    }
    PartlyFits(digest, before, parts, k, d, temporary);
    forall p: Part | !Hidden(p.name) && FitsOne(digest, before, p) && !FitsOne(digest, d, p)
      ensures Aliased(digest, parts, p)
    {
      PartlySpoils(digest, before, parts, k, d, temporary, p);
    }
    WithKeys(digest, before, parts, k);
    forall name | name in d && name !in before ensures !d[name].Odd? {
      if name != temporary {
        PartlyEntry(digest, before, parts, k, d, temporary, name);
        var i :| 0 <= i < k && DirName(digest, parts[i]) == name;
        WithPresent(digest, before, parts, k, i);
      }
    }
    if k == |parts| {
      forall i | 0 <= i < |parts| ensures Present(digest, d, parts[i]) {
        WithPresent(digest, before, parts, k, i);
        DirNamesDiffer(digest, parts, i, 0);
        PartlyEntry(digest, before, parts, k, d, temporary, DirName(digest, parts[i]));
      }
    }
  }

  lemma Collected(digest: string -> string, before: Descriptors, parts: seq<Part>,
                  written: Descriptors, d: Descriptors, r: Ending)
    requires forall i | 0 <= i < |parts| :: Present(digest, written, parts[i])
    requires forall p: Part | !Hidden(p.name) && FitsOne(digest, before, p) && !FitsOne(digest, written, p) ::
               Aliased(digest, parts, p)
    requires Swept(written, d, DirNames(digest, parts, |parts|), r)
    ensures forall i | 0 <= i < |parts| :: Present(digest, d, parts[i])
    ensures Fits(digest, d, parts, |parts|)
    ensures r.Done? ==> d.Keys == DirNames(digest, parts, |parts|) && Tidy(written)
    ensures Tidy(written) ==> Tidy(d)
    ensures forall p: Part | !Hidden(p.name) && FitsOne(digest, before, p) && !FitsOne(digest, d, p) ::
              Spoiled(digest, d, parts, p, r)
  {
    var keep := DirNames(digest, parts, |parts|);
    forall i | 0 <= i < |parts| ensures Present(digest, d, parts[i]) {
      assert Present(digest, written, parts[i]) && DirName(digest, parts[i]) in keep;
    }
    assert forall name | name in keep :: name in written && written[name].Manifest?;
    forall p: Part | !Hidden(p.name) && FitsOne(digest, before, p) && !FitsOne(digest, d, p)
      ensures Spoiled(digest, d, parts, p, r)
    {
      if FitsOne(digest, written, p) {
        assert DirName(digest, p) in d && d[DirName(digest, p)] != written[DirName(digest, p)];
      }
    }
  }

  /** The calls a process needs to select a system and tidy up after it. */
  function AllCalls(digest: string -> string, d: Descriptors, parts: seq<Part>): nat {
    var written := With(digest, d, parts, |parts|);
    Calls(digest, d, parts, |parts|) + 1 + SweepCalls(written, DirNames(digest, parts, |parts|))
  }

  /** Nothing is in the way, and the process lives long enough. */
  predicate Finishes(digest: string -> string, d: Descriptors, parts: seq<Part>, life: nat) {
    Tidy(d) && Fits(digest, d, parts, |parts|) && life >= AllCalls(digest, d, parts)
  }

  /** Component `u` is the first whose descriptor is there with other contents. */
  predicate FirstMisfit(digest: string -> string, d: Descriptors, parts: seq<Part>, u: nat) {
    u < |parts| && Fits(digest, d, parts, u) && !FitsOne(digest, d, parts[u])
  }

  /** What collection left, and how many calls of it were still to come. */
  ghost predicate Cut(digest: string -> string, before: Descriptors, d: Descriptors, parts: seq<Part>, life: nat,
                      left: nat, r: Ending)
  {
    var written, keep := With(digest, before, parts, |parts|), DirNames(digest, parts, |parts|);
    && Swept(written, d, keep, r)
    && left + AllCalls(digest, before, parts) == life + SweepCalls(d, keep)
  }

  /** An entry that a call leaves under a name that is no temporary of its own: what
      was there, or a descriptor of the system, or one that the death of the process
      left half-deleted. */
  ghost predicate Explained(digest: string -> string, before: Descriptors, d: Descriptors, parts: seq<Part>, r: Ending,
                         name: string)
    requires name in d
  {
    || (name in before && d[name] == before[name])
    || (exists i | 0 <= i < |parts| :: DirName(digest, parts[i]) == name && d[name] == Manifest(parts[i].content))
    || (name in before && d[name].Bare? && r.Died? && name !in DirNames(digest, parts, |parts|))
  }

  ghost predicate Leaves(digest: string -> string, before: Descriptors, d: Descriptors, parts: seq<Part>,
                         temporaries: seq<string>, r: Ending)
  {
    forall name | name in d && name !in temporaries :: Explained(digest, before, d, parts, r, name)
  }

  lemma MisfitIsFirst(digest: string -> string, d: Descriptors, parts: seq<Part>, u: nat, k: nat)
    requires FirstMisfit(digest, d, parts, u) && k <= |parts| && Fits(digest, d, parts, k)
    ensures k <= u && (k < |parts| && !FitsOne(digest, d, parts[k]) ==> k == u)
    ensures k < |parts| && FitsOne(digest, d, parts[k]) ==>
              k < u && Calls(digest, d, parts, k + 1) <= Calls(digest, d, parts, u)
  {
    if k < |parts| && FitsOne(digest, d, parts[k]) {
      CallsGrow(digest, d, parts, k + 1, u);
    }
  }

  lemma {:induction false} WithEntries(digest: string -> string, d: Descriptors, parts: seq<Part>, k: nat, name: string)
    requires k <= |parts| && name in With(digest, d, parts, k)
    ensures var e := With(digest, d, parts, k)[name];
            || (name in d && e == d[name])
            || exists i | 0 <= i < k :: DirName(digest, parts[i]) == name && e == Manifest(parts[i].content)
  {
    if k > 0 && name != DirName(digest, parts[k - 1]) {
      WithEntries(digest, d, parts, k - 1, name);
    }
  }

  lemma PublishedLeaves(digest: string -> string, before: Descriptors, parts: seq<Part>, k: nat, d: Descriptors,
                        temporary: string, temporaries: seq<string>, r: Ending)
    requires k <= |parts| && Partly(digest, before, parts, k, d, temporary)
    requires temporary in temporaries || temporary !in d
    ensures Leaves(digest, before, d, parts, temporaries, r)
  {
    forall name | name in d && name !in temporaries ensures Explained(digest, before, d, parts, r, name) {
      PartlyEntry(digest, before, parts, k, d, temporary, name);
      WithEntries(digest, before, parts, k, name);
    }
  }

  /** Kept descriptors are manifests, so only others can be odd. */
  lemma OddOnlyOutside(digest: string -> string, parts: seq<Part>, written: Descriptors)
    requires forall i | 0 <= i < |parts| :: Present(digest, written, parts[i])
    ensures Tidy(written) <==>
            forall name | name in written && name !in DirNames(digest, parts, |parts|) :: !written[name].Odd?
  {
    forall name | name in DirNames(digest, parts, |parts|) ensures name in written && !written[name].Odd? {
      var i :| 0 <= i < |parts| && DirName(digest, parts[i]) == name;
      assert Present(digest, written, parts[i]);
    }
  }

  lemma StillPresent(digest: string -> string, before: Descriptors, d: Descriptors, parts: seq<Part>)
    requires forall name | name in before :: name in d && d[name] == before[name]
    requires forall i | 0 <= i < |parts| :: Present(digest, before, parts[i])
    ensures forall i | 0 <= i < |parts| :: Present(digest, d, parts[i])
  {
  }

  lemma SweptLeaves(digest: string -> string, before: Descriptors, written: Descriptors, d: Descriptors,
                    r: Ending, parts: seq<Part>, temporaries: seq<string>)
    requires Swept(written, d, DirNames(digest, parts, |parts|), r)
    requires Leaves(digest, before, written, parts, temporaries, Done)
    ensures Leaves(digest, before, d, parts, temporaries, r)
  {
    forall name | name in d && name !in temporaries ensures Explained(digest, before, d, parts, r, name) {
      assert Explained(digest, before, written, parts, Done, name);
    }
  }

  lemma MisfitMeans(digest: string -> string, d: Descriptors, parts: seq<Part>, u: nat)
    requires u < |parts| && !FitsOne(digest, d, parts[u])
    ensures !Fits(digest, d, parts, |parts|)
  {
  }

  lemma SpoiledByAlias(digest: string -> string, before: Descriptors, d: Descriptors, parts: seq<Part>, r: Ending)
    requires forall p: Part | !Hidden(p.name) && FitsOne(digest, before, p) && !FitsOne(digest, d, p) ::
               Aliased(digest, parts, p)
    ensures forall p: Part | !Hidden(p.name) && FitsOne(digest, before, p) && !FitsOne(digest, d, p) ::
              Spoiled(digest, d, parts, p, r)
  {
  }

  // ---- one system after another ----

  /** Each component is what its directory name stands for. */
  predicate Coherent(digest: string -> string, bytes: string -> string, parts: seq<Part>) {
    forall i | 0 <= i < |parts| :: bytes(DirName(digest, parts[i])) == parts[i].content
  }

  /** Nothing odd, and under names that are not temporary only empty directories and
      what the name stands for. */
  predicate Pure(bytes: string -> string, d: Descriptors) {
    forall name | name in d ::
      !d[name].Odd? && (Hidden(name) || d[name].Bare? || d[name] == Manifest(bytes(name)))
  }

  predicate HalfGone(d: Descriptors, name: string) {
    name in d && d[name].Bare? && !Hidden(name)
  }

  /** A directory that the system needs is there without its manifest. */
  predicate HalfDeleted(digest: string -> string, d: Descriptors, parts: seq<Part>) {
    exists i | 0 <= i < |parts| :: HalfGone(d, DirName(digest, parts[i]))
  }

  /** How one attempt goes among any systems: refused only where a descriptor it needs
      is there with other contents, and always then if it lives to reach it; otherwise
      well exactly when it lives long enough.  A descriptor that fitted stops fitting only
      by a death between unlink and removal, or by a truncated digest shared. */
  ghost predicate Goes(digest: string -> string, d: Descriptors, d': Descriptors, parts: seq<Part>,
                       temporaries: seq<string>, life: nat, r: Ending)
  {
    && (r.Refused? ==> !Fits(digest, d, parts, |parts|))
    && (!Fits(digest, d, parts, |parts|) && life >= Calls(digest, d, parts, |parts|) ==> r.Refused?)
    && (r.Done? <==> Fits(digest, d, parts, |parts|) && life >= AllCalls(digest, d, parts))
    && (r.Done? ==> d'.Keys == DirNames(digest, parts, |parts|))
    && Tidy(d') && Leaves(digest, d, d', parts, temporaries, r)
    && (forall p: Part | !Hidden(p.name) && FitsOne(digest, d, p) && !FitsOne(digest, d', p) ::
          Spoiled(digest, d', parts, p, r))
  }

  /** What `Materialize` promises, read as `Goes`. */
  lemma CallGoes(digest: string -> string, d: Descriptors, d': Descriptors, parts: seq<Part>, temporaries: seq<string>,
                 life: nat, r: Ending)
    requires Tidy(d) && Tidy(d') && Leaves(digest, d, d', parts, temporaries, r)
    requires r.Done? <==> Finishes(digest, d, parts, life)
    requires r.Done? ==> d'.Keys == DirNames(digest, parts, |parts|)
    requires r.Refused? ==> !Fits(digest, d, parts, |parts|)
    requires forall u | FirstMisfit(digest, d, parts, u) :: r.Refused? <==> life >= Calls(digest, d, parts, u)
    requires forall p: Part | !Hidden(p.name) && FitsOne(digest, d, p) && !FitsOne(digest, d', p) ::
               Spoiled(digest, d', parts, p, r)
    ensures Goes(digest, d, d', parts, temporaries, life, r)
  {
    hide Calls, AllCalls, Leaves, Spoiled, FitsOne, Tidy;
    if !Fits(digest, d, parts, |parts|) {
      var u := FirstMisfitExists(digest, d, parts, |parts|);
      CallsGrow(digest, d, parts, u, |parts|);
    }
  }

  /** How one attempt among coherent systems goes: refused only over a half-deleted
      directory it needs, and always then if it lives to reach it; otherwise well
      exactly when it lives long enough; a directory becomes half-deleted only where an
      attempt that does not need it dies; and an attempt that ends well leaves none. */
  ghost predicate Told(digest: string -> string, d: Descriptors, d': Descriptors, parts: seq<Part>, life: nat,
                       r: Ending)
  {
    && (r.Refused? ==> HalfDeleted(digest, d, parts))
    && (HalfDeleted(digest, d, parts) && life >= Calls(digest, d, parts, |parts|) ==> r.Refused?)
    && (r.Done? <==> !HalfDeleted(digest, d, parts) && life >= AllCalls(digest, d, parts))
    && (r.Done? ==> forall name :: !HalfGone(d', name))
    && (forall name | HalfGone(d', name) && !HalfGone(d, name) ::
          r.Died? && name !in DirNames(digest, parts, |parts|))
  }

  lemma FitsUnlessHalf(digest: string -> string, bytes: string -> string, d: Descriptors, parts: seq<Part>)
    requires Truncated(digest) && Valid(parts) && Pure(bytes, d) && Coherent(digest, bytes, parts)
    ensures Tidy(d) && (Fits(digest, d, parts, |parts|) <==> !HalfDeleted(digest, d, parts))
  {
    forall i | 0 <= i < |parts| ensures FitsOne(digest, d, parts[i]) <==> !HalfGone(d, DirName(digest, parts[i])) {
      DirNamesDiffer(digest, parts, i, 0);
    }
  }

  lemma {:induction false} FirstMisfitExists(digest: string -> string, d: Descriptors, parts: seq<Part>, k: nat)
    returns (u: nat)
    requires k <= |parts| && !Fits(digest, d, parts, k)
    ensures FirstMisfit(digest, d, parts, u) && u < k
  {
    if Fits(digest, d, parts, k - 1) {
      u := k - 1;
    } else {
      u := FirstMisfitExists(digest, d, parts, k - 1);
    }
  }

  lemma StepTold(digest: string -> string, bytes: string -> string, d: Descriptors, d': Descriptors, parts: seq<Part>,
                 temporaries: seq<string>, life: nat, r: Ending)
    requires Truncated(digest) && Valid(parts) && Pure(bytes, d) && Coherent(digest, bytes, parts)
    requires forall i | 0 <= i < |temporaries| :: Hidden(temporaries[i])
    requires Goes(digest, d, d', parts, temporaries, life, r)
    ensures Told(digest, d, d', parts, life, r)
  {
    hide Calls, AllCalls, Spoiled;
    FitsUnlessHalf(digest, bytes, d, parts);
    forall name | HalfGone(d', name)
      ensures HalfGone(d, name) || (r.Died? && name !in DirNames(digest, parts, |parts|))
      ensures !r.Done?
    {
      assert Explained(digest, d, d', parts, r, name);
    }
  }

  lemma StaysPure(digest: string -> string, bytes: string -> string, d: Descriptors, d': Descriptors, parts: seq<Part>,
                  temporaries: seq<string>, r: Ending)
    requires Pure(bytes, d) && Coherent(digest, bytes, parts) && Tidy(d')
    requires forall i | 0 <= i < |temporaries| :: Hidden(temporaries[i])
    requires Leaves(digest, d, d', parts, temporaries, r)
    ensures Pure(bytes, d')
  {
    forall name | name in d' && !Hidden(name)
      ensures d'[name].Bare? || d'[name] == Manifest(bytes(name))
    {
      assert Explained(digest, d, d', parts, r, name);
    }
  }

  /** Attempt `i` of a sequence of coherent systems. */
  ghost predicate Attempt(digest: string -> string, bytes: string -> string, trace: seq<Descriptors>,
                          systems: seq<seq<Part>>, temporaries: seq<seq<string>>, lives: seq<nat>,
                          endings: seq<Ending>, i: nat)
    requires i + 1 < |trace| && i < |systems| && |lives| == |systems| == |endings| == |temporaries|
  {
    && Valid(systems[i]) && Coherent(digest, bytes, systems[i])
    && (forall k | 0 <= k < |temporaries[i]| :: Hidden(temporaries[i][k]))
    && Goes(digest, trace[i], trace[i + 1], systems[i], temporaries[i], lives[i], endings[i])
  }

  lemma CoherentAttempt(digest: string -> string, bytes: string -> string, trace: seq<Descriptors>,
                        systems: seq<seq<Part>>, temporaries: seq<seq<string>>, lives: seq<nat>,
                        endings: seq<Ending>, i: nat)
    requires i + 1 < |trace| && i < |systems| && |lives| == |systems| == |endings| == |temporaries|
    requires Truncated(digest) && Pure(bytes, trace[i])
    requires Attempt(digest, bytes, trace, systems, temporaries, lives, endings, i)
    ensures Pure(bytes, trace[i + 1]) && Told(digest, trace[i], trace[i + 1], systems[i], lives[i], endings[i])
  {
    hide Told, Pure, Coherent, Truncated, Valid, Leaves, Spoiled, Fits, FitsOne, Calls, AllCalls, Tidy;
    StepTold(digest, bytes, trace[i], trace[i + 1], systems[i], temporaries[i], lives[i], endings[i]);
    StaysPure(digest, bytes, trace[i], trace[i + 1], systems[i], temporaries[i], endings[i]);
  }

  /** When no two different contents share a directory name, as `bytes` says, the only
      thing that any attempt in a sequence can be refused over is a half-deleted
      directory. */
  lemma {:induction false} CoherentUpgrades(digest: string -> string, bytes: string -> string, trace: seq<Descriptors>,
                                            systems: seq<seq<Part>>, temporaries: seq<seq<string>>, lives: seq<nat>,
                                            endings: seq<Ending>, n: nat)
    requires Truncated(digest) && n < |trace| && n <= |systems| && |lives| == |systems| == |endings| == |temporaries|
    requires forall i | 0 <= i < n :: Attempt(digest, bytes, trace, systems, temporaries, lives, endings, i)
    requires Pure(bytes, trace[0])
    ensures Pure(bytes, trace[n])
    ensures forall i | 0 <= i < n :: Told(digest, trace[i], trace[i + 1], systems[i], lives[i], endings[i])
  {
    hide Attempt, Told, Pure, Truncated;
    if n > 0 {
      CoherentUpgrades(digest, bytes, trace, systems, temporaries, lives, endings, n - 1);
      CoherentAttempt(digest, bytes, trace, systems, temporaries, lives, endings, n - 1);
    }
  }

  /** What blocks a later system: an attempt died between a manifest's unlink and its
      directory's removal, and since then none has ended well. */
  lemma {:induction false} BlockedBecause(digest: string -> string, trace: seq<Descriptors>, systems: seq<seq<Part>>,
                                          lives: seq<nat>, endings: seq<Ending>, n: nat, name: string)
    returns (i: nat)
    requires n < |trace| && n <= |systems| && |lives| == |systems| == |endings|
    requires forall k | 0 <= k < n :: Told(digest, trace[k], trace[k + 1], systems[k], lives[k], endings[k])
    requires !HalfGone(trace[0], name) && HalfGone(trace[n], name)
    ensures i < n && endings[i].Died? && name !in DirNames(digest, systems[i], |systems[i]|)
    ensures !HalfGone(trace[i], name) && forall k | i < k <= n :: HalfGone(trace[k], name)
    ensures forall k | i < k < n :: !endings[k].Done?
  {
    assert Told(digest, trace[n - 1], trace[n], systems[n - 1], lives[n - 1], endings[n - 1]);
    if HalfGone(trace[n - 1], name) {
      i := BlockedBecause(digest, trace, systems, lives, endings, n - 1, name);
    } else {
      i := n - 1;
    }
  }

  /** The temporary names of attempt `i` and later are random and not taken. */
  predicate Fresh(systems: seq<seq<Part>>, temporaries: seq<seq<string>>, d: Descriptors, i: nat)
  {
    && |temporaries| == |systems| && "" !in d
    && (forall k | 0 <= k < |systems| :: |temporaries[k]| == |systems[k]|)
    && (forall k, t | i <= k < |systems| && t in temporaries[k] :: Hidden(t) && t != "" && t !in d)
    && (forall k, l, t | i <= k < l < |systems| && t in temporaries[k] :: t !in temporaries[l])
  }

  function Same(parts: seq<Part>, n: nat): seq<seq<Part>> { seq(n, _ => parts) }

  lemma StaysFresh(digest: string -> string, systems: seq<seq<Part>>, temporaries: seq<seq<string>>, d: Descriptors,
                   d': Descriptors, i: nat, r: Ending)
    requires i < |systems| && Fresh(systems, temporaries, d, i) && Truncated(digest) && Valid(systems[i])
    requires Leaves(digest, d, d', systems[i], temporaries[i], r)
    ensures Fresh(systems, temporaries, d', i + 1)
  {
    forall name | name in d' ensures name in d || name in temporaries[i] || !Hidden(name) {
      if name !in temporaries[i] {
        assert Explained(digest, d, d', systems[i], r, name);
        if name !in d {
          var n :| 0 <= n < |systems[i]| && DirName(digest, systems[i][n]) == name;
          DirNamesDiffer(digest, systems[i], n, 0);
        }
      }
    }
  }

  // ---- one component at a time ----

  lemma SingleNames(digest: string -> string, p: Part)
    ensures DirNames(digest, [p], 1) == {DirName(digest, p)}
  {
    assert DirName(digest, [p][0]) in DirNames(digest, [p], 1);
  }

  lemma SingleCalls(digest: string -> string, d: Descriptors, p: Part)
    requires DirName(digest, p) !in d
    ensures With(digest, d, [p], 1) == d[DirName(digest, p) := Manifest(p.content)]
    ensures Calls(digest, d, [p], 1) == 4
    ensures AllCalls(digest, d, [p]) == 5 + SweepCalls(d, {})
  {
    var written := With(digest, d, [p], 1);
    assert With(digest, d, [p], 0) == d && Calls(digest, d, [p], 0) == 0;
    SingleNames(digest, p);
    assert written.Keys - {DirName(digest, p)} == d.Keys;
    assert Manifests(written, d.Keys) == Manifests(d, d.Keys);
    assert d.Keys - {} == d.Keys;
  }

  lemma FirstCalls(digest: string -> string, p: Part)
    ensures Finishes(digest, map[], [p], 5)
  {
    SingleCalls(digest, map[], p);
    assert SweepCalls(map[], {}) == 0;
  }

  lemma OnlyOne(digest: string -> string, p: Part, d: Descriptors)
    requires d.Keys == DirNames(digest, [p], 1) && Present(digest, d, [p][0])
    ensures d == map[DirName(digest, p) := Manifest(p.content)]
  {
    SingleNames(digest, p);
  }

  lemma SecondCalls(digest: string -> string, p: Part, q: Part)
    requires DirName(digest, p) != DirName(digest, q)
    ensures var d := map[DirName(digest, p) := Manifest(p.content)];
            && AllCalls(digest, d, [q]) == 7 && Calls(digest, d, [q], 1) == 4 && Fits(digest, d, [q], 1)
  {
    var d := map[DirName(digest, p) := Manifest(p.content)];
    SingleCalls(digest, d, q);
    assert d.Keys - {} == {DirName(digest, p)} && Manifests(d, d.Keys - {}) == {DirName(digest, p)};
  }

  /** With one call too few, what is left is the directory without its manifest. */
  lemma CutShort(digest: string -> string, p: Part, q: Part, d: Descriptors, left: nat, r: Ending)
    requires DirName(digest, p) != DirName(digest, q) && r.Died? && left == 0
    requires Cut(digest, map[DirName(digest, p) := Manifest(p.content)], d, [q], 6, left, r)
    ensures d == map[DirName(digest, p) := Bare, DirName(digest, q) := Manifest(q.content)]
  {
    var before, keep := map[DirName(digest, p) := Manifest(p.content)], {DirName(digest, q)};
    SecondCalls(digest, p, q);
    SingleNames(digest, q);
    SingleCalls(digest, before, q);
    assert SweepCalls(d, keep) == 1;
    SweepOfOne(d, keep, DirName(digest, p));
  }

  lemma SweepOfOne(d: Descriptors, keep: set<string>, name: string)
    requires d.Keys - keep <= {name}
    ensures SweepCalls(d, keep) == if name !in d || name in keep then 0 else if d[name].Manifest? then 2 else 1
  {
    var rest := d.Keys - keep;
    assert rest == if name !in d || name in keep then {} else {name};
    assert Manifests(d, rest) == if rest != {} && d[name].Manifest? then {name} else {};
  }

  lemma SingleValid(digest: string -> string, p: Part, temporary: string)
    requires Truncated(digest) && !Hidden(p.name) && Hidden(temporary)
    ensures Valid([p]) && temporary != DirName(digest, p) && "" != DirName(digest, p)
  {
    DirNamesDiffer(digest, [p], 0, 0);
  }

  /** On the directory that holds just `p`, six calls select `q` and stop one short. */
  lemma SecondStops(digest: string -> string, p: Part, q: Part)
    requires DirName(digest, p) != DirName(digest, q)
    ensures var d := map[DirName(digest, p) := Manifest(p.content)];
            && !Finishes(digest, d, [q], 6) && Tidy(d) && Fits(digest, d, [q], 1) && 6 > Calls(digest, d, [q], 1)
  {
    SecondCalls(digest, p, q);
  }

  lemma ThirdMisfits(digest: string -> string, p: Part, q: Part)
    requires DirName(digest, p) != DirName(digest, q)
    ensures var d := map[DirName(digest, p) := Bare, DirName(digest, q) := Manifest(q.content)];
            FirstMisfit(digest, d, [p], 0) && Calls(digest, d, [p], 0) == 0 && !Fits(digest, d, [p], 1)
  {
    var d := map[DirName(digest, p) := Bare, DirName(digest, q) := Manifest(q.content)];
    assert !FitsOne(digest, d, [p][0]);
  }

  lemma WrittenFirst(digest: string -> string, before: Descriptors, parts: seq<Part>)
    ensures With(digest, before, parts, 0) == before
    ensures Calls(digest, before, parts, 0) == 0 && Fits(digest, before, parts, 0)
  {
  }

  /** What publishing component `k` needs and does. */
  lemma WrittenNext(digest: string -> string, before: Descriptors, parts: seq<Part>, k: nat, temporary: string)
    requires k < |parts| && Truncated(digest) && Valid(parts) && Fits(digest, before, parts, k)
    requires Hidden(temporary) && temporary !in before
    ensures var d, name := With(digest, before, parts, k), DirName(digest, parts[k]);
            && temporary !in d && temporary != name
            && (FitsOne(digest, d, parts[k]) <==> FitsOne(digest, before, parts[k]))
            && (FitsOne(digest, before, parts[k]) ==> Fits(digest, before, parts, k + 1))
            && With(digest, before, parts, k + 1) == d[name := Manifest(parts[k].content)]
            && Calls(digest, before, parts, k + 1)
               == Calls(digest, before, parts, k) + (if name in d then 0 else 4)
  {
    DirNamesDiffer(digest, parts, k, k);
    WithKeys(digest, before, parts, k);
    WithHides(digest, before, parts, k, temporary);
    SameFit(digest, before, parts, k);
  }

  class Materializer {
    const digest: string -> string
    var descriptors: Descriptors
    var selected: Option<seq<Part>>
    var life: nat

    /** The selected system names only directories that hold exactly the bytes
        rendered for their components. */
    predicate Intact()
      reads this
    {
      selected.Some? ==> forall i | 0 <= i < |selected.value| :: Present(digest, descriptors, selected.value[i])
    }

    constructor (digest: string -> string)
      ensures descriptors == map[] && selected == None && this.digest == digest && Intact()
    {
      this.digest := digest;
      descriptors, selected, life := map[], None, 0;
    }

    /** Publish one descriptor: in a temporary directory first, then by rename.  An
        existing directory is used only with exactly these bytes.  `torn` is what a
        death inside the write leaves. */
    method WriteDescriptor(p: Part, temporary: string, torn: string) returns (r: Ending)
      requires temporary !in descriptors && temporary != DirName(digest, p)
      modifies this
      ensures selected == old(selected)
      ensures r.Died? ==> life == 0
      ensures r.Refused? <==> !FitsOne(digest, old(descriptors), p)
      ensures r.Died? <==> DirName(digest, p) !in old(descriptors) && old(life) < 4
      ensures r.Done? ==> life == old(life) - (if DirName(digest, p) in old(descriptors) then 0 else 4)
      ensures r.Done? ==> descriptors == old(descriptors)[DirName(digest, p) := Manifest(p.content)]
      ensures !r.Done? ==> descriptors - {temporary} == old(descriptors)
                           && (temporary in descriptors ==> !descriptors[temporary].Odd?)
    {
      var directory := DirName(digest, p);
      assert descriptors - {temporary} == descriptors;
      if directory in descriptors {
        if descriptors[directory] != Manifest(p.content) {
          return Refused;
        }
        assert descriptors == descriptors[directory := Manifest(p.content)];
        return Done;
      }
      if life == 0 {
        return Died;
      }
      descriptors, life := descriptors[temporary := Bare], life - 1;
      assert descriptors - {temporary} == old(descriptors);
      if life == 0 {
        return Died;
      }
      descriptors, life := descriptors[temporary := Manifest(torn)], life - 1;
      assert descriptors - {temporary} == old(descriptors);
      if life == 0 {
        return Died;
      }
      descriptors, life := descriptors[temporary := Manifest(p.content)], life - 1;
      assert descriptors - {temporary} == old(descriptors);
      if life == 0 {
        return Died;
      }
      descriptors, life := (descriptors - {temporary})[directory := Manifest(p.content)], life - 1;
      r := Done;
    }

    /** Publish the descriptors of a system in turn.  `k` of them are there when it
        stops; one that does not fit is refused, never aliased. */
    method WriteDescriptors(parts: seq<Part>, temporaries: seq<string>, torn: string)
      returns (r: Ending, k: nat, temporary: string)
      requires Truncated(digest) && Valid(parts) && |temporaries| == |parts|
      requires forall i | 0 <= i < |parts| :: Hidden(temporaries[i]) && temporaries[i] !in descriptors
      requires "" !in descriptors
      modifies this
      ensures selected == old(selected)
      ensures k <= |parts| && Fits(digest, old(descriptors), parts, k)
      ensures Partly(digest, old(descriptors), parts, k, descriptors, temporary)
      ensures temporary in descriptors ==> !descriptors[temporary].Odd?
      ensures r.Done? ==> k == |parts| && descriptors == With(digest, old(descriptors), parts, k)
      ensures r.Done? ==> life == old(life) - Calls(digest, old(descriptors), parts, |parts|)
      ensures r.Refused? ==> k < |parts| && !FitsOne(digest, old(descriptors), parts[k])
                             && old(life) >= Calls(digest, old(descriptors), parts, k)
      ensures r.Died? ==> life == 0 && k < |parts| && FitsOne(digest, old(descriptors), parts[k])
                          && old(life) < Calls(digest, old(descriptors), parts, k + 1)
      ensures temporary in temporaries || temporary !in descriptors
    {
      k, temporary := 0, "";
      ghost var before := descriptors;
      WrittenFirst(digest, before, parts);
      hide Truncated, Valid, Fits, FitsOne, With, Calls, DirName, DirNames, Hidden;
      while k < |parts|
        invariant k <= |parts| && selected == old(selected) && temporary == ""
        invariant descriptors == With(digest, before, parts, k)
        invariant Fits(digest, before, parts, k)
        invariant life == old(life) - Calls(digest, before, parts, k)
      {
        WrittenNext(digest, before, parts, k, temporaries[k]);
        r := WriteDescriptor(parts[k], temporaries[k], torn);
        if !r.Done? {
          return r, k, temporaries[k];
        }
        k := k + 1;
      }
      WithHides(digest, before, parts, k, "");
      assert descriptors - {""} == descriptors;
      r := Done;
    }

    /** Delete every descriptor that is not kept, manifest first.  Each call brings the
        end one call nearer, so the number of calls left says how far a process got
        that died. */
    method RemoveUnusedDescriptors(keep: set<string>) returns (r: Ending)
      modifies this
      ensures selected == old(selected)
      ensures r.Died? ==> life == 0
      ensures r.Refused? ==> exists name :: name in old(descriptors) && name !in keep && old(descriptors)[name].Odd?
      ensures r.Done? <==> (forall name | name in old(descriptors) && name !in keep :: !old(descriptors)[name].Odd?)
                           && old(life) >= SweepCalls(old(descriptors), keep)
      ensures life + SweepCalls(old(descriptors), keep) == old(life) + SweepCalls(descriptors, keep)
      ensures Swept(old(descriptors), descriptors, keep, r)
    {
      hide SweepCalls, Manifests;
      ghost var was := descriptors;
      var todo := descriptors.Keys - keep;
      while todo != {}
        invariant forall name | name in todo :: name in was && name !in keep
        invariant selected == old(selected)
        invariant forall name :: name in descriptors <==> name in was && (name in keep || name in todo)
        invariant forall name | name in descriptors :: descriptors[name] == was[name]
        invariant forall name | name in was && name !in keep && name !in todo :: !was[name].Odd?
        invariant life + SweepCalls(was, keep) == old(life) + SweepCalls(descriptors, keep)
        decreases |todo|
      {
        var path :| path in todo;
        SweepLeft(descriptors, keep, path);
        if descriptors[path].Odd? {
          return Refused;
        }
        if life == 0 {
          return Died;
        }
        if descriptors[path].Manifest? {
          UnlinkCosts(descriptors, keep, path);
          descriptors, life := descriptors[path := Bare], life - 1;
          SweepLeft(descriptors, keep, path);
          if life == 0 {
            return Died;
          }
        }
        RemoveCosts(descriptors, keep, path);
        descriptors, life := descriptors - {path}, life - 1;
        todo := todo - {path};
      }
      SweepDone(descriptors, keep);
      r := Done;
    }

    /** Select one system.  However it ends, the selected system file names only
        complete descriptors.  It ends well exactly when nothing odd is in
        `descriptors/`, no descriptor it needs is there with other contents, and the
        process lives for every call; then `descriptors/` holds the selected descriptors
        and nothing else. */
    method Materialize(parts: seq<Part>, temporaries: seq<string>, torn: string) returns (r: Ending)
      requires Truncated(digest) && Valid(parts) && Intact() && |temporaries| == |parts|
      requires forall i | 0 <= i < |parts| :: Hidden(temporaries[i]) && temporaries[i] !in descriptors
      requires "" !in descriptors
      modifies this
      ensures Intact()
      ensures selected == old(selected) || selected == Some(parts)
      ensures r.Done? <==> Finishes(digest, old(descriptors), parts, old(life))
      ensures r.Done? ==> selected == Some(parts) && descriptors.Keys == DirNames(digest, parts, |parts|)
      ensures r.Died? ==> life == 0
      ensures r.Refused? ==> !Tidy(old(descriptors)) || !Fits(digest, old(descriptors), parts, |parts|)
      ensures forall u | FirstMisfit(digest, old(descriptors), parts, u) ::
                r.Refused? <==> old(life) >= Calls(digest, old(descriptors), parts, u)
      ensures !Fits(digest, old(descriptors), parts, |parts|) ==> selected == old(selected)
      ensures Fits(digest, old(descriptors), parts, |parts|)
              && old(life) > Calls(digest, old(descriptors), parts, |parts|) ==>
                selected == Some(parts) && Cut(digest, old(descriptors), descriptors, parts, old(life), life, r)
      ensures Fits(digest, descriptors, parts, |parts|) <==> Fits(digest, old(descriptors), parts, |parts|)
      ensures Tidy(old(descriptors)) ==> Tidy(descriptors)
      ensures Leaves(digest, old(descriptors), descriptors, parts, temporaries, r)
      ensures forall p: Part |
                !Hidden(p.name) && FitsOne(digest, old(descriptors), p) && !FitsOne(digest, descriptors, p) ::
                Spoiled(digest, descriptors, parts, p, r)
    {
      hide Truncated, Valid, Hidden, Tidy, FitsOne, Fits, Present, Aliased, Spoiled, With, Calls, SweepCalls, DirNames;
      hide DirName, Manifests, Partly, Leaves, Swept;
      ghost var before, was := descriptors, selected;
      var k, temporary;
      r, k, temporary := WriteDescriptors(parts, temporaries, torn);
      Published(digest, before, parts, k, descriptors, temporary);
      PublishedLeaves(digest, before, parts, k, descriptors, temporary, temporaries, r);
      forall u | FirstMisfit(digest, before, parts, u)
        ensures r.Refused? <==> old(life) >= Calls(digest, before, parts, u)
        ensures !r.Done? && !Fits(digest, before, parts, |parts|)
      {
        MisfitIsFirst(digest, before, parts, u, k);
        MisfitMeans(digest, before, parts, u);
      }
      if was.Some? {
        StillPresent(digest, before, descriptors, was.value);
      }
      if !r.Done? {
        if r.Died? {
          CallsGrow(digest, before, parts, k + 1, |parts|);
        } else {
          MisfitMeans(digest, before, parts, k);
        }
        SpoiledByAlias(digest, before, descriptors, parts, r);
        return;
      }
      if life == 0 {
        SpoiledByAlias(digest, before, descriptors, parts, Died);
        PublishedLeaves(digest, before, parts, k, descriptors, temporary, temporaries, Died);
        return Died;
      }
      ghost var written := descriptors;
      selected, life := Some(parts), life - 1;
      r := RemoveUnusedDescriptors(DirNames(digest, parts, |parts|));
      Collected(digest, before, parts, written, descriptors, r);
      SweptLeaves(digest, before, written, descriptors, r, parts, temporaries);
      OddOnlyOutside(digest, parts, written);
    }

    /** However many attempts at one system died before, and wherever, none is refused,
        and exactly the attempts that live for every call they find to do end well. */
    method Retry(parts: seq<Part>, lives: seq<nat>, temporaries: seq<seq<string>>, torn: string)
      returns (endings: seq<Ending>, ghost trace: seq<Descriptors>)
      requires Truncated(digest) && Valid(parts) && Intact()
      requires Tidy(descriptors) && Fits(digest, descriptors, parts, |parts|)
      requires Fresh(Same(parts, |lives|), temporaries, descriptors, 0)
      modifies this
      ensures Intact() && Tidy(descriptors) && Fits(digest, descriptors, parts, |parts|)
      ensures |endings| == |lives| && |trace| == |lives| + 1
      ensures trace[0] == old(descriptors) && trace[|lives|] == descriptors
      ensures forall k | 0 <= k < |lives| ::
                endings[k] == if lives[k] >= AllCalls(digest, trace[k], parts) then Done else Died
      ensures forall k | 0 <= k < |lives| && endings[k].Done? :: trace[k + 1].Keys == DirNames(digest, parts, |parts|)
    {
      hide Calls, AllCalls, Leaves, Spoiled, Cut, FirstMisfit, Fits, Tidy;
      endings, trace := [], [descriptors];
      for k := 0 to |lives|
        invariant Intact() && Tidy(descriptors) && Fits(digest, descriptors, parts, |parts|)
        invariant |endings| == k && |trace| == k + 1 && trace[0] == old(descriptors) && trace[k] == descriptors
        invariant Fresh(Same(parts, |lives|), temporaries, descriptors, k)
        invariant forall i | 0 <= i < k ::
                    endings[i] == if lives[i] >= AllCalls(digest, trace[i], parts) then Done else Died
        invariant forall i | 0 <= i < k && endings[i].Done? :: trace[i + 1].Keys == DirNames(digest, parts, |parts|)
      {
        life := lives[k];
        assert forall n | 0 <= n < |temporaries[k]| :: temporaries[k][n] in temporaries[k];
        ghost var before := descriptors;
        var r := Materialize(parts, temporaries[k], torn);
        StaysFresh(digest, Same(parts, |lives|), temporaries, before, descriptors, k, r);
        endings, trace := endings + [r], trace + [descriptors];
      }
    }

    /** Any systems in turn, one attempt at each, every attempt dying anywhere or not:
        each goes as `Goes` says, and the selection is intact throughout. */
    method Upgrades(systems: seq<seq<Part>>, lives: seq<nat>, temporaries: seq<seq<string>>, torn: string)
      returns (endings: seq<Ending>, ghost trace: seq<Descriptors>)
      requires Truncated(digest) && Intact() && Tidy(descriptors) && |lives| == |systems|
      requires forall i | 0 <= i < |systems| :: Valid(systems[i])
      requires Fresh(systems, temporaries, descriptors, 0)
      modifies this
      ensures Intact() && |endings| == |systems| && |trace| == |systems| + 1
      ensures trace[0] == old(descriptors) && trace[|systems|] == descriptors
      ensures forall i | 0 <= i < |systems| ::
                Goes(digest, trace[i], trace[i + 1], systems[i], temporaries[i], lives[i], endings[i])
    {
      hide Goes, Fits, FitsOne, Calls, AllCalls, Finishes, Leaves, Spoiled, FirstMisfit, Cut;
      endings, trace := [], [descriptors];
      for i := 0 to |systems|
        invariant Intact() && Tidy(descriptors) && |endings| == i && |trace| == i + 1
        invariant trace[0] == old(descriptors) && trace[i] == descriptors
        invariant Fresh(systems, temporaries, descriptors, i)
        invariant forall k | 0 <= k < i ::
                    Goes(digest, trace[k], trace[k + 1], systems[k], temporaries[k], lives[k], endings[k])
      {
        life := lives[i];
        assert forall n | 0 <= n < |temporaries[i]| :: temporaries[i][n] in temporaries[i];
        ghost var before := descriptors;
        var r := Materialize(systems[i], temporaries[i], torn);
        CallGoes(digest, before, descriptors, systems[i], temporaries[i], lives[i], r);
        StaysFresh(digest, systems, temporaries, before, descriptors, i, r);
        endings, trace := endings + [r], trace + [descriptors];
      }
    }
  }

  /** The failure itself.  Selecting `[p]` ends well; selecting `[q]` dies on the one
      call left when `p`'s manifest is gone and its directory is not; and `[p]` is then
      refused, however long the process lives. */
  method HalfDeletedBlocks(digest: string -> string, p: Part, q: Part, temporary: string, torn: string, life: nat)
    returns (m: Materializer, first: Ending, second: Ending, blocked: Descriptors, third: Ending)
    requires Truncated(digest) && !Hidden(p.name) && !Hidden(q.name) && DirName(digest, p) != DirName(digest, q)
    requires Hidden(temporary) && temporary != ""
    ensures first.Done? && second.Died? && third.Refused?
    ensures m.selected == Some([q])
    ensures blocked == map[DirName(digest, p) := Bare, DirName(digest, q) := Manifest(q.content)]
  {
    hide Truncated, Hidden, Valid, Finishes, Tidy, Fits, FitsOne, With, Calls, AllCalls, SweepCalls, Cut, Leaves;
    hide Spoiled, DirName, DirNames, Present, FirstMisfit;
    SingleValid(digest, p, temporary);
    SingleValid(digest, q, temporary);
    m := new Materializer(digest);
    m.life := 5;
    FirstCalls(digest, p);
    first := m.Materialize([p], [temporary], torn);
    OnlyOne(digest, p, m.descriptors);
    m.life := 6;
    SecondStops(digest, p, q);
    second := m.Materialize([q], [temporary], torn);
    CutShort(digest, p, q, m.descriptors, m.life, second);
    m.life := life;
    ThirdMisfits(digest, p, q);
    blocked := m.descriptors;
    third := m.Materialize([p], [temporary], torn);
  }
}
