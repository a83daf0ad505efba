/** Source-root separation: pairwise checks, first per project and then over all
    running instances, and what they say about host paths.

    A path is the sequence of its components.  `Views` are the two readings under
    which paths are compared: with symlinks resolved, and as written. */
module Mounts {
  import opened Outcomes

  type Path = seq<string>

  datatype Views = Views(resolved: Path -> Path, lexical: Path -> Path)

  /** What `validate_instances` reads from one instance: whether its project metadata
      decodes, and its team path, `None` when it does not resolve. */
  datatype Selected = Selected(project: (string, string), decodes: bool, team: Option<Path>, mounts: seq<Path>)

  /** What it reads from the host: the two readings of paths, the protected trees,
      whether Cyclo runs as another user than root, and whether the realm's Docker
      endpoint is the one in use. */
  datatype Ground = Ground(views: Views, protected: seq<Path>, nonRoot: bool, endpoint: bool)

  predicate Comparable(a: Path, b: Path) {
    a <= b || b <= a
  }

  /** `paths_overlap(left, right) or paths_overlap_lexically(left, right)`. */
  predicate Overlap(v: Views, left: Path, right: Path) {
    Comparable(v.resolved(left), v.resolved(right)) || Comparable(v.lexical(left), v.lexical(right))
  }

  predicate Inside(p: Path, tree: Path) {
    tree <= p
  }

  /** Some path is inside both trees, under one of the readings. */
  ghost predicate ShareAPath(v: Views, left: Path, right: Path) {
    || (exists p :: Inside(p, v.resolved(left)) && Inside(p, v.resolved(right)))
    || (exists p :: Inside(p, v.lexical(left)) && Inside(p, v.lexical(right)))
  }

  lemma PrefixesCompare(a: Path, b: Path, p: Path)
    requires a <= p && b <= p
    ensures Comparable(a, b)
  {
    if |a| <= |b| {
      assert a == p[..|a|] && b[..|a|] == p[..|a|];
    } else {
      assert b == p[..|b|] && a[..|b|] == p[..|b|];
    }
  }

  /** Two trees are comparable exactly when they share a path. */
  lemma ComparableIffShared(a: Path, b: Path)
    ensures Comparable(a, b) <==> exists p :: Inside(p, a) && Inside(p, b)
  {
    if p :| Inside(p, a) && Inside(p, b) {
      PrefixesCompare(a, b, p);
    }
    if Comparable(a, b) {
      var p := if a <= b then b else a;
      assert Inside(p, a) && Inside(p, b);
    }
  }

  lemma OverlapIffShared(v: Views, left: Path, right: Path)
    ensures Overlap(v, left, right) <==> ShareAPath(v, left, right)
  {
    ComparableIffShared(v.resolved(left), v.resolved(right));
    ComparableIffShared(v.lexical(left), v.lexical(right));
  }

  // ---- the three validators ----

  /** No source is in another or in a protected tree. */
  method ValidateMountAuthority(v: Views, teams: seq<Path>, mounts: seq<Path>, protected: seq<Path>) returns (ok: bool)
    ensures ok <==>
            && (forall i, j | 0 <= i < j < |teams + mounts| :: !Overlap(v, (teams + mounts)[i], (teams + mounts)[j]))
            && (forall i, q | 0 <= i < |teams + mounts| && 0 <= q < |protected| ::
                  !Overlap(v, (teams + mounts)[i], protected[q]))
  {
    var selected := teams + mounts;
    for i := 0 to |selected|
      invariant forall a, b | 0 <= a < i && a < b < |selected| :: !Overlap(v, selected[a], selected[b])
    {
      for j := i + 1 to |selected|
        invariant forall b | i < b < j :: !Overlap(v, selected[i], selected[b])
      {
        if Overlap(v, selected[i], selected[j]) {
          return false;
        }
      }
    }
    for i := 0 to |selected|
      invariant forall a, q | 0 <= a < i && 0 <= q < |protected| :: !Overlap(v, selected[a], protected[q])
    {
      for q := 0 to |protected|
        invariant forall b | 0 <= b < q :: !Overlap(v, selected[i], protected[b])
      {
        if Overlap(v, selected[i], protected[q]) {
          return false;
        }
      }
    }
    ok := true;
  }

  method ValidateTeamMountSeparation(v: Views, teams: seq<Path>, mounts: seq<Path>) returns (ok: bool)
    ensures ok <==> forall t, m | t in teams && m in mounts :: !Overlap(v, t, m)
  {
    for i := 0 to |teams|
      invariant forall a, m | 0 <= a < i && m in mounts :: !Overlap(v, teams[a], m)
    {
      for j := 0 to |mounts|
        invariant forall b | 0 <= b < j :: !Overlap(v, teams[i], mounts[b])
      {
        if Overlap(v, teams[i], mounts[j]) {
          return false;
        }
      }
    }
    ok := true;
  }

  /** Equal roots are deliberate reuse and pass; nothing else may overlap. */
  method ValidateStrictSourceRootSeparation(v: Views, sources: seq<Path>) returns (ok: bool)
    ensures ok <==> forall a, b | a in sources && b in sources && a != b :: !Overlap(v, a, b)
  {
    for i := 0 to |sources|
      invariant forall a, b | 0 <= a < i && a < b < |sources| && sources[a] != sources[b] ::
                  !Overlap(v, sources[a], sources[b])
    {
      for j := i + 1 to |sources|
        invariant forall b | i < b < j && sources[i] != sources[b] :: !Overlap(v, sources[i], sources[b])
      {
        if sources[i] != sources[j] && Overlap(v, sources[i], sources[j]) {
          assert sources[i] in sources && sources[j] in sources;
          return false;
        }
      }
    }
    forall a, b | a in sources && b in sources && a != b ensures !Overlap(v, a, b) {
      var i :| 0 <= i < |sources| && sources[i] == a;
      var j :| 0 <= j < |sources| && sources[j] == b;
      OverlapSymmetric(v, a, b);
      if i < j {
        assert !Overlap(v, sources[i], sources[j]);
      } else {
        assert !Overlap(v, sources[j], sources[i]);
      }
    }
    ok := true;
  }

  lemma OverlapSymmetric(v: Views, a: Path, b: Path)
    ensures Overlap(v, a, b) <==> Overlap(v, b, a)
  {
  }

  // ---- validate_instances ----

  type Group = (seq<Path>, seq<Path>)

  predicate Distinct(paths: seq<Path>) {
    forall i, j | 0 <= i < j < |paths| :: paths[i] != paths[j]
  }

  /** `dict.setdefault` on a dictionary of paths. */
  function SetDefault(paths: seq<Path>, p: Path): (r: seq<Path>)
    ensures forall q :: q in r <==> q in paths || q == p
    ensures Distinct(paths) ==> Distinct(r)
  {
    if p in paths then paths else paths + [p]
  }

  function AddAll(paths: seq<Path>, more: seq<Path>): (r: seq<Path>)
    ensures forall q :: q in r <==> q in paths || q in more
    ensures Distinct(paths) ==> Distinct(r)
    decreases |more|
  {
    if more == [] then paths else AddAll(SetDefault(paths, more[0]), more[1..])
  }

  function Teams(selected: seq<Selected>): set<Path> {
    set s | s in selected && s.team.Some? :: s.team.value
  }

  function MountsOf(selected: seq<Selected>): set<Path> {
    set s, m | s in selected && m in s.mounts :: m
  }

  /** What acceptance means: no two different roots share a path, no team shares
      one with a mount, and no root shares one with Cyclo's own authority. */
  ghost predicate Separate(v: Views, teams: set<Path>, mounts: set<Path>, protected: seq<Path>) {
    && (forall a, b | a in teams + mounts && b in teams + mounts && a != b :: !ShareAPath(v, a, b))
    && (forall t, m | t in teams && m in mounts :: !ShareAPath(v, t, m))
    && (forall a, q | a in teams + mounts && q in protected :: !ShareAPath(v, a, q))
  }

  /** The same with pairwise overlap tests. */
  predicate PairwiseSeparate(v: Views, teams: set<Path>, mounts: set<Path>, protected: seq<Path>) {
    && (forall a, b | a in teams + mounts && b in teams + mounts && a != b :: !Overlap(v, a, b))
    && (forall t, m | t in teams && m in mounts :: !Overlap(v, t, m))
    && (forall a, q | a in teams + mounts && q in protected :: !Overlap(v, a, q))
  }

  lemma SeparateIff(v: Views, teams: set<Path>, mounts: set<Path>, protected: seq<Path>)
    ensures Separate(v, teams, mounts, protected) <==> PairwiseSeparate(v, teams, mounts, protected)
  {
    forall a: Path, b: Path ensures Overlap(v, a, b) <==> ShareAPath(v, a, b) {
      OverlapIffShared(v, a, b);
    }
  }

  /** The groups cover exactly the sources seen so far. */
  predicate Grouped(groups: map<(string, string), Group>, teams: seq<Path>, mounts: seq<Path>) {
    && (forall k | k in groups :: Distinct(groups[k].0) && Distinct(groups[k].1))
    && (forall k, p | k in groups && p in groups[k].0 :: p in teams)
    && (forall k, p | k in groups && p in groups[k].1 :: p in mounts)
    && (forall p | p in teams :: exists k :: k in groups && p in groups[k].0)
    && (forall p | p in mounts :: exists k :: k in groups && p in groups[k].1)
  }

  function Extend(groups: map<(string, string), Group>, k: (string, string), team: Path, more: seq<Path>)
    : map<(string, string), Group>
  {
    var g := if k in groups then groups[k] else ([], []);
    groups[k := (SetDefault(g.0, team), AddAll(g.1, more))]
  }

  lemma GroupedExtend(groups: map<(string, string), Group>, teams: seq<Path>, mounts: seq<Path>,
                      k: (string, string), team: Path, more: seq<Path>)
    requires Grouped(groups, teams, mounts)
    ensures Grouped(Extend(groups, k, team, more), SetDefault(teams, team), AddAll(mounts, more))
  {
    var after := Extend(groups, k, team, more);
    forall p | p in SetDefault(teams, team) ensures exists j :: j in after && p in after[j].0 {
      if p == team {
        assert p in after[k].0;
      } else {
        var j :| j in groups && p in groups[j].0;
        assert p in after[j].0;
      }
    }
    forall p | p in AddAll(mounts, more) ensures exists j :: j in after && p in after[j].1 {
      if p in more {
        assert p in after[k].1;
      } else {
        var j :| j in groups && p in groups[j].1;
        assert p in after[j].1;
      }
    }
  }

  /** One project's checks follow from the global ones, except that they alone look
      at the protected trees. */
  lemma GroupAccepted(v: Views, g: Group, teams: set<Path>, mounts: set<Path>, protected: seq<Path>)
    requires PairwiseSeparate(v, teams, mounts, protected)
    requires Distinct(g.0) && Distinct(g.1)
    requires (forall p | p in g.0 :: p in teams) && (forall p | p in g.1 :: p in mounts)
    ensures forall i, j | 0 <= i < j < |g.0 + g.1| :: !Overlap(v, (g.0 + g.1)[i], (g.0 + g.1)[j])
    ensures forall i, q | 0 <= i < |g.0 + g.1| && 0 <= q < |protected| :: !Overlap(v, (g.0 + g.1)[i], protected[q])
  {
    var all := g.0 + g.1;
    forall i, j | 0 <= i < j < |all| ensures !Overlap(v, all[i], all[j]) {
      if i < |g.0| <= j {
        assert all[i] in g.0 && all[j] in g.1;
      } else if j < |g.0| {
        assert all[i] in g.0 && all[j] in g.0;
      } else {
        assert all[i] in g.1 && all[j] in g.1;
      }
    }
    forall i, q | 0 <= i < |all| && 0 <= q < |protected| ensures !Overlap(v, all[i], protected[q]) {
      assert all[i] in g.0 || all[i] in g.1;
    }
  }

  lemma ProtectedReached(v: Views, groups: map<(string, string), Group>, teams: seq<Path>, mounts: seq<Path>,
                         protected: seq<Path>)
    requires Grouped(groups, teams, mounts)
    requires forall k, p, q | k in groups && p in groups[k].0 + groups[k].1 && q in protected :: !Overlap(v, p, q)
    ensures forall p, q | p in teams + mounts && q in protected :: !Overlap(v, p, q)
  {
    forall p, q | p in teams + mounts && q in protected ensures !Overlap(v, p, q) {
      if p in teams {
        var k :| k in groups && p in groups[k].0;
        assert p in groups[k].0 + groups[k].1;
      } else {
        var k :| k in groups && p in groups[k].1;
        assert p in groups[k].0 + groups[k].1;
      }
    }
  }

  /** The lists hold the sources of the first `n` instances. */
  ghost predicate Gathered(selected: seq<Selected>, n: nat, teams: seq<Path>, mounts: seq<Path>)
    requires n <= |selected|
  {
    && (forall p :: p in teams <==> p in Teams(selected[..n]))
    && (forall p :: p in mounts <==> p in MountsOf(selected[..n]))
  }

  lemma GatherNext(selected: seq<Selected>, n: nat, teams: seq<Path>, mounts: seq<Path>)
    requires n < |selected| && selected[n].team.Some? && Gathered(selected, n, teams, mounts)
    ensures Gathered(selected, n + 1, SetDefault(teams, selected[n].team.value), AddAll(mounts, selected[n].mounts))
  {
    assert selected[..n + 1] == selected[..n] + [selected[n]];
    assert Teams(selected[..n + 1]) == Teams(selected[..n]) + {selected[n].team.value};
    assert forall p :: p in MountsOf(selected[..n + 1]) <==> p in MountsOf(selected[..n]) || p in selected[n].mounts;
  }

  predicate Sound(s: Selected) { s.decodes && s.team.Some? }

  /** Collect the sources of every instance, by project and over all of them. */
  method CollectSources(selected: seq<Selected>)
    returns (ok: bool, groups: map<(string, string), Group>, teams: seq<Path>, mounts: seq<Path>)
    ensures ok <==> forall s | s in selected :: Sound(s)
    ensures ok ==> Grouped(groups, teams, mounts)
    ensures ok ==> Gathered(selected, |selected|, teams, mounts)
  {
    groups, teams, mounts := map[], [], [];
    assert Grouped(groups, teams, mounts) && Gathered(selected, 0, teams, mounts);
    hide Grouped, Gathered, Extend, Teams, MountsOf;
    for i := 0 to |selected|
      invariant Grouped(groups, teams, mounts)
      invariant forall k | 0 <= k < i :: Sound(selected[k])
      invariant Gathered(selected, i, teams, mounts)
    {
      var s := selected[i];
      if !s.decodes || s.team.None? {
        assert s in selected;
        return false, groups, teams, mounts;
      }
      GatherNext(selected, i, teams, mounts);
      GroupedExtend(groups, teams, mounts, s.project, s.team.value, s.mounts);
      groups := Extend(groups, s.project, s.team.value, s.mounts);
      teams := SetDefault(teams, s.team.value);
      mounts := AddAll(mounts, s.mounts);
    }
    ok := true;
  }

  /** The checks on the collected sources. */
  method CheckSources(v: Views, protected: seq<Path>, ghost selected: seq<Selected>,
                      groups: map<(string, string), Group>, teams: seq<Path>, mounts: seq<Path>)
    returns (ok: bool)
    requires Grouped(groups, teams, mounts) && Gathered(selected, |selected|, teams, mounts)
    ensures ok <==> Separate(v, Teams(selected), MountsOf(selected), protected)
  {
    SeparateIff(v, Teams(selected), MountsOf(selected), protected);
    assert selected[..|selected|] == selected;
    hide Overlap, Separate, Teams, MountsOf;
    var todo := groups.Keys;
    while todo != {}
      invariant todo <= groups.Keys
      invariant forall k, p, q | k in groups && k !in todo && p in groups[k].0 + groups[k].1 && q in protected ::
                  !Overlap(v, p, q)
      decreases |todo|
    {
      var k :| k in todo;
      todo := todo - {k};
      ok := ValidateMountAuthority(v, groups[k].0, groups[k].1, protected);
      if !ok {
        if PairwiseSeparate(v, Teams(selected), MountsOf(selected), protected) {
          GroupAccepted(v, groups[k], Teams(selected), MountsOf(selected), protected);
        }
        return;
      }
    }
    ProtectedReached(v, groups, teams, mounts, protected);
    ok := ValidateStrictSourceRootSeparation(v, teams + mounts);
    if !ok {
      return;
    }
    ok := ValidateTeamMountSeparation(v, teams, mounts);
  }

  /** What acceptance of running instances means; with none there is nothing to ask. */
  ghost predicate Accepted(g: Ground, selected: seq<Selected>) {
    && (selected != [] ==> g.nonRoot && g.endpoint)
    && (forall s | s in selected :: Sound(s))
    && Separate(g.views, Teams(selected), MountsOf(selected), g.protected)
  }

  /** Acceptance is, past the checks on each instance and on the host, exactly a
      statement about host paths: across all projects, no path lies under two different
      source roots, none under a team and a mount, and none under a source and a
      protected tree. */
  method ValidateInstances(g: Ground, selected: seq<Selected>) returns (ok: bool)
    ensures ok <==> Accepted(g, selected)
  {
    if selected != [] && !g.nonRoot {
      return false;
    }
    var groups, teams, mounts;
    ok, groups, teams, mounts := CollectSources(selected);
    if !ok {
      return;
    }
    if selected == [] {
      NothingSelected(g);
      return true;
    }
    if !g.endpoint {
      return false;
    }
    ok := CheckSources(g.views, g.protected, selected, groups, teams, mounts);
  }

  lemma NothingSelected(g: Ground)
    ensures Accepted(g, [])
  {
    assert Teams([]) == {} && MountsOf([]) == {};
  }
}
