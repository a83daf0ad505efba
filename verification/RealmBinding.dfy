/** The two one-line files that bind a realm: `docker-endpoint`, written once by
    `link`, and `host-config.scope`, written once and replaced at most by the one
    permitted migration.  Each `link`, rename and read is one action of some
    process; schedules interleave them freely. */
module RealmBinding {
  import opened Outcomes
  import T = Text

  datatype Line = Missing | Value(text: string) | Corrupt

  /** Python's text mode: each of `\r\n`, `\r` and `\n` is read as a newline. */
  function Decoded(s: string): string {
    if s == "" then ""
    else if s[0] == '\r' && |s| > 1 && s[1] == '\n' then Decoded(s[1..])
    else (if s[0] == '\r' then "\n" else [s[0]]) + Decoded(s[1..])
  }

  /** `_read_one_line`: exactly one non-empty line, at most 4096 bytes. */
  function ReadOneLine(file: Option<string>): Line {
    match file
    case None => Missing
    case Some(bytes) =>
      var content := Decoded(bytes);
      if T.Utf8Size(bytes) > 4096 || |content| < 2 || content[|content| - 1] != '\n'
         || '\n' in content[..|content| - 1]
      then Corrupt
      else Value(content[..|content| - 1])
  }

  /** `_write_once`: `link` succeeds only where nothing is. */
  function Link(file: Option<string>, text: string): Option<string> {
    if file.None? then Some(text) else file
  }

  type Pid = nat

  // ---- docker_endpoint ----

  /** A store object: its `_docker_endpoint` field, and where its current call is. */
  datatype Call = Rest | Linking(selected: string) | Rereading(selected: string) | Returned(value: string) | Raised

  datatype Store = Store(cache: Option<string>, call: Call)

  datatype Endpoint = Endpoint(file: Option<string>, stores: map<Pid, Store>)

  datatype EndpointAction = Ask(selected: string) | Link1 | Reread | Exit

  /** The first half of the property: use the binding, or go on to create it. */
  function AskEndpoint(e: Endpoint, s: Store, selected: string): Store {
    if s.cache.Some? then
      s.(call := if s.cache.value == selected then Returned(selected) else Raised)
    else match ReadOneLine(e.file)
      case Corrupt => s.(call := Raised)
      case Missing => s.(call := Linking(selected))
      case Value(v) => Store(Some(v), if v == selected then Returned(v) else Raised)
  }

  function EndpointStep(e: Endpoint, p: Pid, a: EndpointAction): Endpoint {
    var s := if p in e.stores then e.stores[p] else Store(None, Rest);
    match a
    case Exit => e.(stores := e.stores - {p})
    case Ask(selected) =>
      if s.call.Linking? || s.call.Rereading? then e
      else e.(stores := e.stores[p := AskEndpoint(e, s, selected)])
    case Link1 =>
      if s.call.Linking?
      then Endpoint(Link(e.file, s.call.selected + "\n"), e.stores[p := s.(call := Rereading(s.call.selected))])
      else e
    case Reread =>
      if !s.call.Rereading? then e
      else if ReadOneLine(e.file) == Value(s.call.selected)
      then e.(stores := e.stores[p := Store(Some(s.call.selected), Returned(s.call.selected))])
      else e.(stores := e.stores[p := s.(call := Raised)])
  }

  function EndpointRun(e: Endpoint, schedule: seq<(Pid, EndpointAction)>, n: nat): Endpoint
    requires n <= |schedule|
  {
    if n == 0 then e else EndpointStep(EndpointRun(e, schedule, n - 1), schedule[n - 1].0, schedule[n - 1].1)
  }

  ghost predicate EndpointInv(e: Endpoint) {
    forall p | p in e.stores ::
      && (e.stores[p].cache.Some? ==> ReadOneLine(e.file) == Value(e.stores[p].cache.value))
      && (e.stores[p].call.Returned? ==> ReadOneLine(e.file) == Value(e.stores[p].call.value))
  }

  lemma EndpointStepKeeps(e: Endpoint, p: Pid, a: EndpointAction)
    requires EndpointInv(e)
    ensures EndpointInv(EndpointStep(e, p, a))
    ensures e.file.Some? ==> EndpointStep(e, p, a).file == e.file
  {
  }

  lemma {:induction false} EndpointReachable(e: Endpoint, schedule: seq<(Pid, EndpointAction)>, m: nat, n: nat)
    requires e.stores == map[] && m <= n <= |schedule|
    ensures EndpointInv(EndpointRun(e, schedule, n))
    ensures EndpointRun(e, schedule, m).file.Some? ==>
              EndpointRun(e, schedule, n).file == EndpointRun(e, schedule, m).file
  {
    if n > 0 {
      EndpointReachable(e, schedule, if m < n then m else n - 1, n - 1);
      EndpointStepKeeps(EndpointRun(e, schedule, n - 1), schedule[n - 1].0, schedule[n - 1].1);
    }
  }

  function Answer(e: Endpoint, p: Pid): Option<string> {
    if p in e.stores && e.stores[p].call.Returned? then Some(e.stores[p].call.value) else None
  }

  /** One-shot consensus: every value any process ever gets from
      `docker_endpoint`, at any two moments of any run, is the same. */
  lemma EndpointAgreement(e: Endpoint, schedule: seq<(Pid, EndpointAction)>, m: nat, n: nat, p: Pid, q: Pid)
    requires e.stores == map[] && m <= n <= |schedule|
    requires Answer(EndpointRun(e, schedule, m), p).Some? && Answer(EndpointRun(e, schedule, n), q).Some?
    ensures Answer(EndpointRun(e, schedule, m), p) == Answer(EndpointRun(e, schedule, n), q)
  {
    EndpointReachable(e, schedule, m, m);
    EndpointReachable(e, schedule, m, n);
  }

  /** The file is this one line, ended in any of the ways Python's text mode accepts. */
  predicate IsLine(file: string, text: string) {
    && text != "" && '\n' !in text && '\r' !in text && T.Utf8Size(file) <= 4096
    && (file == text + "\n" || file == text + "\r\n" || file == text + "\r")
  }

  lemma {:induction false} DecodedLine(file: string, text: string)
    requires '\n' !in text
    ensures Decoded(file) == text + "\n" <==>
            '\r' !in text && (file == text + "\n" || file == text + "\r\n" || file == text + "\r")
    decreases |text|
  {
    if text == "" {
      assert |file| > 1 ==> file == [file[0], file[1]] + file[2..];
      assert file != "" ==> file == [file[0]] + file[1..];
      DecodedEmpty(if file == "" then "" else file[1..]);
      DecodedEmpty(if |file| < 2 then "" else file[2..]);
    } else if file == "" {
      assert Decoded(file) == "";
    } else if file[0] == text[0] && file[0] != '\r' {
      DecodedLine(file[1..], text[1..]);
      assert Decoded(file) == [file[0]] + Decoded(file[1..]);
      hide Decoded;
      SameStart(file[0], Decoded(file[1..]), text, "\n");
      assert file == [file[0]] + file[1..] && text == [text[0]] + text[1..];
      SameStart(file[0], file[1..], text, "\n");
      SameStart(file[0], file[1..], text, "\r\n");
      SameStart(file[0], file[1..], text, "\r");
    } else {
      DecodedStart(file);
      assert (text + "\n")[0] == text[0] && text[0] in text;
    }
  }

  lemma SameStart(c: char, rest: string, text: string, end: string)
    requires text != "" && text[0] == c
    ensures [c] + rest == text + end <==> rest == text[1..] + end
  {
    assert text + end == [c] + (text[1..] + end);
    assert ([c] + rest)[1..] == rest && (text + end)[1..] == text[1..] + end;
  }

  lemma DecodedEmpty(s: string)
    ensures Decoded(s) == "" <==> s == ""
  {
    if s != "" {
      DecodedStart(s);
    }
  }

  lemma {:induction false} DecodedStart(s: string)
    requires s != ""
    ensures Decoded(s) != "" && Decoded(s)[0] == if s[0] == '\r' then '\n' else s[0]
  {
    if s[0] == '\r' && |s| > 1 && s[1] == '\n' {
      DecodedStart(s[1..]);
    }
  }

  /** A file reads as a value exactly when it is that one line. */
  lemma ReadBack(file: Option<string>, text: string)
    ensures ReadOneLine(file) == Value(text) <==> file.Some? && IsLine(file.value, text)
  {
    if file.Some? {
      var content := Decoded(file.value);
      if '\n' !in text {
        DecodedLine(file.value, text);
      }
      assert |content| > 0 ==> content == content[..|content| - 1] + [content[|content| - 1]];
      assert (text + "\n")[..|text|] == text;
    }
  }

  predicate ByOthers(schedule: seq<(Pid, EndpointAction)>, p: Pid) {
    forall k | 0 <= k < |schedule| :: schedule[k].0 != p
  }

  lemma {:induction false} OthersLeave(e: Endpoint, schedule: seq<(Pid, EndpointAction)>, n: nat, p: Pid)
    requires EndpointInv(e) && p in e.stores && ByOthers(schedule, p) && n <= |schedule|
    ensures var e' := EndpointRun(e, schedule, n);
            && EndpointInv(e') && p in e'.stores && e'.stores[p] == e.stores[p]
            && (e.file.Some? ==> e'.file == e.file)
  {
    if n > 0 {
      OthersLeave(e, schedule, n - 1, p);
      EndpointStepKeeps(EndpointRun(e, schedule, n - 1), schedule[n - 1].0, schedule[n - 1].1);
    }
  }

  /** A call of `docker_endpoint`, whatever other processes do between its own steps. */
  function EndpointCall(e: Endpoint, p: Pid, selected: string, first: seq<(Pid, EndpointAction)>,
                        second: seq<(Pid, EndpointAction)>): Endpoint
  {
    var asked := EndpointRun(EndpointStep(e, p, Ask(selected)), first, |first|);
    var linked := EndpointRun(EndpointStep(asked, p, Link1), second, |second|);
    EndpointStep(linked, p, Reread)
  }

  /** Every call ends: it returns its selection if by then the file is that one line, and
      raises otherwise.  Alone on a realm without the file it writes its selection. */
  lemma EndpointCallEnds(e: Endpoint, p: Pid, selected: string, first: seq<(Pid, EndpointAction)>,
                         second: seq<(Pid, EndpointAction)>)
    requires EndpointInv(e) && ByOthers(first, p) && ByOthers(second, p)
    requires p in e.stores ==> !e.stores[p].call.Linking? && !e.stores[p].call.Rereading?
    ensures var e' := EndpointCall(e, p, selected, first, second);
            && e'.file.Some? && p in e'.stores
            && e'.stores[p].call == (if IsLine(e'.file.value, selected) then Returned(selected) else Raised)
            && (e.file.Some? ==> e'.file == e.file)
            && (e.file.None? && first == [] ==> e'.file == Some(selected + "\n"))
  {
    var e1 := EndpointStep(e, p, Ask(selected));
    EndpointStepKeeps(e, p, Ask(selected));
    OthersLeave(e1, first, |first|, p);
    var e2 := EndpointRun(e1, first, |first|);
    var e3 := EndpointStep(e2, p, Link1);
    EndpointStepKeeps(e2, p, Link1);
    OthersLeave(e3, second, |second|, p);
    var e4 := EndpointRun(e3, second, |second|);
    ReadBack(e.file, selected);
    ReadBack(e4.file, selected);
    hide EndpointRun, EndpointInv, IsLine, ReadOneLine;
  }

  // ---- _bind_host_config_scope ----

  datatype Scope = System | Local

  function Text(scope: Scope): string {
    if scope.System? then "system\n" else "local\n"
  }

  /** The scope the file holds; `None` if it is missing or holds anything else. */
  function ReadScope(file: Option<string>): (r: Option<Scope>) {
    match ReadOneLine(file)
    case Value(v) => if v == "system" then Some(System) else if v == "local" then Some(Local) else None
    case _ => None
  }

  lemma {:induction false} ShortText(s: string, n: nat)
    requires |s| <= n
    ensures T.Utf8Size(s) <= 4 * n
  {
    if s != "" {
      ShortText(s[1..], n - 1);
    }
  }

  /** A scope written is the scope read. */
  lemma ScopeWritten(scope: Scope)
    ensures ReadScope(Some(Text(scope))) == Some(scope)
  {
    var word := if scope.System? then "system" else "local";
    assert Text(scope) == word + "\n";
    ShortText(Text(scope), 7);
    ReadBack(Some(Text(scope)), word);
  }

  lemma ScopeIs(file: Option<string>, scope: Scope)
    ensures ReadScope(file) == Some(scope) <==>
            file.Some? && IsLine(file.value, if scope.System? then "system" else "local")
  {
    ReadBack(file, "system");
    ReadBack(file, "local");
    hide IsLine;
  }

  /** How a process opened the realm. */
  datatype Opening = Opening(requested: Scope, mayMigrate: bool, shared: bool)

  predicate CanMigrate(o: Opening, persisted: Scope) {
    o.mayMigrate && !o.shared && persisted.System? && o.requested.Local?
  }

  datatype Stage = Selecting | Checking | LinkingScope | Comparing | Replacing | Confirming | Bound | Refused

  datatype Binder = Binder(opening: Opening, selected: Scope, stage: Stage)

  datatype Realm = Realm(file: Option<string>, binders: map<Pid, Binder>)

  datatype RealmAction = Open(opening: Opening) | Next | Leave

  /** One read, link or rename of `_bind_host_config_scope`. */
  function BinderStep(file: Option<string>, b: Binder): (Option<string>, Binder) {
    var read := ReadScope(file);
    match b.stage
    case Selecting =>     // the host_config_scope property
      if file.None? || read == Some(b.opening.requested) || (read.Some? && CanMigrate(b.opening, read.value))
      then (file, b.(selected := b.opening.requested, stage := Checking))
      else (file, b.(stage := Refused))
    case Checking =>
      if file.None? then (file, b.(stage := LinkingScope)) else (file, Compare(read, b))
    case LinkingScope => (Link(file, Text(b.selected)), b.(stage := Comparing))
    case Comparing => (file, Compare(read, b))
    case Replacing => (Some(Text(b.selected)), b.(stage := Confirming))
    case Confirming => (file, b.(stage := if read == Some(b.selected) then Bound else Refused))
    case _ => (file, b)
  }

  function Compare(read: Option<Scope>, b: Binder): Binder {
    if read == Some(b.selected) then b.(stage := Bound)
    else if read.Some? && CanMigrate(b.opening, read.value) then b.(stage := Replacing)
    else b.(stage := Refused)
  }

  function RealmStep(r: Realm, p: Pid, a: RealmAction): Realm {
    match a
    case Open(o) => if p in r.binders then r else r.(binders := r.binders[p := Binder(o, o.requested, Selecting)])
    case Leave => r.(binders := r.binders - {p})
    case Next =>
      if p !in r.binders then r
      else var (file, b) := BinderStep(r.file, r.binders[p]); Realm(file, r.binders[p := b])
  }

  function RealmRun(r: Realm, schedule: seq<(Pid, RealmAction)>, n: nat): Realm
    requires n <= |schedule|
  {
    if n == 0 then r else RealmStep(RealmRun(r, schedule, n - 1), schedule[n - 1].0, schedule[n - 1].1)
  }

  ghost predicate RealmInv(r: Realm) {
    forall p | p in r.binders ::
      var b := r.binders[p];
      && b.selected == b.opening.requested
      && (b.stage.Replacing? ==>
            CanMigrate(b.opening, System) && (ReadScope(r.file) == Some(System) || r.file == Some("local\n")))
  }

  /** What may happen to the persisted scope in one step. */
  predicate Permitted(before: Option<string>, after: Option<string>) {
    || after == before
    || (before.None? && ReadScope(after).Some?)
    || (ReadScope(before) == Some(System) && ReadScope(after) == Some(Local))
  }

  /** A step that changes a scope already set is the permitted migration, and is
      taken by a private realm's process that asked for it. */
  lemma RealmStepKeeps(r: Realm, p: Pid, a: RealmAction)
    requires RealmInv(r)
    ensures RealmInv(RealmStep(r, p, a))
    ensures Permitted(r.file, RealmStep(r, p, a).file)
    ensures r.file.Some? && RealmStep(r, p, a).file != r.file ==>
              p in r.binders && r.binders[p].opening == Opening(Local, true, false)
  {
    hide ReadOneLine, ReadScope;
    ScopeWritten(System);
    ScopeWritten(Local);
  }

  lemma {:induction false} RealmReachable(r: Realm, schedule: seq<(Pid, RealmAction)>, n: nat)
    requires r.binders == map[] && n <= |schedule|
    ensures RealmInv(RealmRun(r, schedule, n))
  {
    if n > 0 {
      RealmReachable(r, schedule, n - 1);
      RealmStepKeeps(RealmRun(r, schedule, n - 1), schedule[n - 1].0, schedule[n - 1].1);
    }
  }

  /** Over every run, even one that ignores the control lock: a scope once set
      stays, unless it was `system` and became `local`, which is then final. */
  lemma {:induction false} ScopeIsStable(r: Realm, schedule: seq<(Pid, RealmAction)>, m: nat, n: nat)
    requires r.binders == map[] && m <= n <= |schedule|
    requires RealmRun(r, schedule, m).file.Some?
    ensures var before, after := RealmRun(r, schedule, m).file, RealmRun(r, schedule, n).file;
            after == before || (ReadScope(before) == Some(System) && ReadScope(after) == Some(Local))
  {
    if m < n {
      ScopeIsStable(r, schedule, m, n - 1);
      RealmReachable(r, schedule, n - 1);
      RealmStepKeeps(RealmRun(r, schedule, n - 1), schedule[n - 1].0, schedule[n - 1].1);
    }
  }

  /** No process may migrate, and whoever is bound asked for the persisted scope. */
  ghost predicate Matching(r: Realm) {
    forall p | p in r.binders ::
      && !r.binders[p].opening.mayMigrate
      && (r.binders[p].stage.Bound? ==> ReadScope(r.file) == Some(r.binders[p].opening.requested))
  }

  lemma MatchingKept(r: Realm, p: Pid, a: RealmAction)
    requires RealmInv(r) && Matching(r) && (a.Open? ==> !a.opening.mayMigrate)
    ensures Matching(RealmStep(r, p, a))
  {
    assert ReadScope(None) == None;
    hide ReadOneLine, ReadScope;
    ScopeWritten(System);
    ScopeWritten(Local);
  }

  /** With no process allowed to migrate, whoever is bound asked for exactly the
      persisted scope, so all who are ever bound agree. */
  lemma {:induction false} BoundMatchesFile(r: Realm, schedule: seq<(Pid, RealmAction)>, n: nat, p: Pid)
    requires r.binders == map[] && n <= |schedule|
    requires forall k | 0 <= k < n && schedule[k].1.Open? :: !schedule[k].1.opening.mayMigrate
    requires p in RealmRun(r, schedule, n).binders
    ensures !RealmRun(r, schedule, n).binders[p].opening.mayMigrate
    ensures RealmRun(r, schedule, n).binders[p].stage.Bound? ==>
              ReadScope(RealmRun(r, schedule, n).file) == Some(RealmRun(r, schedule, n).binders[p].opening.requested)
  {
    MatchingThroughout(r, schedule, n);
    hide RealmRun, ReadScope;
  }

  lemma {:induction false} MatchingThroughout(r: Realm, schedule: seq<(Pid, RealmAction)>, n: nat)
    requires r.binders == map[] && n <= |schedule|
    requires forall k | 0 <= k < n && schedule[k].1.Open? :: !schedule[k].1.opening.mayMigrate
    ensures Matching(RealmRun(r, schedule, n))
  {
    if n > 0 {
      MatchingThroughout(r, schedule, n - 1);
      RealmReachable(r, schedule, n - 1);
      MatchingKept(RealmRun(r, schedule, n - 1), schedule[n - 1].0, schedule[n - 1].1);
      hide Matching, RealmStep;
    }
  }

  // ---- under the control lock ----

  /** A process binds the scope as soon as it has the control lock, so nobody opens
      while another holds it. */
  function LockedStep(r: Realm, p: Pid, a: RealmAction): Realm {
    if a.Open? && r.binders != map[] then r else RealmStep(r, p, a)
  }

  function LockedRun(r: Realm, schedule: seq<(Pid, RealmAction)>, n: nat): Realm
    requires n <= |schedule|
  {
    if n == 0 then r else LockedStep(LockedRun(r, schedule, n - 1), schedule[n - 1].0, schedule[n - 1].1)
  }

  predicate BoundAs(r: Realm, p: Pid, scope: Scope) {
    p in r.binders && r.binders[p].stage.Bound? && r.binders[p].opening.requested == scope
  }

  ghost predicate Held(r: Realm) {
    && (forall p, q | p in r.binders && q in r.binders :: p == q)
    && (forall p | p in r.binders && r.binders[p].stage.Bound? ::
          ReadScope(r.file) == Some(r.binders[p].opening.requested))
  }

  lemma LockedStepKeeps(r: Realm, p: Pid, a: RealmAction)
    requires RealmInv(r) && Held(r)
    ensures RealmInv(LockedStep(r, p, a)) && Held(LockedStep(r, p, a))
    ensures Permitted(r.file, LockedStep(r, p, a).file)
  {
    hide ReadOneLine, ReadScope;
    RealmStepKeeps(r, p, a);
    ScopeWritten(System);
    ScopeWritten(Local);
    hide Permitted, RealmInv;
  }

  lemma {:induction false} LockedReachable(r: Realm, schedule: seq<(Pid, RealmAction)>, m: nat, n: nat)
    requires r.binders == map[] && m <= n <= |schedule|
    ensures RealmInv(LockedRun(r, schedule, n)) && Held(LockedRun(r, schedule, n))
    ensures var before, after := LockedRun(r, schedule, m).file, LockedRun(r, schedule, n).file;
            before.Some? ==> after == before || (ReadScope(before) == Some(System) && ReadScope(after) == Some(Local))
  {
    if n > 0 {
      LockedReachable(r, schedule, if m < n then m else n - 1, n - 1);
      LockedStepKeeps(LockedRun(r, schedule, n - 1), schedule[n - 1].0, schedule[n - 1].1);
    }
  }

  /** Whoever is bound, at any two moments of any run and with migrations anywhere in
      between, is bound to the scope persisted at that moment; so the two agree,
      unless the first was bound before the one migration and the second after it. */
  lemma BoundAgree(r: Realm, schedule: seq<(Pid, RealmAction)>, m: nat, n: nat, p: Pid, q: Pid, before: Scope,
                   after: Scope)
    requires r.binders == map[] && m <= n <= |schedule|
    requires BoundAs(LockedRun(r, schedule, m), p, before) && BoundAs(LockedRun(r, schedule, n), q, after)
    ensures ReadScope(LockedRun(r, schedule, m).file) == Some(before)
    ensures ReadScope(LockedRun(r, schedule, n).file) == Some(after)
    ensures after == before || (before.System? && after.Local?)
  {
    LockedReachable(r, schedule, m, m);
    LockedReachable(r, schedule, m, n);
  }

  // ---- one process alone ----

  function Alone(p: Pid, o: Opening): seq<(Pid, RealmAction)> {
    [(p, Open(o)), (p, Next), (p, Next), (p, Next), (p, Next)]
  }

  /** A process that nobody disturbs binds exactly if no scope is set, or the one it asks
      for, or the one it may migrate from; then the file says what it asked for, and
      otherwise it is left alone. */
  lemma BindsAlone(r: Realm, p: Pid, o: Opening)
    requires p !in r.binders
    ensures var r' := RealmRun(r, Alone(p, o), 5);
            && p in r'.binders && (r'.binders[p].stage.Bound? || r'.binders[p].stage.Refused?)
            && (r'.binders[p].stage.Bound? <==>
                  || r.file.None?
                  || IsLine(r.file.value, if o.requested.System? then "system" else "local")
                  || (IsLine(r.file.value, "system") && o.requested.Local? && o.mayMigrate && !o.shared))
            && (r'.binders[p].stage.Bound? ==>
                  r'.file.Some? && IsLine(r'.file.value, if o.requested.System? then "system" else "local"))
            && (r.file.Some? && (r'.binders[p].stage.Refused? || ReadScope(r.file) == Some(o.requested)) ==>
                  r'.file == r.file)
  {
    var schedule := Alone(p, o);
    ScopeWritten(System);
    ScopeWritten(Local);
    ScopeIs(r.file, System);
    ScopeIs(r.file, Local);
    hide ReadOneLine, ReadScope, IsLine;
    var r1 := RealmStep(r, p, Open(o));
    var r2 := RealmStep(r1, p, Next);
    var r3 := RealmStep(r2, p, Next);
    var r4 := RealmStep(r3, p, Next);
    var r5 := RealmStep(r4, p, Next);
    assert RealmRun(r, schedule, 1) == r1;
    assert RealmRun(r, schedule, 2) == r2;
    assert RealmRun(r, schedule, 3) == r3;
    assert RealmRun(r, schedule, 4) == r4;
    assert RealmRun(r, schedule, 5) == r5;
    ScopeIs(r5.file, o.requested);
    hide RealmRun;
  }
}
