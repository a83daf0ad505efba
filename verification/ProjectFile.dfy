/** What a project file says: the statements its lines spell, and which lists of
    statements are a project.  The parser accepts exactly those, and nothing else. */
module ProjectFile {
  import opened Outcomes
  import opened Text
  import opened ProjectText
  import Mounts
  import Printer = ProjectPrinter

  datatype Statement =
    | Names(name: string)
    | Describes(text: string)
    | Explains(marker: string, lines: seq<string>)
    | Selects(token: string, mode: Mode)
    | Brings(name: string, token: string, mode: Mode)

  // ---- from lines to statements ----

  /** The line is the statement's own line. */
  predicate Spells(line: string, s: Statement) {
    match s
    case Names(name) => Head(line, ' ') == "name" && Fields(line) == ["name", name]
    case Describes(text) => Head(line, ' ') == "description" && Strip(Rest(line, ' ')) == text && text != ""
    case Explains(marker, _) =>
      Head(line, ' ') == "context" && Fields(line) == ["context", "<<" + marker] && IsMarker(marker)
    case Selects(token, mode) => Head(line, ' ') == "team" && Fields(line) == ["team", token, ModeText(mode)]
    case Brings(name, token, mode) =>
      Head(line, ' ') == "mount" && Fields(line) == ["mount", name, token, ModeText(mode)]
  }

  predicate Silent(line: string) { Strip(line) == "" || Strip(line)[0] == '#' }

  /** The lines say these statements, in order: a silent line says nothing, and a context
      goes on to the first line that is its marker. */
  ghost predicate Says(lines: seq<string>, statements: seq<Statement>)
    decreases |lines|
  {
    if lines == [] then statements == []
    else if Silent(lines[0]) then Says(lines[1..], statements)
    else
      && statements != [] && Spells(Strip(lines[0]), statements[0])
      && if statements[0].Explains? then
           var n := |statements[0].lines|;
           && n + 1 < |lines| && lines[1..n + 1] == statements[0].lines
           && statements[0].marker !in statements[0].lines && lines[n + 1] == statements[0].marker
           && Says(lines[n + 2..], statements[1..])
         else Says(lines[1..], statements[1..])
  }

  /** One statement read by the parser. */
  function Apply(d: Draft, s: Statement, resolve: Resolver): Result<Draft> {
    match s
    case Names(name) => NameLine(d, ["name", name])
    case Describes(text) =>
      if d.description.Some? then Err("duplicate description directive") else Ok(d.(description := Some(text)))
    case Explains(_, lines) =>
      if d.context.Some? then Err("duplicate context directive")
      else if Trimmed(lines) == [] then Err("project context must not be empty")
      else Ok(d.(context := Some(Joined(Trimmed(lines)))))
    case Selects(token, mode) => TeamLine(d, ["team", token, ModeText(mode)], resolve)
    case Brings(name, token, mode) => MountLine(d, ["mount", name, token, ModeText(mode)], resolve)
  }

  function ApplyAll(d: Draft, statements: seq<Statement>, resolve: Resolver): Result<Draft>
    decreases |statements|
  {
    if statements == [] then Ok(d)
    else
      var next :- Apply(d, statements[0], resolve);
      ApplyAll(next, statements[1..], resolve)
  }

  predicate Same(a: Result<Draft>, b: Result<Draft>) {
    (a.Ok? <==> b.Ok?) && (a.Ok? ==> a == b)
  }

  lemma SimpleIs(d: Draft, line: string, s: Statement, resolve: Resolver)
    requires Spells(line, s) && !s.Explains?
    ensures Directive(line) != "context" && Same(Simple(d, line, resolve), Apply(d, s, resolve))
  {
    hide NameLine, TeamLine, MountLine, Fields, Strip, Head, Rest;
  }

  lemma FindBlock(lines: seq<string>, block: seq<string>, marker: string)
    requires |block| < |lines| && lines[..|block|] == block && marker !in block && lines[|block|] == marker
    ensures Find(lines, marker) == |block|
  {
    FindFrom(lines, marker, |block|);
    assert lines[|block|..][0] == marker;
  }

  lemma ContextIs(d: Draft, line: string, s: Statement, after: seq<string>, resolve: Resolver)
    requires Spells(line, s) && s.Explains? && |s.lines| < |after|
    requires after[..|s.lines|] == s.lines && s.marker !in s.lines && after[|s.lines|] == s.marker
    ensures Directive(line) == "context"
    ensures var r := Heredoc(d, Fields(line), after);
            && (r.Ok? <==> Apply(d, s, resolve).Ok?)
            && (r.Ok? ==> r.value == (Apply(d, s, resolve).value, |s.lines| + 1))
  {
    var fields := ["context", "<<" + s.marker];
    assert fields[1][2..] == s.marker;
    FindBlock(after, s.lines, s.marker);
    hide Trimmed, Find, IsMarker, Joined;
  }

  /** What the lines say is what the parser reads. */
  lemma {:induction false} SaidIsRead(d: Draft, lines: seq<string>, statements: seq<Statement>, resolve: Resolver)
    requires Says(lines, statements)
    ensures Same(Parse(d, lines, resolve), ApplyAll(d, statements, resolve))
    decreases |lines|
  {
    if lines != [] {
      var line, rest := Strip(lines[0]), lines[1..];
      if Silent(lines[0]) {
        hide Apply, ApplyAll, Spells;
        SaidIsRead(d, rest, statements, resolve);
      } else if statements[0].Explains? {
        var s := statements[0];
        assert rest[..|s.lines|] == s.lines && rest[|s.lines|] == s.marker;
        assert lines[|s.lines| + 2..] == rest[|s.lines| + 1..];
        ContextIs(d, line, s, rest, resolve);
        hide Apply, Spells, Heredoc, Simple;
        if Apply(d, s, resolve).Ok? {
          SaidIsRead(Apply(d, s, resolve).value, lines[|s.lines| + 2..], statements[1..], resolve);
        }
      } else {
        var s := statements[0];
        SimpleIs(d, line, s, resolve);
        hide Apply, Spells, Heredoc, Simple;
        if Apply(d, s, resolve).Ok? {
          SaidIsRead(Apply(d, s, resolve).value, rest, statements[1..], resolve);
        }
      }
    }
  }

  lemma SimpleSays(d: Draft, line: string, resolve: Resolver) returns (s: Statement)
    requires Simple(d, line, resolve).Ok?
    ensures Spells(line, s) && !s.Explains?
  {
    var directive, fields := Directive(line), Fields(line);
    if directive == "name" {
      FirstField(line, "name");
      s := Names(fields[1]);
      assert fields == ["name", fields[1]];
    } else if directive == "description" {
      s := Describes(Strip(Remainder(line)));
    } else if directive == "team" {
      FirstField(line, "team");
      s := Selects(fields[1], ParseMode(fields[2]).value);
      assert fields == ["team", fields[1], fields[2]];
    } else {
      FirstField(line, "mount");
      s := Brings(fields[1], fields[2], ParseMode(fields[3]).value);
      assert fields == ["mount", fields[1], fields[2], fields[3]];
    }
  }

  /** A line's directive, if it is a word, is its first field. */
  lemma FirstField(line: string, word: string)
    requires Word(word) && Head(line, ' ') == word && Fields(line) != []
    ensures Fields(line)[0] == word
  {
    var n := IndexOf(line, ' ');
    assert line[..n] == word;
    assert forall i | 0 <= i < n :: line[i] == word[i];
    WordEndIs(line, n);
  }

  lemma HeredocSays(d: Draft, line: string, after: seq<string>) returns (s: Statement)
    requires Directive(line) == "context" && Heredoc(d, Fields(line), after).Ok?
    ensures s.Explains? && Spells(line, s)
    ensures |s.lines| < |after| && after[..|s.lines|] == s.lines
    ensures s.marker !in s.lines && after[|s.lines|] == s.marker
    ensures Heredoc(d, Fields(line), after).value.1 == |s.lines| + 1
  {
    var fields := Fields(line);
    FirstField(line, "context");
    var marker := fields[1][2..];
    var n := Find(after, marker);
    FindIsFirst(after, marker);
    s := Explains(marker, after[..n]);
    assert fields[1] == "<<" + marker;
    assert fields == ["context", "<<" + marker];
  }

  lemma {:induction false} FindIsFirst(lines: seq<string>, marker: string)
    ensures marker !in lines[..Find(lines, marker)]
  {
    if lines != [] && lines[0] != marker {
      FindIsFirst(lines[1..], marker);
      var n := Find(lines[1..], marker);
      assert lines[..n + 1] == [lines[0]] + lines[1..][..n];
    }
  }

  /** Whatever the parser reads, the lines say some statements. */
  lemma {:induction false} ReadIsSaid(d: Draft, lines: seq<string>, resolve: Resolver)
    returns (statements: seq<Statement>)
    requires Parse(d, lines, resolve).Ok?
    ensures Says(lines, statements)
    decreases |lines|
  {
    statements := [];
    if lines != [] {
      var line, rest := Strip(lines[0]), lines[1..];
      var (next, n) := Step(d, lines, resolve).value;
      if Silent(lines[0]) {
        statements := ReadIsSaid(d, rest, resolve);
      } else if Directive(line) == "context" {
        var s := HeredocSays(d, line, rest);
        hide Heredoc, Simple, Spells;
        var more := ReadIsSaid(next, lines[n..], resolve);
        statements := [s] + more;
        assert statements[1..] == more && lines[1..|s.lines| + 1] == s.lines;
      } else {
        var s := SimpleSays(d, line, resolve);
        hide Heredoc, Simple, Spells;
        var more := ReadIsSaid(next, rest, resolve);
        statements := [s] + more;
        assert statements[1..] == more;
      }
    }
  }

  // ---- from statements to a project ----

  function NamesIn(ss: seq<Statement>): seq<string> {
    if ss == [] then []
    else var s := ss[|ss| - 1]; NamesIn(ss[..|ss| - 1]) + (if s.Names? then [s.name] else [])
  }

  function TextsIn(ss: seq<Statement>): seq<string> {
    if ss == [] then []
    else var s := ss[|ss| - 1]; TextsIn(ss[..|ss| - 1]) + (if s.Describes? then [s.text] else [])
  }

  function ContextsIn(ss: seq<Statement>): seq<seq<string>> {
    if ss == [] then []
    else var s := ss[|ss| - 1]; ContextsIn(ss[..|ss| - 1]) + (if s.Explains? then [s.lines] else [])
  }

  function TeamsIn(ss: seq<Statement>): seq<(string, Mode)> {
    if ss == [] then []
    else var s := ss[|ss| - 1]; TeamsIn(ss[..|ss| - 1]) + (if s.Selects? then [(s.token, s.mode)] else [])
  }

  function MountsIn(ss: seq<Statement>): seq<(string, string, Mode)> {
    if ss == [] then []
    else var s := ss[|ss| - 1]; MountsIn(ss[..|ss| - 1]) + (if s.Brings? then [(s.name, s.token, s.mode)] else [])
  }

  /** The token is a path that exists, is a directory and can be bound. */
  predicate Leads(resolve: Resolver, token: string, path: Path) {
    IsPathToken(token) && resolve(token) == Directory(path) && Bindable(path)
  }

  /** Each team is where its statement leads, and no two share a path or, apart from
      case, a name. */
  predicate TeamsAre(said: seq<(string, Mode)>, resolve: Resolver, teams: seq<Team>) {
    && |teams| == |said|
    && (forall i | 0 <= i < |teams| ::
          && Leads(resolve, said[i].0, teams[i].path) && teams[i].mode == said[i].1
          && IsTeamName(NameOf(teams[i].path)))
    && (forall i, j | 0 <= i < j < |teams| ::
          && teams[i].path != teams[j].path
          && Fold(NameOf(teams[i].path)) != Fold(NameOf(teams[j].path)))
  }

  /** Each mount is named and leads as its statement says, and no two share a name or a
      path. */
  predicate MountsAre(said: seq<(string, string, Mode)>, resolve: Resolver, mounts: seq<Mount>) {
    && |mounts| == |said|
    && (forall i | 0 <= i < |mounts| ::
          && mounts[i].name == said[i].0 && IsName(mounts[i].name)
          && Leads(resolve, said[i].1, mounts[i].path) && mounts[i].mode == said[i].2)
    && (forall i, j | 0 <= i < j < |mounts| ::
          mounts[i].name != mounts[j].name && mounts[i].path != mounts[j].path)
  }

  function Listed<T>(x: Option<T>): seq<T> { if x.Some? then [x.value] else [] }

  predicate HeaderIs(ss: seq<Statement>, d: Draft) {
    && NamesIn(ss) == Listed(d.name) && (d.name.Some? ==> IsName(d.name.value))
    && TextsIn(ss) == Listed(d.description)
    && |ContextsIn(ss)| == |Listed(d.context)|
    && (d.context.Some? ==>
          Trimmed(ContextsIn(ss)[0]) != [] && d.context.value == Joined(Trimmed(ContextsIn(ss)[0])))
  }

  predicate Means(ss: seq<Statement>, resolve: Resolver, d: Draft) {
    HeaderIs(ss, d) && TeamsAre(TeamsIn(ss), resolve, d.teams) && MountsAre(MountsIn(ss), resolve, d.mounts)
  }

  lemma Last(ss: seq<Statement>, s: Statement)
    ensures (ss + [s])[..|ss|] == ss
    ensures NamesIn(ss + [s]) == NamesIn(ss) + (if s.Names? then [s.name] else [])
    ensures TextsIn(ss + [s]) == TextsIn(ss) + (if s.Describes? then [s.text] else [])
    ensures ContextsIn(ss + [s]) == ContextsIn(ss) + (if s.Explains? then [s.lines] else [])
    ensures TeamsIn(ss + [s]) == TeamsIn(ss) + (if s.Selects? then [(s.token, s.mode)] else [])
    ensures MountsIn(ss + [s]) == MountsIn(ss) + (if s.Brings? then [(s.name, s.token, s.mode)] else [])
  {
    assert (ss + [s])[..|ss|] == ss;
  }

  lemma {:induction false} ApplyMore(d: Draft, ss: seq<Statement>, s: Statement, resolve: Resolver)
    ensures ApplyAll(d, ss + [s], resolve)
         == if ApplyAll(d, ss, resolve).Ok? then Apply(ApplyAll(d, ss, resolve).value, s, resolve)
            else ApplyAll(d, ss, resolve)
    decreases |ss|
  {
    hide Apply;
    if ss == [] {
      assert ss + [s] == [s] && [s][1..] == [];
      assert Apply(d, s, resolve).Ok? ==> ApplyAll(Apply(d, s, resolve).value, [], resolve) == Apply(d, s, resolve);
    } else {
      assert (ss + [s])[0] == ss[0] && (ss + [s])[1..] == ss[1..] + [s];
      if Apply(d, ss[0], resolve).Ok? {
        ApplyMore(Apply(d, ss[0], resolve).value, ss[1..], s, resolve);
      }
    }
  }

  lemma DirectoryIs(resolve: Resolver, token: string, path: Path)
    ensures ResolveDirectory(resolve, token) == Ok(path) <==> Leads(resolve, token, path)
  {
  }

  lemma TeamLineIs(d: Draft, token: string, mode: Mode, resolve: Resolver, t: Team)
    ensures TeamLine(d, ["team", token, ModeText(mode)], resolve) == Ok(d.(teams := d.teams + [t])) <==>
            && Leads(resolve, token, t.path) && t.mode == mode && IsTeamName(NameOf(t.path))
            && forall i | 0 <= i < |d.teams| ::
                 d.teams[i].path != t.path && Fold(NameOf(d.teams[i].path)) != Fold(NameOf(t.path))
    ensures TeamLine(d, ["team", token, ModeText(mode)], resolve).Ok? ==>
              exists u :: TeamLine(d, ["team", token, ModeText(mode)], resolve) == Ok(d.(teams := d.teams + [u]))
  {
    DirectoryIs(resolve, token, t.path);
    var r := TeamLine(d, ["team", token, ModeText(mode)], resolve);
    assert ParseMode(ModeText(mode)) == Ok(mode);
    hide ResolveDirectory, Leads, IsTeamName, Fold, ParseMode;
    if r.Ok? {
      var u := Team(ResolveDirectory(resolve, token).value, mode);
      assert r == Ok(d.(teams := d.teams + [u]));
      assert (d.teams + [u])[|d.teams|] == u && (d.teams + [t])[|d.teams|] == t;
    }
  }

  lemma MountLineIs(d: Draft, name: string, token: string, mode: Mode, resolve: Resolver, m: Mount)
    ensures MountLine(d, ["mount", name, token, ModeText(mode)], resolve) == Ok(d.(mounts := d.mounts + [m])) <==>
            && m.name == name && IsName(name) && Leads(resolve, token, m.path) && m.mode == mode
            && forall i | 0 <= i < |d.mounts| :: d.mounts[i].name != name && d.mounts[i].path != m.path
    ensures MountLine(d, ["mount", name, token, ModeText(mode)], resolve).Ok? ==>
              exists u ::
                MountLine(d, ["mount", name, token, ModeText(mode)], resolve) == Ok(d.(mounts := d.mounts + [u]))
  {
    DirectoryIs(resolve, token, m.path);
    var r := MountLine(d, ["mount", name, token, ModeText(mode)], resolve);
    assert ParseMode(ModeText(mode)) == Ok(mode);
    hide ResolveDirectory, Leads, IsName, ParseMode;
    if r.Ok? {
      var u := Mount(name, ResolveDirectory(resolve, token).value, mode);
      assert r == Ok(d.(mounts := d.mounts + [u]));
      assert (d.mounts + [u])[|d.mounts|] == u && (d.mounts + [m])[|d.mounts|] == m;
    }
  }

  lemma TeamsMore(said: seq<(string, Mode)>, resolve: Resolver, teams: seq<Team>, x: (string, Mode), t: Team)
    ensures TeamsAre(said + [x], resolve, teams + [t]) <==>
            && TeamsAre(said, resolve, teams)
            && Leads(resolve, x.0, t.path) && t.mode == x.1 && IsTeamName(NameOf(t.path))
            && forall i | 0 <= i < |teams| ::
                 teams[i].path != t.path && Fold(NameOf(teams[i].path)) != Fold(NameOf(t.path))
  {
    hide Leads, IsTeamName, Fold;
    var ts := teams + [t];
    assert forall i | 0 <= i < |teams| :: ts[i] == teams[i];
    assert ts[|teams|] == t;
    if |teams| == |said| {
      assert forall i | 0 <= i < |said| :: (said + [x])[i] == said[i];
      assert (said + [x])[|said|] == x;
    }
  }

  lemma MountsMore(said: seq<(string, string, Mode)>, resolve: Resolver, mounts: seq<Mount>,
                   x: (string, string, Mode), m: Mount)
    ensures MountsAre(said + [x], resolve, mounts + [m]) <==>
            && MountsAre(said, resolve, mounts)
            && m.name == x.0 && IsName(m.name) && Leads(resolve, x.1, m.path) && m.mode == x.2
            && forall i | 0 <= i < |mounts| :: mounts[i].name != m.name && mounts[i].path != m.path
  {
    hide Leads, IsName;
    var ms := mounts + [m];
    assert forall i | 0 <= i < |mounts| :: ms[i] == mounts[i];
    assert ms[|mounts|] == m;
    if |mounts| == |said| {
      assert forall i | 0 <= i < |said| :: (said + [x])[i] == said[i];
      assert (said + [x])[|said|] == x;
    }
  }

  /** One more statement read keeps the meaning. */
  lemma MeansMore(ss: seq<Statement>, s: Statement, resolve: Resolver, d: Draft)
    requires Means(ss, resolve, d) && Apply(d, s, resolve).Ok?
    ensures Means(ss + [s], resolve, Apply(d, s, resolve).value)
  {
    Last(ss, s);
    hide NamesIn, TextsIn, ContextsIn, TeamsIn, MountsIn, Trimmed, Joined, IsName;
    if s.Selects? {
      TeamLineIs(d, s.token, s.mode, resolve, Team([], RO));
      var u :| Apply(d, s, resolve) == Ok(d.(teams := d.teams + [u]));
      TeamLineIs(d, s.token, s.mode, resolve, u);
      TeamsMore(TeamsIn(ss), resolve, d.teams, (s.token, s.mode), u);
      hide TeamLine, TeamsAre, MountsAre;
    } else if s.Brings? {
      MountLineIs(d, s.name, s.token, s.mode, resolve, Mount("", [], RO));
      var u :| Apply(d, s, resolve) == Ok(d.(mounts := d.mounts + [u]));
      MountLineIs(d, s.name, s.token, s.mode, resolve, u);
      MountsMore(MountsIn(ss), resolve, d.mounts, (s.name, s.token, s.mode), u);
      hide MountLine, TeamsAre, MountsAre;
    } else {
      hide TeamsAre, MountsAre, TeamLine, MountLine;
    }
  }

  /** What a list of statements means, it means by reading the last one after the
      others. */
  lemma MeansLess(ss: seq<Statement>, s: Statement, resolve: Resolver, d: Draft) returns (before: Draft)
    requires Means(ss + [s], resolve, d)
    ensures Means(ss, resolve, before) && Apply(before, s, resolve) == Ok(d)
  {
    Last(ss, s);
    hide NamesIn, TextsIn, ContextsIn, TeamsIn, MountsIn, Trimmed, Joined, IsName;
    match s {
      case Names(name) =>
        before := d.(name := None);
        assert (NamesIn(ss) + [name])[|NamesIn(ss)|] == name && |NamesIn(ss)| == 0;
        hide TeamsAre, MountsAre;
      case Describes(text) =>
        before := d.(description := None);
        assert (TextsIn(ss) + [text])[|TextsIn(ss)|] == text && |TextsIn(ss)| == 0;
        hide TeamsAre, MountsAre;
      case Explains(marker, lines) =>
        before := d.(context := None);
        assert (ContextsIn(ss) + [lines])[|ContextsIn(ss)|] == lines && |ContextsIn(ss)| == 0;
        hide TeamsAre, MountsAre;
      case Selects(token, mode) =>
        var n := |d.teams| - 1;
        before := d.(teams := d.teams[..n]);
        assert d.teams == before.teams + [d.teams[n]];
        TeamsMore(TeamsIn(ss), resolve, before.teams, (token, mode), d.teams[n]);
        TeamLineIs(before, token, mode, resolve, d.teams[n]);
        hide TeamLine, TeamsAre, MountsAre;
      case Brings(name, token, mode) =>
        var n := |d.mounts| - 1;
        before := d.(mounts := d.mounts[..n]);
        assert d.mounts == before.mounts + [d.mounts[n]];
        MountsMore(MountsIn(ss), resolve, before.mounts, (name, token, mode), d.mounts[n]);
        MountLineIs(before, name, token, mode, resolve, d.mounts[n]);
        hide MountLine, TeamsAre, MountsAre;
    }
  }

  /** Reading statements gives exactly what they mean. */
  lemma {:induction false} MeansIff(ss: seq<Statement>, resolve: Resolver, d: Draft)
    ensures ApplyAll(BLANK, ss, resolve) == Ok(d) <==> Means(ss, resolve, d)
    decreases |ss|
  {
    if ss == [] {
      assert Means(ss, resolve, d) ==> d.teams == [] && d.mounts == [];
    } else {
      var less, s := ss[..|ss| - 1], ss[|ss| - 1];
      assert ss == less + [s];
      ApplyMore(BLANK, less, s, resolve);
      hide Apply, Means, ApplyAll;
      if ApplyAll(BLANK, less, resolve).Ok? {
        MeansIff(less, resolve, ApplyAll(BLANK, less, resolve).value);
        if ApplyAll(BLANK, ss, resolve) == Ok(d) {
          MeansMore(less, s, resolve, ApplyAll(BLANK, less, resolve).value);
        }
      }
      if Means(ss, resolve, d) {
        var before := MeansLess(less, s, resolve, d);
        MeansIff(less, resolve, before);
      }
    }
  }

  // ---- the whole file ----

  /** The statements are this project's: one name, one description, at most one context,
      teams and mounts as said, and no path of the host under two of their roots. */
  predicate Defines(ss: seq<Statement>, resolve: Resolver, p: Project) {
    && NamesIn(ss) == [p.name] && IsName(p.name)
    && TextsIn(ss) == [p.description]
    && (if ContextsIn(ss) == [] then p.context == ""
        else
          |ContextsIn(ss)| == 1 && Trimmed(ContextsIn(ss)[0]) != []
          && p.context == Joined(Trimmed(ContextsIn(ss)[0])))
    && TeamsAre(TeamsIn(ss), resolve, p.teams) && p.teams != []
    && MountsAre(MountsIn(ss), resolve, p.mounts) && p.mounts != []
    && Disjoint(Roots(p.teams, p.mounts))
  }

  /** No path of the host lies in two of the roots, which are all teams and mounts. */
  lemma DisjointIff(p: Project)
    ensures var roots := Roots(p.teams, p.mounts);
            && (Disjoint(roots) <==>
                  forall i, j, x | 0 <= i < j < |roots| :: !(Mounts.Inside(x, roots[i]) && Mounts.Inside(x, roots[j])))
            && |roots| == |p.teams| + |p.mounts|
            && (forall i | 0 <= i < |p.teams| :: roots[i] == p.teams[i].path)
            && (forall i | 0 <= i < |p.mounts| :: roots[|p.teams| + i] == p.mounts[i].path)
  {
    var roots := Roots(p.teams, p.mounts);
    forall i, j | 0 <= i < j < |roots|
      ensures Mounts.Comparable(roots[j], roots[i]) <==>
              exists x :: Mounts.Inside(x, roots[i]) && Mounts.Inside(x, roots[j])
    {
      Mounts.ComparableIffShared(roots[j], roots[i]);
    }
    hide Mounts.Comparable, Mounts.Inside;
  }

  lemma FinishIs(ss: seq<Statement>, resolve: Resolver, d: Draft, p: Project)
    requires Means(ss, resolve, d)
    ensures Finish(d) == Ok(p) ==> Defines(ss, resolve, p)
  {
    hide NamesIn, TextsIn, ContextsIn, TeamsIn, MountsIn, Trimmed, Joined, IsName, TeamsAre, MountsAre, Disjoint;
  }

  lemma DefinedIsFinished(ss: seq<Statement>, resolve: Resolver, p: Project) returns (d: Draft)
    requires Defines(ss, resolve, p)
    ensures Means(ss, resolve, d) && Finish(d) == Ok(p)
  {
    hide NamesIn, TextsIn, ContextsIn, TeamsIn, MountsIn, Trimmed, Joined, IsName, TeamsAre, MountsAre, Disjoint;
    d := Draft(Some(p.name), Some(p.description), if ContextsIn(ss) == [] then None else Some(p.context),
               p.teams, p.mounts);
  }

  /** `load_project` returns a project exactly when the text is small and clean and its
      lines say statements that define that project. */
  lemma LoadIs(text: string, resolve: Resolver, p: Project)
    ensures Load(text, resolve) == Ok(p) <==>
            && Utf8Size(text) <= 1024 * 1024 && Clean(Unix(text))
            && exists ss :: Says(SplitLines(Unix(text)), ss) && Defines(ss, resolve, p)
  {
    hide Says, Defines, Parse, Finish, Means, ApplyAll, Utf8Size, Clean, SplitLines, Unix;
    var lines := SplitLines(Unix(text));
    if Load(text, resolve) == Ok(p) {
      var d := Parse(BLANK, lines, resolve).value;
      var ss := ReadIsSaid(BLANK, lines, resolve);
      SaidIsRead(BLANK, lines, ss, resolve);
      MeansIff(ss, resolve, d);
      FinishIs(ss, resolve, d, p);
    }
    if Utf8Size(text) <= 1024 * 1024 && Clean(Unix(text)) {
      forall ss | Says(lines, ss) && Defines(ss, resolve, p) ensures Load(text, resolve) == Ok(p) {
        var d := DefinedIsFinished(ss, resolve, p);
        MeansIff(ss, resolve, d);
        SaidIsRead(BLANK, lines, ss, resolve);
      }
    }
  }

  /** Trimming takes off empty lines at both ends, and no others. */
  lemma TrimmedMeans(lines: seq<string>) returns (front: seq<string>, back: seq<string>)
    ensures lines == front + Trimmed(lines) + back
    ensures (forall l | l in front :: Strip(l) == "") && forall l | l in back :: Strip(l) == ""
    ensures var t := Trimmed(lines); t != [] ==> Strip(t[0]) != "" && Strip(t[|t| - 1]) != ""
  {
    var first := FirstText(lines, 0);
    var last := LastText(lines, first, |lines|);
    front, back := lines[..first], lines[last..];
    FrontIsEmpty(lines, 0);
    BackIsEmpty(lines, first, |lines|);
    Printer.TrimmedIs(lines);
    assert lines == lines[..first] + lines[first..last] + lines[last..];
  }

  lemma {:induction false} FrontIsEmpty(lines: seq<string>, i: nat)
    requires i <= |lines|
    ensures forall k | i <= k < FirstText(lines, i) :: Empty(lines[k])
    decreases |lines| - i
  {
    if i < |lines| && Empty(lines[i]) {
      FrontIsEmpty(lines, i + 1);
    }
  }

  lemma {:induction false} BackIsEmpty(lines: seq<string>, first: nat, j: nat)
    requires first <= j <= |lines|
    ensures forall k | LastText(lines, first, j) <= k < j :: Empty(lines[k])
  {
    if first < j && Empty(lines[j - 1]) {
      BackIsEmpty(lines, first, j - 1);
    }
  }

  // ---- writing statements ----

  function TextOf(s: Statement): seq<string> {
    match s
    case Names(name) => ["name " + name]
    case Describes(text) => ["description " + text]
    case Explains(marker, lines) => ["context <<" + marker] + lines + [marker]
    case Selects(token, mode) => [Spaced(["team", token, ModeText(mode)])]
    case Brings(name, token, mode) => [Spaced(["mount", name, token, ModeText(mode)])]
  }

  function Texts(ss: seq<Statement>): seq<string> {
    if ss == [] then [] else TextOf(ss[0]) + Texts(ss[1..])
  }

  predicate Writable(s: Statement) {
    match s
    case Names(name) => Word(name)
    case Describes(text) => text != "" && Stripped(text)
    case Explains(marker, lines) => IsMarker(marker) && marker !in lines
    case Selects(token, _) => Word(token)
    case Brings(name, token, _) => Word(name) && Word(token)
  }

  lemma NameTextSays(name: string)
    requires Word(name)
    ensures Strip("name " + name) == "name " + name && Spells("name " + name, Names(name))
  {
    var words := ["name", name];
    assert Spaced(words) == "name " + name by {
      assert words[1..] == [name];
      assert "name" + " " + name == "name " + name;
    }
    Printer.WordsLine(words);
  }

  lemma DescriptionTextSays(text: string)
    requires text != "" && Stripped(text)
    ensures Strip("description " + text) == "description " + text && Spells("description " + text, Describes(text))
  {
    var line := "description " + text;
    assert line == "description" + " " + text;
    Printer.FirstWord("description", text);
    assert Stripped(line);
    StripIs(line);
    StripIs(text);
  }

  lemma FieldsTextSays(s: Statement)
    requires Writable(s) && (s.Selects? || s.Brings?)
    ensures Strip(TextOf(s)[0]) == TextOf(s)[0] && Spells(TextOf(s)[0], s) && !Silent(TextOf(s)[0])
  {
    if s.Selects? {
      Printer.WordsLine(["team", s.token, ModeText(s.mode)]);
    } else {
      Printer.WordsLine(["mount", s.name, s.token, ModeText(s.mode)]);
    }
  }

  lemma OpeningSays(s: Statement)
    requires Writable(s)
    ensures TextOf(s) != [] && Strip(TextOf(s)[0]) == TextOf(s)[0] && Spells(TextOf(s)[0], s) && !Silent(TextOf(s)[0])
    ensures !s.Explains? ==> |TextOf(s)| == 1
  {
    match s {
      case Names(name) => NameTextSays(name);
      case Describes(text) => DescriptionTextSays(text);
      case Explains(marker, _) => Printer.HeredocLine(marker);
      case _ => FieldsTextSays(s);
    }
  }

  /** Written one after the other, statements are said. */
  lemma {:induction false} TextsSay(ss: seq<Statement>)
    requires forall i | 0 <= i < |ss| :: Writable(ss[i])
    ensures Says(Texts(ss), ss)
  {
    if ss != [] {
      var s, rest := ss[0], Texts(ss[1..]);
      var lines := Texts(ss);
      OpeningSays(s);
      TextsSay(ss[1..]);
      hide Spells, Silent, Writable;
      if s.Explains? {
        var n := |s.lines|;
        assert lines == ["context <<" + s.marker] + s.lines + [s.marker] + rest;
        assert lines[1..n + 1] == s.lines && lines[n + 1] == s.marker && lines[n + 2..] == rest;
      } else {
        assert lines[1..] == rest && lines[0] == TextOf(s)[0];
      }
    }
  }

  lemma {:induction false} InAppend(a: seq<Statement>, c: seq<Statement>)
    ensures NamesIn(a + c) == NamesIn(a) + NamesIn(c) && TextsIn(a + c) == TextsIn(a) + TextsIn(c)
    ensures ContextsIn(a + c) == ContextsIn(a) + ContextsIn(c)
    ensures TeamsIn(a + c) == TeamsIn(a) + TeamsIn(c) && MountsIn(a + c) == MountsIn(a) + MountsIn(c)
    decreases |c|
  {
    if c == [] {
      assert a + c == a;
    } else {
      var less, s := c[..|c| - 1], c[|c| - 1];
      assert c == less + [s] && a + c == (a + less) + [s];
      InAppend(a, less);
      Last(less, s);
      Last(a + less, s);
      hide NamesIn, TextsIn, ContextsIn, TeamsIn, MountsIn;
    }
  }

  function TeamStatements(teams: seq<Team>, tokens: seq<string>): (r: seq<Statement>)
    requires |tokens| == |teams|
    ensures |r| == |teams| && forall i | 0 <= i < |r| :: r[i] == Selects(tokens[i], teams[i].mode)
  {
    seq(|teams|, i requires 0 <= i < |teams| => Selects(tokens[i], teams[i].mode))
  }

  function MountStatements(mounts: seq<Mount>, tokens: seq<string>): (r: seq<Statement>)
    requires |tokens| == |mounts|
    ensures |r| == |mounts| && forall i | 0 <= i < |r| :: r[i] == Brings(mounts[i].name, tokens[i], mounts[i].mode)
  {
    seq(|mounts|, i requires 0 <= i < |mounts| => Brings(mounts[i].name, tokens[i], mounts[i].mode))
  }

  /** A project as statements: the tokens stand for the paths. */
  function StatementsOf(p: Project, marker: string, teams: seq<string>, mounts: seq<string>): seq<Statement>
    requires |teams| == |p.teams| && |mounts| == |p.mounts|
  {
    [Names(p.name), Describes(p.description)]
    + (if p.context == "" then [] else [Explains(marker, SplitLines(p.context))])
    + TeamStatements(p.teams, teams) + MountStatements(p.mounts, mounts)
  }

  lemma {:induction false} OnlyTeams(ss: seq<Statement>)
    requires forall i | 0 <= i < |ss| :: ss[i].Selects?
    ensures NamesIn(ss) == [] && TextsIn(ss) == [] && ContextsIn(ss) == [] && MountsIn(ss) == []
    ensures |TeamsIn(ss)| == |ss| && forall i | 0 <= i < |ss| :: TeamsIn(ss)[i] == (ss[i].token, ss[i].mode)
  {
    if ss != [] {
      var less, s := ss[..|ss| - 1], ss[|ss| - 1];
      OnlyTeams(less);
      Last(less, s);
      assert ss == less + [s];
      hide NamesIn, TextsIn, ContextsIn, TeamsIn, MountsIn;
    }
  }

  lemma {:induction false} OnlyMounts(ss: seq<Statement>)
    requires forall i | 0 <= i < |ss| :: ss[i].Brings?
    ensures NamesIn(ss) == [] && TextsIn(ss) == [] && ContextsIn(ss) == [] && TeamsIn(ss) == []
    ensures |MountsIn(ss)| == |ss|
    ensures forall i | 0 <= i < |ss| :: MountsIn(ss)[i] == (ss[i].name, ss[i].token, ss[i].mode)
  {
    if ss != [] {
      var less, s := ss[..|ss| - 1], ss[|ss| - 1];
      OnlyMounts(less);
      Last(less, s);
      assert ss == less + [s];
      hide NamesIn, TextsIn, ContextsIn, TeamsIn, MountsIn;
    }
  }

  lemma HeaderIn(name: string, text: string, context: seq<Statement>)
    requires |context| <= 1 && forall i | 0 <= i < |context| :: context[i].Explains?
    ensures var ss := [Names(name), Describes(text)] + context;
            && NamesIn(ss) == [name] && TextsIn(ss) == [text] && TeamsIn(ss) == [] && MountsIn(ss) == []
            && ContextsIn(ss) == (if context == [] then [] else [context[0].lines])
  {
    Last([], Names(name));
    Last([Names(name)], Describes(text));
    assert [] + [Names(name)] == [Names(name)];
    assert [Names(name)] + [Describes(text)] == [Names(name), Describes(text)];
    if context == [] {
      assert [Names(name), Describes(text)] + context == [Names(name), Describes(text)];
    } else {
      assert context == [context[0]];
      Last([Names(name), Describes(text)], context[0]);
    }
    assert NamesIn([]) == [] && TextsIn([]) == [] && ContextsIn([]) == [] && TeamsIn([]) == [] && MountsIn([]) == [];
    hide NamesIn, TextsIn, ContextsIn, TeamsIn, MountsIn;
  }

  /** Tokens that lead to the project's directories. */
  predicate Reach(resolve: Resolver, p: Project, teams: seq<string>, mounts: seq<string>) {
    && |teams| == |p.teams| && |mounts| == |p.mounts|
    && (forall i | 0 <= i < |teams| :: Leads(resolve, teams[i], p.teams[i].path))
    && (forall i | 0 <= i < |mounts| :: Leads(resolve, mounts[i], p.mounts[i].path))
  }

  lemma StatementsHold(p: Project, marker: string, teams: seq<string>, mounts: seq<string>)
    requires |teams| == |p.teams| && |mounts| == |p.mounts|
    ensures var ss := StatementsOf(p, marker, teams, mounts);
            && NamesIn(ss) == [p.name] && TextsIn(ss) == [p.description]
            && ContextsIn(ss) == (if p.context == "" then [] else [SplitLines(p.context)])
            && |TeamsIn(ss)| == |p.teams| && |MountsIn(ss)| == |p.mounts|
            && (forall i | 0 <= i < |p.teams| :: TeamsIn(ss)[i] == (teams[i], p.teams[i].mode))
            && (forall i | 0 <= i < |p.mounts| :: MountsIn(ss)[i] == (p.mounts[i].name, mounts[i], p.mounts[i].mode))
  {
    hide NamesIn, TextsIn, ContextsIn, TeamsIn, MountsIn, SplitLines;
    var context := if p.context == "" then [] else [Explains(marker, SplitLines(p.context))];
    var header := [Names(p.name), Describes(p.description)] + context;
    var ts, ms := TeamStatements(p.teams, teams), MountStatements(p.mounts, mounts);
    assert StatementsOf(p, marker, teams, mounts) == header + ts + ms;
    HeaderIn(p.name, p.description, context);
    OnlyTeams(ts);
    OnlyMounts(ms);
    hide TeamStatements, MountStatements, StatementsOf;
    InAppend(header, ts);
    InAppend(header + ts, ms);
  }

  lemma TeamsFit(teams: seq<Team>, tokens: seq<string>, said: seq<(string, Mode)>, resolve: Resolver)
    requires Printer.GoodTeams(teams) && |tokens| == |teams| == |said|
    requires forall i | 0 <= i < |teams| :: Leads(resolve, tokens[i], teams[i].path)
    requires forall i | 0 <= i < |teams| :: said[i] == (tokens[i], teams[i].mode)
    ensures TeamsAre(said, resolve, teams)
  {
    hide Leads, IsTeamName, Fold, Bindable;
    forall i, j | 0 <= i < j < |teams|
      ensures teams[i].path != teams[j].path && Fold(NameOf(teams[i].path)) != Fold(NameOf(teams[j].path))
    {
      assert !TeamClash(teams[i], teams[j]);
    }
  }

  lemma MountsFit(mounts: seq<Mount>, tokens: seq<string>, said: seq<(string, string, Mode)>, resolve: Resolver)
    requires Printer.GoodMounts(mounts) && |tokens| == |mounts| == |said|
    requires forall i | 0 <= i < |mounts| :: Leads(resolve, tokens[i], mounts[i].path)
    requires forall i | 0 <= i < |mounts| :: said[i] == (mounts[i].name, tokens[i], mounts[i].mode)
    ensures MountsAre(said, resolve, mounts)
  {
    hide Leads, IsName, Bindable;
    forall i, j | 0 <= i < j < |mounts| ensures mounts[i].name != mounts[j].name && mounts[i].path != mounts[j].path {
      assert !MountClash(mounts[i], mounts[j]);
    }
  }

  lemma ContextFits(context: string)
    requires Printer.GoodContext(context) && context != ""
    ensures var lines := SplitLines(context); Trimmed(lines) != [] && Joined(Trimmed(lines)) == context
  {
    Printer.TrimmedAlready(SplitLines(context));
  }

  lemma StatementsDefine(p: Project, marker: string, teams: seq<string>, mounts: seq<string>, resolve: Resolver)
    requires Printer.WellFormed(p) && Reach(resolve, p, teams, mounts)
    ensures Defines(StatementsOf(p, marker, teams, mounts), resolve, p)
  {
    var ss := StatementsOf(p, marker, teams, mounts);
    StatementsHold(p, marker, teams, mounts);
    hide NamesIn, TextsIn, ContextsIn, TeamsIn, MountsIn, Trimmed, Joined, IsName, SplitLines, Disjoint, Leads,
         StatementsOf, Printer.GoodTeams, Printer.GoodMounts, Printer.GoodContext, TeamsAre, MountsAre;
    TeamsFit(p.teams, teams, TeamsIn(ss), resolve);
    MountsFit(p.mounts, mounts, MountsIn(ss), resolve);
    if p.context != "" {
      ContextFits(p.context);
    }
  }

  /** Any project the parser could return, written as statements whose tokens lead to its
      directories, loads back as itself, whatever the number of its teams and mounts. */
  lemma WrittenLoads(p: Project, marker: string, teams: seq<string>, mounts: seq<string>, resolve: Resolver)
    requires Printer.WellFormed(p) && Reach(resolve, p, teams, mounts)
    requires IsMarker(marker) && marker !in SplitLines(p.context)
    ensures var text := Lined(Texts(StatementsOf(p, marker, teams, mounts)));
            Utf8Size(text) <= 1024 * 1024 ==> Load(text, resolve) == Ok(p)
  {
    var ss := StatementsOf(p, marker, teams, mounts);
    StatementsDefine(p, marker, teams, mounts, resolve);
    forall i | 0 <= i < |ss| ensures Writable(ss[i]) && Plain(TextOf(ss[i])) {
      StatementWritable(p, marker, teams, mounts, resolve, i);
    }
    hide Defines, Writable, Says, StatementsOf, Load, Utf8Size;
    TextsSay(ss);
    TextsPlain(ss);
    PlainIsClean(Texts(ss));
    UnixAlready(Lined(Texts(ss)));
    SplitLined(Texts(ss));
    LoadIs(Lined(Texts(ss)), resolve, p);
  }

  lemma {:induction false} TextsPlain(ss: seq<Statement>)
    requires forall i | 0 <= i < |ss| :: Plain(TextOf(ss[i]))
    ensures Plain(Texts(ss))
  {
    hide TextOf;
    if ss != [] {
      TextsPlain(ss[1..]);
      PlainAppend(TextOf(ss[0]), Texts(ss[1..]));
    }
  }

  lemma TokenPlain(token: string)
    requires IsPathToken(token)
    ensures Word(token) && NoControl(token)
  {
    forall i | 0 <= i < |token| ensures !IsSpace(token[i]) && !IsControl(token[i]) {
      assert PathChar(token[i]);
    }
  }

  /** What a statement holds can stand in a file. */
  predicate Storable(s: Statement) {
    match s
    case Names(name) => NoControl(name)
    case Describes(text) => NoBreak(text) && NoControl(text)
    case Explains(_, lines) => Plain(lines)
    case Selects(token, _) => NoControl(token)
    case Brings(name, token, _) => NoControl(name) && NoControl(token)
  }

  lemma WordsPlain(words: seq<string>)
    requires Words(words) && forall i | 0 <= i < |words| :: NoControl(words[i])
    ensures Plain([Spaced(words)])
  {
    SpacedPlain(words);
  }

  lemma NameTextPlain(name: string)
    requires Word(name) && NoControl(name)
    ensures Plain(["name " + name])
  {
    WordsPlain(["name", name]);
    assert Spaced(["name", name]) == "name " + name by {
      assert ["name", name][1..] == [name];
      assert "name" + " " + name == "name " + name;
    }
  }

  lemma ContextTextPlain(marker: string, lines: seq<string>)
    requires IsMarker(marker) && Plain(lines)
    ensures Plain(["context <<" + marker] + lines + [marker])
  {
    var opening := "context <<" + marker;
    forall i | 0 <= i < |marker| ensures !IsBreak(marker[i]) && !IsControl(marker[i]) {
      assert Lower(marker[i]) || Upper(marker[i]) || Digit(marker[i]) || marker[i] == '_';
    }
    forall i | 0 <= i < |opening| ensures !IsBreak(opening[i]) && !IsControl(opening[i]) {
      if i >= 10 {
        assert opening[i] == marker[i - 10];
      }
    }
    assert Plain([opening]) && Plain([marker]);
    PlainAppend([opening], lines);
    PlainAppend([opening] + lines, [marker]);
  }

  lemma TextPlain(s: Statement)
    requires Writable(s) && Storable(s)
    ensures Plain(TextOf(s))
  {
    match s {
      case Names(name) => NameTextPlain(name);
      case Describes(text) =>
        var line := "description " + text;
        assert forall i | 0 <= i < |line| :: i >= 12 ==> line[i] == text[i - 12];
      case Explains(marker, lines) => ContextTextPlain(marker, lines);
      case Selects(token, mode) => WordsPlain(["team", token, ModeText(mode)]);
      case Brings(name, token, mode) => WordsPlain(["mount", name, token, ModeText(mode)]);
    }
  }

  lemma StatementWritable(p: Project, marker: string, teams: seq<string>, mounts: seq<string>, resolve: Resolver,
                          i: nat)
    requires Printer.WellFormed(p) && Reach(resolve, p, teams, mounts)
    requires IsMarker(marker) && marker !in SplitLines(p.context)
    requires i < |StatementsOf(p, marker, teams, mounts)|
    ensures var s := StatementsOf(p, marker, teams, mounts)[i]; Writable(s) && Plain(TextOf(s))
  {
    var s := StatementsOf(p, marker, teams, mounts)[i];
    hide Disjoint, Bindable, IsMarker, SplitLines;
    var h := if p.context == "" then 2 else 3;
    if s.Names? {
      Printer.NameIsWord(p.name);
      TokenPlain(p.name);
    } else if s.Selects? {
      assert Leads(resolve, teams[i - h], p.teams[i - h].path);
      TokenPlain(s.token);
    } else if s.Brings? {
      var k := i - h - |p.teams|;
      assert Leads(resolve, mounts[k], p.mounts[k].path) && IsName(p.mounts[k].name);
      TokenPlain(s.token);
      Printer.NameIsWord(s.name);
      TokenPlain(s.name);
    }
    assert Writable(s) && Storable(s);
    hide Writable, Storable;
    TextPlain(s);
  }
}
