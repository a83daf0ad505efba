/** The printer of `project.cyclo` for one team's container, and its round trip
    through the parser. */
module ProjectPrinter {
  import opened Outcomes
  import opened Text
  import opened ProjectText
  import Mounts

  // ---- what the parser can return ----

  predicate GoodDescription(s: string) {
    s != "" && Stripped(s) && NoBreak(s) && NoControl(s)
  }

  /** Lines without empty ones at either end, joined. */
  predicate GoodContext(context: string) {
    var lines := SplitLines(context);
    && context == Joined(lines) && Plain(lines) && |lines| <= MAX_BYTES
    && (lines != [] ==> !Empty(lines[0]) && !Empty(lines[|lines| - 1]))
  }

  predicate GoodTeams(teams: seq<Team>) {
    && (forall i | 0 <= i < |teams| :: IsTeamName(NameOf(teams[i].path)) && Bindable(teams[i].path))
    && forall i, j | 0 <= i < j < |teams| :: !TeamClash(teams[i], teams[j])
  }

  predicate GoodMounts(mounts: seq<Mount>) {
    && (forall i | 0 <= i < |mounts| :: IsName(mounts[i].name) && Bindable(mounts[i].path))
    && forall i, j | 0 <= i < j < |mounts| :: !MountClash(mounts[i], mounts[j])
  }

  predicate WellFormed(p: Project) {
    && IsName(p.name) && GoodDescription(p.description) && GoodContext(p.context)
    && p.teams != [] && GoodTeams(p.teams)
    && p.mounts != [] && GoodMounts(p.mounts)
    && Disjoint(Roots(p.teams, p.mounts))
  }

  predicate GoodDraft(d: Draft) {
    && (d.name.Some? ==> IsName(d.name.value))
    && (d.description.Some? ==> GoodDescription(d.description.value))
    && (d.context.Some? ==> GoodContext(d.context.value))
    && GoodTeams(d.teams) && GoodMounts(d.mounts)
  }

  lemma ResolvedIsBindable(resolve: Resolver, token: string)
    requires ResolveDirectory(resolve, token).Ok?
    ensures Bindable(ResolveDirectory(resolve, token).value)
  {
  }

  lemma TeamAdded(teams: seq<Team>, team: Team)
    requires GoodTeams(teams) && IsTeamName(NameOf(team.path)) && Bindable(team.path)
    requires forall i | 0 <= i < |teams| :: !TeamClash(teams[i], team)
    ensures GoodTeams(teams + [team])
  {
    hide IsTeamName, Bindable, TeamClash;
  }

  lemma MountAdded(mounts: seq<Mount>, mount: Mount)
    requires GoodMounts(mounts) && IsName(mount.name) && Bindable(mount.path)
    requires forall i | 0 <= i < |mounts| :: !MountClash(mounts[i], mount)
    ensures GoodMounts(mounts + [mount])
  {
    hide IsName, Bindable, MountClash;
  }

  lemma TeamKeeps(d: Draft, fields: seq<string>, resolve: Resolver)
    requires GoodTeams(d.teams) && TeamLine(d, fields, resolve).Ok?
    ensures GoodTeams(TeamLine(d, fields, resolve).value.teams)
  {
    hide IsTeamName, Bindable, TeamClash, ResolveDirectory, ParseMode;
    ResolvedIsBindable(resolve, fields[1]);
    var path := ResolveDirectory(resolve, fields[1]).value;
    TeamAdded(d.teams, Team(path, ParseMode(fields[2]).value));
  }

  lemma MountKeeps(d: Draft, fields: seq<string>, resolve: Resolver)
    requires GoodMounts(d.mounts) && MountLine(d, fields, resolve).Ok?
    ensures GoodMounts(MountLine(d, fields, resolve).value.mounts)
  {
    hide IsName, Bindable, MountClash, ResolveDirectory, ParseMode;
    ResolvedIsBindable(resolve, fields[2]);
    var path := ResolveDirectory(resolve, fields[2]).value;
    MountAdded(d.mounts, Mount(fields[1], path, ParseMode(fields[3]).value));
  }

  lemma DescriptionKeeps(d: Draft, line: string)
    requires NoBreak(line) && NoControl(line) && DescriptionLine(d, Remainder(line)).Ok?
    ensures GoodDescription(DescriptionLine(d, Remainder(line)).value.description.value)
  {
    assert NoBreak(Remainder(line)) && NoControl(Remainder(line));
    StripIs(Remainder(line));
    StripKeeps(Remainder(line));
  }

  lemma SimpleKeeps(d: Draft, line: string, resolve: Resolver)
    requires GoodDraft(d) && NoBreak(line) && NoControl(line) && Simple(d, line, resolve).Ok?
    ensures GoodDraft(Simple(d, line, resolve).value)
  {
    var directive := Directive(line);
    if directive == "description" {
      DescriptionKeeps(d, line);
    } else if directive == "team" {
      TeamKeeps(d, Fields(line), resolve);
    } else if directive == "mount" {
      MountKeeps(d, Fields(line), resolve);
    }
  }

  /** Trimming leaves lines that have text at both ends. */
  lemma TrimmedIs(lines: seq<string>)
    ensures var t := Trimmed(lines);
            && |t| <= |lines| && (Plain(lines) ==> Plain(t))
            && (t != [] ==> !Empty(t[0]) && !Empty(t[|t| - 1]))
  {
    FirstTextIs(lines, 0);
    var first := FirstText(lines, 0);
    LastTextIs(lines, first, |lines|);
  }

  lemma {:induction false} FirstTextIs(lines: seq<string>, i: nat)
    requires i <= |lines|
    ensures FirstText(lines, i) < |lines| ==> !Empty(lines[FirstText(lines, i)])
    decreases |lines| - i
  {
    if i < |lines| && Empty(lines[i]) {
      FirstTextIs(lines, i + 1);
    }
  }

  lemma {:induction false} LastTextIs(lines: seq<string>, first: nat, j: nat)
    requires first <= j <= |lines|
    ensures first < LastText(lines, first, j) ==> !Empty(lines[LastText(lines, first, j) - 1])
  {
    if first < j && Empty(lines[j - 1]) {
      LastTextIs(lines, first, j - 1);
    }
  }

  lemma BodyIsContext(body: seq<string>)
    requires body != [] && Plain(body) && |body| <= MAX_BYTES
    requires !Empty(body[0]) && !Empty(body[|body| - 1])
    ensures GoodContext(Joined(body)) && SplitLines(Joined(body)) == body
  {
    PlainIsClean(body);
    SplitJoined(body);
  }

  lemma StepKeeps(d: Draft, lines: seq<string>, resolve: Resolver)
    requires GoodDraft(d) && lines != [] && Plain(lines) && |lines| <= MAX_BYTES && Step(d, lines, resolve).Ok?
    ensures GoodDraft(Step(d, lines, resolve).value.0)
  {
    StripKeeps(lines[0]);
    var line := Strip(lines[0]);
    if line != "" && line[0] != '#' {
      if Directive(line) == "context" {
        var after := lines[1..];
        var body := after[..Find(after, Fields(line)[1][2..])];
        assert Plain(body);
        TrimmedIs(body);
        BodyIsContext(Trimmed(body));
      } else {
        SimpleKeeps(d, line, resolve);
      }
    }
  }

  lemma {:induction false} ParseKeeps(d: Draft, lines: seq<string>, resolve: Resolver)
    requires GoodDraft(d) && Plain(lines) && |lines| <= MAX_BYTES && Parse(d, lines, resolve).Ok?
    ensures GoodDraft(Parse(d, lines, resolve).value)
    decreases |lines|
  {
    if lines != [] {
      StepKeeps(d, lines, resolve);
      var (next, n) := Step(d, lines, resolve).value;
      ParseKeeps(next, lines[n..], resolve);
    }
  }

  /** Everything `load_project` returns is well formed. */
  lemma LoadedIsWellFormed(text: string, resolve: Resolver)
    requires Load(text, resolve).Ok?
    ensures WellFormed(Load(text, resolve).value)
  {
    var lines := SplitLines(Unix(text));
    UnixKeeps(text);
    SplitTidy(Unix(text));
    SplitLinesAre(Unix(text));
    ParseKeeps(BLANK, lines, resolve);
    assert SplitLines("") == [];
    assert GoodContext("");
  }

  // ---- the heredoc marker ----

  function DigitOf(n: nat): char
    requires n < 10
  {
    ((('0' as int) + n) as char)
  }

  function Decimal(n: nat): (s: string)
    ensures s != "" && forall i | 0 <= i < |s| :: Digit(s[i])
  {
    if n < 10 then [DigitOf(n)] else Decimal(n / 10) + [DigitOf(n % 10)]
  }

  function Value(s: string): nat
    requires forall i | 0 <= i < |s| :: Digit(s[i])
  {
    if s == "" then 0 else
      assert Digit(s[|s| - 1]);
      Value(s[..|s| - 1]) * 10 + (s[|s| - 1] as int - '0' as int)
  }

  lemma {:induction false} ValueOfDecimal(n: nat)
    ensures Value(Decimal(n)) == n
  {
    var s := Decimal(n);
    if n < 10 {
      assert s[..|s| - 1] == "";
      assert Value(s[..|s| - 1]) == 0;
    } else {
      ValueOfDecimal(n / 10);
      assert s[..|s| - 1] == Decimal(n / 10);
    }
  }

  function Marker(k: nat): string {
    if k <= 1 then "CYCLO_CONTEXT" else "CYCLO_CONTEXT" + "_" + Decimal(k)
  }

  lemma MarkersDiffer(j: nat, k: nat)
    requires 1 <= j < k
    ensures Marker(j) != Marker(k)
  {
    ValueOfDecimal(j);
    ValueOfDecimal(k);
    if j > 1 {
      assert Marker(j)[14..] == Decimal(j) && Marker(k)[14..] == Decimal(k);
    } else {
      assert |Marker(k)| > |Marker(j)|;
    }
  }

  /** The first suffix from `k` on whose marker is not among the lines. */
  function FreeSuffix(lines: set<string>, k: nat): (n: nat)
    ensures k <= n <= k + |lines|
    decreases |lines|
  {
    if Marker(k) in lines then FreeSuffix(lines - {Marker(k)}, k + 1) else k
  }

  lemma {:induction false} FreeSuffixIs(lines: set<string>, k: nat)
    requires k >= 1
    ensures Marker(FreeSuffix(lines, k)) !in lines
    ensures forall j | k <= j < FreeSuffix(lines, k) :: Marker(j) in lines
    decreases |lines|
  {
    if Marker(k) in lines {
      FreeSuffixIs(lines - {Marker(k)}, k + 1);
      MarkersDiffer(k, FreeSuffix(lines, k));
    }
  }

  function LineSet(lines: seq<string>): (r: set<string>)
    ensures forall l :: l in r <==> l in lines
    ensures |r| <= |lines|
  {
    if lines == [] then {} else LineSet(lines[..|lines| - 1]) + {lines[|lines| - 1]}
  }

  function Suffix(context: string): nat { FreeSuffix(LineSet(SplitLines(context)), 1) }

  /** The search returns the first candidate that is no line of the context, after
      at most one try more than the context has distinct lines. */
  method ProjectContextMarker(context: string) returns (marker: string)
    ensures marker == Marker(Suffix(context))
    ensures marker !in SplitLines(context)
    ensures 1 <= Suffix(context) <= |LineSet(SplitLines(context))| + 1
    ensures forall j | 1 <= j < Suffix(context) :: Marker(j) in SplitLines(context)
  {
    var lines := LineSet(SplitLines(context));
    var suffix := 1;
    marker := Marker(1);
    ghost var left := lines;
    while marker in lines
      invariant suffix >= 1 && marker == Marker(suffix)
      invariant left <= lines && forall l | l in lines && l !in left :: exists j | 1 <= j < suffix :: l == Marker(j)
      invariant FreeSuffix(lines, 1) == FreeSuffix(left, suffix)
      decreases left
    {
      if marker !in left {
        var j :| 1 <= j < suffix && marker == Marker(j);
        MarkersDiffer(j, suffix);
        assert false;
      }
      assert forall l | l in lines && l !in left - {marker} :: l == marker || l !in left;
      left := left - {marker};
      suffix := suffix + 1;
      marker := Marker(suffix);
    }
    FreeSuffixIs(lines, 1);
  }

  lemma {:induction false} DecimalLength(n: nat, digits: nat, bound: nat)
    requires digits >= 1 && bound == Power(digits) && n < bound
    ensures |Decimal(n)| <= digits
  {
    if n >= 10 {
      assert digits > 1;
      assert n / 10 < Power(digits - 1);
      DecimalLength(n / 10, digits - 1, Power(digits - 1));
    }
  }

  function Power(digits: nat): nat {
    if digits == 0 then 1 else 10 * Power(digits - 1)
  }

  lemma MarkerChars(k: nat)
    requires |Marker(k)| <= 32
    ensures IsMarker(Marker(k))
  {
    var stem := "CYCLO_CONTEXT";
    assert forall i | 0 <= i < |stem| :: Upper(stem[i]) || stem[i] == '_';
    assert stem[0] == 'C';
  }

  /** Within the size limit the chosen marker always fits the marker grammar. */
  lemma MarkerFits(context: string)
    requires |SplitLines(context)| <= MAX_BYTES
    ensures IsMarker(Marker(Suffix(context)))
  {
    var k := Suffix(context);
    assert Power(2) == 100 && Power(4) == 10_000 && Power(6) == 1_000_000 && Power(7) == 10_000_000;
    DecimalLength(k, 7, Power(7));
    MarkerChars(k);
  }

  // ---- the printer ----

  const ORIGIN := ["#", "Generated", "by", "Cyclo", "for", "this", "team", "container."]
  const NOTICE := ["#", "Team", "and", "mount", "paths", "are", "container", "paths;",
                   "host", "paths", "are", "omitted."]

  function MountRoot(m: Mode): string { if m.RW? then "workspace" else "readonly" }

  function ContainerToken(m: Mount): string { "/" + MountRoot(m.mode) + "/" + m.name }

  function MountText(m: Mount): string { Spaced(["mount", m.name, ContainerToken(m), ModeText(m.mode)]) }

  function MountTexts(mounts: seq<Mount>): seq<string> {
    if mounts == [] then [] else [MountText(mounts[0])] + MountTexts(mounts[1..])
  }

  function TeamText(t: Team): string { Spaced(["team", "/team", ModeText(t.mode)]) }

  /** The lines before joining; the context is one of them, whatever lines it has. */
  function TextLines(p: Project, t: Team, marker: string): seq<string> {
    [Spaced(ORIGIN), Spaced(NOTICE), "name " + p.name, "description " + p.description]
    + (if p.context == "" then [] else ["", "context <<" + marker, p.context, marker])
    + ["", TeamText(t), ""]
    + MountTexts(p.mounts)
  }

  function Rendering(p: Project, t: Team, marker: string): string { Lined(TextLines(p, t, marker)) }

  // ---- what it means in the container ----

  function InContainer(m: Mount): Mount { Mount(m.name, [MountRoot(m.mode), m.name], m.mode) }

  function Contained(mounts: seq<Mount>): (r: seq<Mount>)
    ensures |r| == |mounts| && forall i | 0 <= i < |mounts| :: r[i] == InContainer(mounts[i])
  {
    if mounts == [] then [] else [InContainer(mounts[0])] + Contained(mounts[1..])
  }

  function Container(p: Project, t: Team): Project {
    Project(p.name, p.description, p.context, [Team(["team"], t.mode)], Contained(p.mounts))
  }

  /** Container paths exist and resolve to themselves. */
  predicate Inhabits(resolve: Resolver, p: Project) {
    && resolve("/team") == Directory(["team"])
    && forall i | 0 <= i < |p.mounts| ::
         resolve(ContainerToken(p.mounts[i])) == Directory([MountRoot(p.mounts[i].mode), p.mounts[i].name])
  }

  // ---- the round trip ----

  lemma {:induction false} IndexOfIs(s: string, c: char, n: nat)
    requires n < |s| && s[n] == c && c !in s[..n]
    ensures IndexOf(s, c) == n
  {
    if n > 0 {
      assert s[..n][0] == s[0] && s[..n][1..] == s[1..][..n - 1];
      assert forall x | x in s[1..][..n - 1] :: x in s[..n];
      IndexOfIs(s[1..], c, n - 1);
    }
  }

  lemma FirstWord(word: string, rest: string)
    requires Word(word)
    ensures Directive(word + " " + rest) == word && Remainder(word + " " + rest) == rest
  {
    var line := word + " " + rest;
    assert ' ' !in line[..|word|] by {
      assert line[..|word|] == word;
    }
    IndexOfIs(line, ' ', |word|);
    assert line[|word| + 1..] == rest;
  }

  /** A line of words is read as those words. */
  lemma WordsLine(words: seq<string>)
    requires |words| >= 2 && Words(words)
    ensures var line := Spaced(words);
            Strip(line) == line && line != "" && line[0] == words[0][0] && Directive(line) == words[0]
            && Fields(line) == words
  {
    SpacedEnds(words);
    StripIs(Spaced(words));
    FieldsOfSpaced(words);
    FirstWord(words[0], Spaced(words[1..]));
  }

  lemma NameIsWord(name: string)
    requires IsName(name)
    ensures Word(name) && IsPathToken(name) && Bindable([name])
  {
    forall i | 0 <= i < |name| ensures !IsSpace(name[i]) && PathChar(name[i]) && name[i] != ',' && !IsControl(name[i]) {
      assert NameChar(name[i]);
    }
  }

  lemma SkipLine(d: Draft, line: string, rest: seq<string>, resolve: Resolver)
    requires Strip(line) == "" || Strip(line)[0] == '#'
    ensures Parse(d, [line] + rest, resolve) == Parse(d, rest, resolve)
  {
    assert ([line] + rest)[1..] == rest;
  }

  lemma SimpleLine(d: Draft, line: string, rest: seq<string>, resolve: Resolver)
    requires Strip(line) == line && line != "" && line[0] != '#' && Directive(line) != "context"
    requires Simple(d, line, resolve).Ok?
    ensures Parse(d, [line] + rest, resolve) == Parse(Simple(d, line, resolve).value, rest, resolve)
  {
    assert ([line] + rest)[1..] == rest;
  }

  lemma NameRead(d: Draft, name: string, rest: seq<string>, resolve: Resolver)
    requires IsName(name) && d.name.None?
    ensures Parse(d, ["name " + name] + rest, resolve) == Parse(d.(name := Some(name)), rest, resolve)
  {
    NameIsWord(name);
    var words := ["name", name];
    assert Spaced(words) == "name" + " " + name by {
      assert words[1..] == [name];
    }
    assert "name " + name == "name" + " " + name;
    WordsLine(words);
    SimpleLine(d, "name " + name, rest, resolve);
  }

  lemma DescriptionRead(d: Draft, text: string, rest: seq<string>, resolve: Resolver)
    requires GoodDescription(text) && d.description.None?
    ensures Parse(d, ["description " + text] + rest, resolve) == Parse(d.(description := Some(text)), rest, resolve)
  {
    var line := "description " + text;
    assert line == "description" + " " + text;
    FirstWord("description", text);
    assert Stripped(line);
    StripIs(line);
    StripIs(text);
    SimpleLine(d, line, rest, resolve);
  }

  lemma TeamLineIs(d: Draft, t: Team, resolve: Resolver)
    requires resolve("/team") == Directory(["team"]) && d.teams == []
    ensures TeamLine(d, ["team", "/team", ModeText(t.mode)], resolve) == Ok(d.(teams := [Team(["team"], t.mode)]))
  {
    assert IsPathToken("/team") && Bindable(["team"]) && IsTeamName("team");
    assert ResolveDirectory(resolve, "/team") == Ok(["team"]);
    assert NameOf(["team"]) == "team";
    assert d.teams + [Team(["team"], t.mode)] == [Team(["team"], t.mode)];
  }

  lemma TeamRead(d: Draft, t: Team, rest: seq<string>, resolve: Resolver)
    requires resolve("/team") == Directory(["team"]) && d.teams == []
    ensures Parse(d, [TeamText(t)] + rest, resolve)
         == Parse(d.(teams := [Team(["team"], t.mode)]), rest, resolve)
  {
    var words := ["team", "/team", ModeText(t.mode)];
    WordsLine(words);
    TeamLineIs(d, t, resolve);
    SimpleLine(d, Spaced(words), rest, resolve);
  }

  lemma ContainerTokenIs(m: Mount)
    requires IsName(m.name)
    ensures Word(ContainerToken(m)) && IsPathToken(ContainerToken(m)) && Bindable([MountRoot(m.mode), m.name])
  {
    NameIsWord(m.name);
    var root := "/" + MountRoot(m.mode) + "/";
    assert forall i | 0 <= i < |root| :: PathChar(root[i]);
    assert ContainerToken(m) == root + m.name;
    forall i | 0 <= i < |ContainerToken(m)| ensures PathChar(ContainerToken(m)[i]) {
      if i >= |root| {
        assert ContainerToken(m)[i] == m.name[i - |root|];
      }
    }
    assert NoControl(MountRoot(m.mode)) && ',' !in MountRoot(m.mode);
  }

  lemma MountRead(d: Draft, m: Mount, rest: seq<string>, resolve: Resolver)
    requires Resolves(resolve, m)
    requires forall i | 0 <= i < |d.mounts| :: !MountClash(d.mounts[i], InContainer(m))
    ensures Parse(d, [MountText(m)] + rest, resolve)
         == Parse(d.(mounts := d.mounts + [InContainer(m)]), rest, resolve)
  {
    NameIsWord(m.name);
    ContainerTokenIs(m);
    var words := ["mount", m.name, ContainerToken(m), ModeText(m.mode)];
    WordsLine(words);
    assert MountLine(d, words, resolve) == Ok(d.(mounts := d.mounts + [InContainer(m)]));
    SimpleLine(d, Spaced(words), rest, resolve);
  }

  predicate DistinctMountNames(mounts: seq<Mount>) {
    forall i, j | 0 <= i < j < |mounts| :: mounts[i].name != mounts[j].name
  }

  predicate Resolves(resolve: Resolver, m: Mount) {
    IsName(m.name) && resolve(ContainerToken(m)) == Directory([MountRoot(m.mode), m.name])
  }

  lemma NoClash(mounts: seq<Mount>, k: nat)
    requires k < |mounts| && DistinctMountNames(mounts)
    ensures forall i | 0 <= i < k :: !MountClash(Contained(mounts)[..k][i], InContainer(mounts[k]))
  {
    forall i | 0 <= i < k ensures !MountClash(Contained(mounts)[..k][i], InContainer(mounts[k])) {
      assert Contained(mounts)[..k][i] == InContainer(mounts[i]);
      assert InContainer(mounts[i]).path[1] != InContainer(mounts[k]).path[1];
    }
  }

  lemma TextsFrom(mounts: seq<Mount>, k: nat)
    requires k < |mounts|
    ensures MountTexts(mounts[k..]) == [MountText(mounts[k])] + MountTexts(mounts[k + 1..])
  {
    assert mounts[k..][0] == mounts[k] && mounts[k..][1..] == mounts[k + 1..];
  }

  lemma MountsDone(d: Draft, mounts: seq<Mount>, resolve: Resolver)
    ensures Parse(d, MountTexts(mounts[|mounts|..]), resolve) == Ok(d)
  {
    assert mounts[|mounts|..] == [];
  }

  /** The mount lines from the `k`-th on complete what was read before. */
  lemma {:induction false} MountsRead(d: Draft, mounts: seq<Mount>, k: nat, resolve: Resolver)
    requires k <= |mounts| && DistinctMountNames(mounts)
    requires forall i | 0 <= i < |mounts| :: Resolves(resolve, mounts[i])
    requires d.mounts == Contained(mounts)[..k]
    ensures Parse(d, MountTexts(mounts[k..]), resolve) == Ok(d.(mounts := Contained(mounts)))
    decreases |mounts| - k
  {
    hide DistinctMountNames, Resolves, MountText, MountTexts, InContainer, MountClash, Contained, Parse;
    var all := Contained(mounts);
    if k == |mounts| {
      MountsDone(d, mounts, resolve);
      assert all[..k] == all;
    } else {
      TextsFrom(mounts, k);
      NoClash(mounts, k);
      MountRead(d, mounts[k], MountTexts(mounts[k + 1..]), resolve);
      assert all[..k] + [InContainer(mounts[k])] == all[..k + 1];
      MountsRead(d.(mounts := all[..k + 1]), mounts, k + 1, resolve);
    }
  }

  lemma TrimmedAlready(body: seq<string>)
    requires body != [] && !Empty(body[0]) && !Empty(body[|body| - 1])
    ensures Trimmed(body) == body
  {
    assert body[0..|body|] == body;
  }

  lemma MarkerWord(marker: string)
    requires IsMarker(marker)
    ensures Word("<<" + marker) && IsHeredoc(["context", "<<" + marker])
  {
    var word := "<<" + marker;
    assert word[2..] == marker;
    forall i | 0 <= i < |word| ensures !IsSpace(word[i]) {
      assert i >= 2 ==> word[i] == marker[i - 2];
    }
  }

  lemma FindIs(body: seq<string>, marker: string, rest: seq<string>)
    requires marker !in body
    ensures Find(body + [marker] + rest, marker) == |body|
  {
    var after := body + [marker] + rest;
    assert after[..|body|] == body;
    FindFrom(after, marker, |body|);
    assert after[|body|..][0] == marker;
  }

  lemma SplitAtMarker(body: seq<string>, marker: string, rest: seq<string>)
    ensures var after := body + [marker] + rest;
            after[..|body|] == body && after[|body|] == marker && after[|body| + 1..] == rest && |after| > |body|
  {
  }

  lemma BlockIs(d: Draft, marker: string, body: seq<string>, rest: seq<string>)
    requires marker !in body && body != [] && !Empty(body[0]) && !Empty(body[|body| - 1])
    ensures Block(d, body + [marker] + rest, marker) == Ok((d.(context := Some(Joined(body))), |body| + 1))
  {
    hide Find, Trimmed, Empty, Joined;
    FindIs(body, marker, rest);
    SplitAtMarker(body, marker, rest);
    TrimmedAlready(body);
  }

  lemma HeredocLine(marker: string)
    requires IsMarker(marker)
    ensures var line, words := "context <<" + marker, ["context", "<<" + marker];
            Strip(line) == line && line != "" && line[0] != '#' && Directive(line) == "context"
            && Fields(line) == words && IsHeredoc(words) && words[1][2..] == marker
  {
    var words := ["context", "<<" + marker];
    MarkerWord(marker);
    assert Spaced(words) == "context" + " " + ("<<" + marker) by {
      assert words[1..] == ["<<" + marker];
    }
    assert Spaced(words) == "context <<" + marker;
    WordsLine(words);
    assert ("<<" + marker)[2..] == marker;
  }

  lemma ContextLine(d: Draft, line: string, after: seq<string>, next: Draft, n: nat, resolve: Resolver)
    requires Strip(line) == line && line != "" && line[0] != '#' && Directive(line) == "context"
    requires Heredoc(d, Fields(line), after) == Ok((next, n))
    ensures Parse(d, [line] + after, resolve) == Parse(next, after[n..], resolve)
  {
    hide Strip, Directive, Fields, Heredoc, Simple;
    var lines := [line] + after;
    assert lines[1..] == after && lines[n + 1..] == after[n..];
  }

  /** A block is read as its lines, up to the first line that equals the marker. */
  lemma BlockRead(d: Draft, marker: string, body: seq<string>, rest: seq<string>, resolve: Resolver)
    requires IsMarker(marker) && marker !in body && d.context.None?
    requires body != [] && !Empty(body[0]) && !Empty(body[|body| - 1])
    ensures Parse(d, ["context <<" + marker] + (body + [marker] + rest), resolve)
         == Parse(d.(context := Some(Joined(body))), rest, resolve)
  {
    hide Strip, Directive, Fields, Block, Parse, IsMarker, Empty, Joined;
    HeredocLine(marker);
    BlockIs(d, marker, body, rest);
    ContextLine(d, "context <<" + marker, body + [marker] + rest, d.(context := Some(Joined(body))), |body| + 1,
                resolve);
    SplitAtMarker(body, marker, rest);
  }

  /** What follows the context. */
  function Tail(p: Project, t: Team): seq<string> {
    [""] + ([TeamText(t)] + ([""] + MountTexts(p.mounts)))
  }

  /** The context block, as the lines it prints to. */
  function ContextLines(p: Project, marker: string): seq<string> {
    if p.context == "" then []
    else [""] + (["context <<" + marker] + (SplitLines(p.context) + [marker]))
  }

  function PrintedLines(p: Project, t: Team, marker: string): seq<string> {
    [Spaced(ORIGIN)] + ([Spaced(NOTICE)] + (["name " + p.name] + (["description " + p.description]
    + (ContextLines(p, marker) + Tail(p, t)))))
  }

  lemma TailRead(d: Draft, p: Project, t: Team, resolve: Resolver)
    requires WellFormed(p) && Inhabits(resolve, p) && d.teams == [] && d.mounts == []
    ensures Parse(d, Tail(p, t), resolve)
         == Ok(d.(teams := [Team(["team"], t.mode)], mounts := Contained(p.mounts)))
  {
    var d1 := d.(teams := [Team(["team"], t.mode)]);
    SkipLine(d, "", [TeamText(t)] + ([""] + MountTexts(p.mounts)), resolve);
    TeamRead(d, t, [""] + MountTexts(p.mounts), resolve);
    SkipLine(d1, "", MountTexts(p.mounts), resolve);
    assert p.mounts[0..] == p.mounts && Contained(p.mounts)[..0] == [];
    assert DistinctMountNames(p.mounts) by {
      forall i, j | 0 <= i < j < |p.mounts| ensures p.mounts[i].name != p.mounts[j].name {
        assert !MountClash(p.mounts[i], p.mounts[j]);
      }
    }
    MountsRead(d1, p.mounts, 0, resolve);
  }

  lemma BlockRegroup(open: string, body: seq<string>, marker: string, rest: seq<string>)
    ensures [""] + ([open] + (body + [marker])) + rest == [""] + ([open] + (body + [marker] + rest))
  {
  }

  lemma ContextRead(d: Draft, p: Project, marker: string, rest: seq<string>, resolve: Resolver)
    requires GoodContext(p.context) && p.context != ""
    requires IsMarker(marker) && marker !in SplitLines(p.context) && d.context.None?
    ensures Parse(d, ContextLines(p, marker) + rest, resolve) == Parse(d.(context := Some(p.context)), rest, resolve)
  {
    var body := SplitLines(p.context);
    BlockRegroup("context <<" + marker, body, marker, rest);
    BlockRead(d, marker, body, rest, resolve);
    SkipLine(d, "", ["context <<" + marker] + (body + [marker] + rest), resolve);
  }

  lemma OriginWords()
    ensures Words(ORIGIN) && forall i | 0 <= i < |ORIGIN| :: NoControl(ORIGIN[i])
  {
  }

  lemma NoticeWords()
    ensures Words(NOTICE) && forall i | 0 <= i < |NOTICE| :: NoControl(NOTICE[i])
  {
  }

  lemma HeaderSkipped(d: Draft, rest: seq<string>, resolve: Resolver)
    ensures Parse(d, [Spaced(ORIGIN)] + ([Spaced(NOTICE)] + rest), resolve) == Parse(d, rest, resolve)
  {
    OriginWords();
    NoticeWords();
    WordsLine(ORIGIN);
    WordsLine(NOTICE);
    SkipLine(d, Spaced(ORIGIN), [Spaced(NOTICE)] + rest, resolve);
    SkipLine(d, Spaced(NOTICE), rest, resolve);
  }

  lemma PrintedRead(p: Project, t: Team, marker: string, resolve: Resolver)
    requires WellFormed(p) && Inhabits(resolve, p)
    requires IsMarker(marker) && marker !in SplitLines(p.context)
    ensures Parse(BLANK, PrintedLines(p, t, marker), resolve)
         == Ok(Draft(Some(p.name), Some(p.description), if p.context == "" then None else Some(p.context),
                     [Team(["team"], t.mode)], Contained(p.mounts)))
  {
    var rest := ContextLines(p, marker) + Tail(p, t);
    var d1 := BLANK.(name := Some(p.name));
    var d2 := d1.(description := Some(p.description));
    var d3 := if p.context == "" then d2 else d2.(context := Some(p.context));
    HeaderSkipped(BLANK, ["name " + p.name] + (["description " + p.description] + rest), resolve);
    NameRead(BLANK, p.name, ["description " + p.description] + rest, resolve);
    DescriptionRead(d1, p.description, rest, resolve);
    if p.context != "" {
      ContextRead(d2, p, marker, Tail(p, t), resolve);
    } else {
      assert rest == Tail(p, t);
    }
    TailRead(d3, p, t, resolve);
  }

  // ---- from lines to text ----

  lemma ContextText(context: string)
    requires GoodContext(context) && context != ""
    ensures Lined([context]) == Lined(SplitLines(context))
  {
    LinedJoined(SplitLines(context));
    assert Lined([context]) == context + "\n" by {
      assert [context][1..] == [];
    }
  }

  lemma LinedSwap(a: seq<string>, b: seq<string>, c: seq<string>, z: seq<string>)
    requires Lined(b) == Lined(c)
    ensures Lined(a + b + z) == Lined(a + c + z)
  {
    LinedAppend(a + b, z);
    LinedAppend(a, b);
    LinedAppend(a + c, z);
    LinedAppend(a, c);
  }

  lemma Regroup(a: string, b: string, c: string, d: string, e: string, f: string, body: seq<string>, g: string,
                z: seq<string>)
    ensures [a] + ([b] + ([c] + ([d] + (([e] + ([f] + (body + [g]))) + z)))) == [a, b, c, d, e, f] + body + ([g] + z)
    ensures [a] + ([b] + ([c] + ([d] + ([] + z)))) == [a, b, c, d] + z
  {
  }

  lemma RegroupText(a: string, b: string, c: string, d: string, e: string, f: string, x: string, g: string,
                    t: string, z: seq<string>)
    ensures [a, b, c, d] + [e, f, x, g] + ["", t, ""] + z
         == [a, b, c, d, e, f] + [x] + ([g] + ([""] + ([t] + ([""] + z))))
    ensures [a, b, c, d] + [] + ["", t, ""] + z == [a, b, c, d] + ([""] + ([t] + ([""] + z)))
  {
  }

  /** The text is that of the printed lines. */
  lemma RenderingIs(p: Project, t: Team, marker: string)
    requires GoodContext(p.context)
    ensures Rendering(p, t, marker) == Lined(PrintedLines(p, t, marker))
  {
    var a, b, c, d := Spaced(ORIGIN), Spaced(NOTICE), "name " + p.name, "description " + p.description;
    var f, body := "context <<" + marker, SplitLines(p.context);
    Regroup(a, b, c, d, "", f, body, marker, Tail(p, t));
    RegroupText(a, b, c, d, "", f, p.context, marker, TeamText(t), MountTexts(p.mounts));
    if p.context != "" {
      ContextText(p.context);
      LinedSwap([a, b, c, d, "", f], [p.context], body, [marker] + Tail(p, t));
    }
  }

  lemma PlainCons(line: string, rest: seq<string>)
    requires NoBreak(line) && NoControl(line) && Plain(rest)
    ensures Plain([line] + rest)
  {
  }

  lemma WordsPlain(words: seq<string>)
    requires forall i | 0 <= i < |words| :: IsPathToken(words[i]) || IsName(words[i])
    ensures NoBreak(Spaced(words)) && NoControl(Spaced(words))
  {
    forall i | 0 <= i < |words| ensures Word(words[i]) && NoControl(words[i]) {
      if IsName(words[i]) {
        NameIsWord(words[i]);
      }
      forall k | 0 <= k < |words[i]| ensures !IsSpace(words[i][k]) && !IsControl(words[i][k]) {
        assert PathChar(words[i][k]);
      }
    }
    SpacedPlain(words);
    assert Spaced(words) == [Spaced(words)][0];
  }

  lemma {:induction false} MountTextsPlain(mounts: seq<Mount>)
    requires forall i | 0 <= i < |mounts| :: IsName(mounts[i].name)
    ensures Plain(MountTexts(mounts))
  {
    if mounts != [] {
      var m := mounts[0];
      ContainerTokenIs(m);
      WordsPlain(["mount", m.name, ContainerToken(m), ModeText(m.mode)]);
      MountTextsPlain(mounts[1..]);
      PlainCons(MountText(m), MountTexts(mounts[1..]));
    }
  }

  lemma TailPlain(p: Project, t: Team)
    requires WellFormed(p)
    ensures Plain(Tail(p, t))
  {
    MountTextsPlain(p.mounts);
    WordsPlain(["team", "/team", ModeText(t.mode)]);
    PlainCons("", MountTexts(p.mounts));
    PlainCons(TeamText(t), [""] + MountTexts(p.mounts));
    PlainCons("", [TeamText(t)] + ([""] + MountTexts(p.mounts)));
  }

  lemma ContextLinesPlain(p: Project, marker: string)
    requires GoodContext(p.context) && IsMarker(marker)
    ensures Plain(ContextLines(p, marker))
  {
    if p.context != "" {
      var opening := "context <<" + marker;
      forall i | 0 <= i < |opening| ensures !IsBreak(opening[i]) && !IsControl(opening[i]) {
        assert i >= 10 ==> opening[i] == marker[i - 10];
      }
      assert Plain([marker]);
      PlainAppend(SplitLines(p.context), [marker]);
      PlainCons(opening, SplitLines(p.context) + [marker]);
      PlainCons("", [opening] + (SplitLines(p.context) + [marker]));
    }
  }

  lemma NamedPlain(p: Project, rest: seq<string>)
    requires IsName(p.name) && GoodDescription(p.description) && Plain(rest)
    ensures Plain(["name " + p.name] + (["description " + p.description] + rest))
  {
    assert NoBreak("description " + p.description) && NoControl("description " + p.description);
    PlainCons("description " + p.description, rest);
    NameIsWord(p.name);
    assert NoBreak("name " + p.name) && NoControl("name " + p.name);
    PlainCons("name " + p.name, ["description " + p.description] + rest);
  }

  lemma PrintedPlain(p: Project, t: Team, marker: string)
    requires WellFormed(p) && IsMarker(marker)
    ensures Plain(PrintedLines(p, t, marker))
  {
    TailPlain(p, t);
    ContextLinesPlain(p, marker);
    var rest := ContextLines(p, marker) + Tail(p, t);
    PlainAppend(ContextLines(p, marker), Tail(p, t));
    NamedPlain(p, rest);
    HeaderPlain(["name " + p.name] + (["description " + p.description] + rest));
  }

  lemma HeaderPlain(rest: seq<string>)
    requires Plain(rest)
    ensures Plain([Spaced(ORIGIN)] + ([Spaced(NOTICE)] + rest))
  {
    OriginWords();
    NoticeWords();
    SpacedPlain(ORIGIN);
    SpacedPlain(NOTICE);
    PlainAppend([Spaced(NOTICE)], rest);
    PlainAppend([Spaced(ORIGIN)], [Spaced(NOTICE)] + rest);
  }

  lemma Incomparable(m: Mount, n: Mount)
    ensures m.name != n.name ==> !Mounts.Comparable(InContainer(m).path, InContainer(n).path)
    ensures !Mounts.Comparable(InContainer(m).path, ["team"])
  {
    assert InContainer(m).path[1] == m.name && InContainer(n).path[1] == n.name;
    assert |InContainer(m).path[0]| != |"team"|;
    assert InContainer(m).path[0] != ["team"][0];
  }

  lemma ContainerRoots(t: Mode, mounts: seq<Mount>, i: nat)
    requires i <= |mounts|
    ensures |Roots([Team(["team"], t)], Contained(mounts))| == |mounts| + 1
    ensures Roots([Team(["team"], t)], Contained(mounts))[i]
         == if i == 0 then ["team"] else InContainer(mounts[i - 1]).path
  {
  }

  lemma ContainerDisjoint(p: Project, t: Team)
    requires GoodMounts(p.mounts)
    ensures Disjoint(Roots([Team(["team"], t.mode)], Contained(p.mounts)))
  {
    var roots := Roots([Team(["team"], t.mode)], Contained(p.mounts));
    forall i, j | 0 <= j < i < |roots| ensures !Mounts.Comparable(roots[i], roots[j]) {
      ContainerRoots(t.mode, p.mounts, i);
      ContainerRoots(t.mode, p.mounts, j);
      if j > 0 {
        assert !MountClash(p.mounts[j - 1], p.mounts[i - 1]);
        Incomparable(p.mounts[i - 1], p.mounts[j - 1]);
      } else {
        Incomparable(p.mounts[i - 1], p.mounts[i - 1]);
      }
    }
  }

  lemma LoadLines(lines: seq<string>, d: Draft, resolve: Resolver)
    requires Plain(lines) && Parse(BLANK, lines, resolve) == Ok(d)
    ensures Utf8Size(Lined(lines)) <= MAX_BYTES ==> Load(Lined(lines), resolve) == Finish(d)
    ensures Utf8Size(Lined(lines)) > MAX_BYTES ==> Load(Lined(lines), resolve).Err?
  {
    PlainIsClean(lines);
    UnixAlready(Lined(lines));
    SplitLined(lines);
  }

  lemma FinishIs(p: Project, t: Team)
    requires WellFormed(p)
    ensures Finish(Draft(Some(p.name), Some(p.description), if p.context == "" then None else Some(p.context),
                         [Team(["team"], t.mode)], Contained(p.mounts)))
         == Ok(Container(p, t))
  {
    ContainerDisjoint(p, t);
  }

  /** Printing then parsing keeps the meaning: for every well-formed project, each
      of its teams and any usable marker, the text parses, wherever container paths
      resolve to themselves, to the project as the container sees it, exactly when
      it is within the size limit. */
  lemma PrintParse(p: Project, t: Team, marker: string, resolve: Resolver)
    requires WellFormed(p) && Inhabits(resolve, p)
    requires IsMarker(marker) && marker !in SplitLines(p.context)
    ensures var text := Rendering(p, t, marker);
            && (Load(text, resolve).Ok? <==> Utf8Size(text) <= MAX_BYTES)
            && (Load(text, resolve).Ok? ==> Load(text, resolve) == Ok(Container(p, t)))
  {
    RenderingIs(p, t, marker);
    PrintedPlain(p, t, marker);
    PrintedRead(p, t, marker, resolve);
    LoadLines(PrintedLines(p, t, marker), Parse(BLANK, PrintedLines(p, t, marker), resolve).value, resolve);
    FinishIs(p, t);
  }

  /** `render_container_project`, on what `load_project` returned. */
  method RenderContainerProject(p: Project, t: Team) returns (r: Result<string>)
    requires WellFormed(p)
    ensures r.Ok? <==> t in p.teams && Utf8Size(Rendering(p, t, Marker(Suffix(p.context)))) <= MAX_BYTES
    ensures r.Ok? ==> forall resolve | Inhabits(resolve, p) :: Load(r.value, resolve) == Ok(Container(p, t))
  {
    if t !in p.teams {
      return Err("selected team is not part of this project definition");
    }
    var lines := [Spaced(ORIGIN), Spaced(NOTICE), "name " + p.name, "description " + p.description];
    ghost var marker := Marker(Suffix(p.context));
    MarkerFits(p.context);
    FreeSuffixIs(LineSet(SplitLines(p.context)), 1);
    if p.context != "" {
      var chosen := ProjectContextMarker(p.context);
      lines := lines + ["", "context <<" + chosen, p.context, chosen];
    } else {
      assert lines + [] == lines;
    }
    lines := lines + ["", TeamText(t), ""] + MountTexts(p.mounts);
    var text := Lined(lines);
    assert text == Rendering(p, t, marker);
    if Utf8Size(text) > MAX_BYTES {
      return Err("container project configuration exceeds the size limit");
    }
    forall resolve | Inhabits(resolve, p) ensures Load(text, resolve) == Ok(Container(p, t)) {
      PrintParse(p, t, marker, resolve);
    }
    r := Ok(text);
  }

  // ---- the copy an instance keeps ----

  lemma {:induction false} JoinedEnd(lines: seq<string>)
    requires lines != [] && lines[|lines| - 1] != ""
    ensures Joined(lines) != ""
    ensures Joined(lines)[|Joined(lines)| - 1] == lines[|lines| - 1][|lines[|lines| - 1]| - 1]
  {
    if |lines| > 1 {
      JoinedEnd(lines[1..]);
    }
  }

  lemma MountTextEnds(m: Mount)
    requires IsName(m.name)
    ensures MountText(m) != "" && Stripped(MountText(m))
  {
    NameIsWord(m.name);
    ContainerTokenIs(m);
    SpacedEnds(["mount", m.name, ContainerToken(m), ModeText(m.mode)]);
  }

  lemma {:induction false} LastMountText(mounts: seq<Mount>)
    requires mounts != []
    ensures |MountTexts(mounts)| == |mounts|
    ensures MountTexts(mounts)[|mounts| - 1] == MountText(mounts[|mounts| - 1])
  {
    if |mounts| > 1 {
      LastMountText(mounts[1..]);
    } else {
      assert MountTexts(mounts[1..]) == [];
    }
  }

  lemma StoredLines(lines: seq<string>)
    requires lines != [] && lines[|lines| - 1] != "" && Stripped(lines[|lines| - 1])
    ensures RStrip(Lined(lines)) + "\n" == Lined(lines)
  {
    LinedJoined(lines);
    JoinedEnd(lines);
    var text := Lined(lines);
    assert text[..|text| - 1] == Joined(lines);
    assert RStrip(text) == RStrip(Joined(lines)) == Joined(lines);
  }

  lemma LastTextLine(front: seq<string>, mounts: seq<Mount>)
    requires mounts != [] && forall i | 0 <= i < |mounts| :: IsName(mounts[i].name)
    ensures var lines := front + MountTexts(mounts);
            lines != [] && lines[|lines| - 1] != "" && Stripped(lines[|lines| - 1])
  {
    LastMountText(mounts);
    MountTextEnds(mounts[|mounts| - 1]);
  }

  lemma MountsOnly(p: Project)
    requires WellFormed(p)
    ensures p.mounts != [] && forall i | 0 <= i < |p.mounts| :: IsName(p.mounts[i].name)
  {
  }

  /** The text is stored as `rstrip()` plus a newline, which is the text itself. */
  lemma StoredAsPrinted(p: Project, t: Team, marker: string)
    requires WellFormed(p)
    ensures RStrip(Rendering(p, t, marker)) + "\n" == Rendering(p, t, marker)
  {
    var front := [Spaced(ORIGIN), Spaced(NOTICE), "name " + p.name, "description " + p.description]
                 + (if p.context == "" then [] else ["", "context <<" + marker, p.context, marker])
                 + ["", TeamText(t), ""];
    MountsOnly(p);
    hide WellFormed, Stripped, RStrip, MountTexts, TeamText, Spaced;
    LastTextLine(front, p.mounts);
    StoredLines(front + MountTexts(p.mounts));
  }
}
