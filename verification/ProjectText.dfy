/** `project.cyclo`: the strict line parser, the choice of a heredoc marker, and the
    printer of a team's view of its project. */
module ProjectText {
  import opened Outcomes
  import opened Text
  import Mounts

  const MAX_BYTES := 1024 * 1024

  type Path = Mounts.Path

  datatype Mode = RO | RW

  datatype Team = Team(path: Path, mode: Mode)

  datatype Mount = Mount(name: string, path: Path, mode: Mode)

  datatype Project = Project(name: string, description: string, context: string, teams: seq<Team>, mounts: seq<Mount>)

  /** What the file system makes of a path written in the file, which is taken
      relative to the file's directory. */
  datatype Resolved = Missing | NotDirectory | Directory(path: Path)

  type Resolver = string -> Resolved

  // ---- grammar ----

  predicate NameChar(c: char) { Lower(c) || Digit(c) || c == '.' || c == '_' || c == '-' }

  /** `[a-z0-9][a-z0-9._-]{0,63}` */
  predicate IsName(s: string) {
    1 <= |s| <= 64 && (Lower(s[0]) || Digit(s[0])) && forall i | 0 <= i < |s| :: NameChar(s[i])
  }

  /** `[A-Za-z0-9][A-Za-z0-9._-]{0,63}` */
  predicate IsTeamName(s: string) {
    && 1 <= |s| <= 64 && (Lower(s[0]) || Upper(s[0]) || Digit(s[0]))
    && forall i | 0 <= i < |s| :: NameChar(s[i]) || Upper(s[i])
  }

  /** `[A-Za-z][A-Za-z0-9_]{0,31}` */
  predicate IsMarker(s: string) {
    && 1 <= |s| <= 32 && (Lower(s[0]) || Upper(s[0]))
    && forall i | 0 <= i < |s| :: Lower(s[i]) || Upper(s[i]) || Digit(s[i]) || s[i] == '_'
  }

  predicate PathChar(c: char) {
    c != '~' && c != ',' && c != '\'' && c != '"' && c != '\\' && !IsSpace(c) && !IsControl(c)
  }

  predicate IsPathToken(s: string) { s != "" && forall i | 0 <= i < |s| :: PathChar(s[i]) }

  /** A path DComp can bind. */
  predicate Bindable(path: Path) {
    forall i | 0 <= i < |path| :: ',' !in path[i] && NoControl(path[i])
  }

  function NameOf(path: Path): string { if path == [] then "" else path[|path| - 1] }

  function FoldChar(c: char): char { if Upper(c) then ((c as int) + 32) as char else c }

  /** `str.casefold` on the ASCII names that get this far. */
  function Fold(s: string): string { seq(|s|, i requires 0 <= i < |s| => FoldChar(s[i])) }

  function ModeText(m: Mode): string { if m.RW? then "rw" else "ro" }

  function ParseMode(s: string): Result<Mode> {
    if s == "rw" then Ok(RW) else if s == "ro" then Ok(RO) else Err("invalid access mode")
  }

  // ---- the parser, line by line ----

  datatype Draft = Draft(name: Option<string>, description: Option<string>, context: Option<string>,
                         teams: seq<Team>, mounts: seq<Mount>)

  const BLANK := Draft(None, None, None, [], [])

  function ResolveDirectory(resolve: Resolver, token: string): Result<Path> {
    if !IsPathToken(token) then Err("invalid path")
    else
      match resolve(token)
      case Missing => Err("path not found")
      case NotDirectory => Err("path is not a directory")
      case Directory(path) => if Bindable(path) then Ok(path) else Err("comma or control character in path")
  }

  predicate TeamClash(a: Team, b: Team) { a.path == b.path || Fold(NameOf(a.path)) == Fold(NameOf(b.path)) }

  predicate MountClash(a: Mount, b: Mount) { a.name == b.name || a.path == b.path }

  function NameLine(d: Draft, fields: seq<string>): Result<Draft> {
    if |fields| != 2 then Err("expected name <project-name>")
    else if d.name.Some? then Err("duplicate name directive")
    else if !IsName(fields[1]) then Err("invalid project name")
    else Ok(d.(name := Some(fields[1])))
  }

  function DescriptionLine(d: Draft, remainder: string): Result<Draft> {
    if Strip(remainder) == "" then Err("expected description <text>")
    else if d.description.Some? then Err("duplicate description directive")
    else Ok(d.(description := Some(Strip(remainder))))
  }

  function TeamLine(d: Draft, fields: seq<string>, resolve: Resolver): Result<Draft> {
    if |fields| != 3 then Err("expected team <path> <ro|rw>")
    else
      var path :- ResolveDirectory(resolve, fields[1]);
      var mode :- ParseMode(fields[2]);
      var team := Team(path, mode);
      if !IsTeamName(NameOf(path)) then Err("invalid team repository name")
      else if exists i | 0 <= i < |d.teams| :: TeamClash(d.teams[i], team) then Err("duplicate team")
      else Ok(d.(teams := d.teams + [team]))
  }

  function MountLine(d: Draft, fields: seq<string>, resolve: Resolver): Result<Draft> {
    if |fields| != 4 then Err("expected mount <name> <path> <ro|rw>")
    else if !IsName(fields[1]) then Err("invalid mount name")
    else
      var path :- ResolveDirectory(resolve, fields[2]);
      var mode :- ParseMode(fields[3]);
      var mount := Mount(fields[1], path, mode);
      if exists i | 0 <= i < |d.mounts| :: MountClash(d.mounts[i], mount) then Err("duplicate mount")
      else Ok(d.(mounts := d.mounts + [mount]))
  }

  function Directive(line: string): string { Head(line, ' ') }

  /** What follows the first space, or nothing. */
  function Remainder(line: string): string { Rest(line, ' ') }

  /** A directive that is one line. */
  function Simple(d: Draft, line: string, resolve: Resolver): Result<Draft> {
    var directive, fields := Directive(line), Fields(line);
    if directive == "name" then NameLine(d, fields)
    else if directive == "description" then DescriptionLine(d, Remainder(line))
    else if directive == "team" then TeamLine(d, fields, resolve)
    else if directive == "mount" then MountLine(d, fields, resolve)
    else Err("unknown project directive")
  }

  predicate IsHeredoc(fields: seq<string>) {
    |fields| == 2 && |fields[1]| >= 2 && fields[1][0] == '<' == fields[1][1] && IsMarker(fields[1][2..])
  }

  function Find(lines: seq<string>, marker: string): (n: nat)
    ensures n <= |lines| && (n < |lines| ==> lines[n] == marker)
  {
    if lines == [] || lines[0] == marker then 0 else 1 + Find(lines[1..], marker)
  }

  predicate Empty(line: string) { Strip(line) == "" }

  function FirstText(lines: seq<string>, i: nat): (n: nat)
    requires i <= |lines|
    ensures i <= n <= |lines|
    decreases |lines| - i
  {
    if i < |lines| && Empty(lines[i]) then FirstText(lines, i + 1) else i
  }

  function LastText(lines: seq<string>, first: nat, j: nat): (n: nat)
    requires first <= j <= |lines|
    ensures first <= n <= j
  {
    if first < j && Empty(lines[j - 1]) then LastText(lines, first, j - 1) else j
  }

  /** Without empty lines in front and behind. */
  function Trimmed(lines: seq<string>): seq<string> {
    var first := FirstText(lines, 0);
    lines[first..LastText(lines, first, |lines|)]
  }

  /** The context block that ends at the first line equal to the marker, and how many
      lines it takes with the marker. */
  function Block(d: Draft, after: seq<string>, marker: string): (r: Result<(Draft, nat)>)
    ensures r.Ok? ==> 1 <= r.value.1 <= |after|
  {
    var end := Find(after, marker);
    if end == |after| then Err("unterminated context block")
    else if Trimmed(after[..end]) == [] then Err("project context must not be empty")
    else Ok((d.(context := Some(Joined(Trimmed(after[..end])))), end + 1))
  }

  /** The block that `context <<MARKER` opens. */
  function Heredoc(d: Draft, fields: seq<string>, after: seq<string>): (r: Result<(Draft, nat)>)
    ensures r.Ok? ==> 1 <= r.value.1 <= |after|
  {
    if !IsHeredoc(fields) then Err("expected context <<MARKER")
    else if d.context.Some? then Err("duplicate context directive")
    else Block(d, after, fields[1][2..])
  }

  /** Read one directive, and say how many lines it took. */
  function Step(d: Draft, lines: seq<string>, resolve: Resolver): (r: Result<(Draft, nat)>)
    requires lines != []
    ensures r.Ok? ==> 1 <= r.value.1 <= |lines|
  {
    var line := Strip(lines[0]);
    if line == "" || line[0] == '#' then Ok((d, 1))
    else if Directive(line) != "context" then
      var next :- Simple(d, line, resolve);
      Ok((next, 1))
    else
      var (next, n) :- Heredoc(d, Fields(line), lines[1..]);
      Ok((next, n + 1))
  }

  function Parse(d: Draft, lines: seq<string>, resolve: Resolver): Result<Draft>
    decreases |lines|
  {
    if lines == [] then Ok(d)
    else
      var (next, n) :- Step(d, lines, resolve);
      Parse(next, lines[n..], resolve)
  }

  function Roots(teams: seq<Team>, mounts: seq<Mount>): seq<Path> {
    seq(|teams|, i requires 0 <= i < |teams| => teams[i].path)
    + seq(|mounts|, i requires 0 <= i < |mounts| => mounts[i].path)
  }

  predicate Disjoint(roots: seq<Path>) {
    forall i, j | 0 <= j < i < |roots| :: !Mounts.Comparable(roots[i], roots[j])
  }

  function Finish(d: Draft): Result<Project> {
    if d.name.None? then Err("missing required name directive")
    else if d.description.None? then Err("missing required description directive")
    else if d.teams == [] then Err("project definition has no teams")
    else if d.mounts == [] then Err("project definition has no mounts")
    else if !Disjoint(Roots(d.teams, d.mounts)) then Err("overlapping roots")
    else
      Ok(Project(d.name.value, d.description.value, if d.context.Some? then d.context.value else "", d.teams, d.mounts))
  }

  function Load(text: string, resolve: Resolver): Result<Project> {
    if Utf8Size(text) > MAX_BYTES then Err("project definition exceeds the size limit")
    else if !Clean(Unix(text)) then Err("project definition contains a control character")
    else
      var d :- Parse(BLANK, SplitLines(Unix(text)), resolve);
      Finish(d)
  }

  lemma {:induction false} FindFrom(lines: seq<string>, marker: string, n: nat)
    requires n <= |lines| && marker !in lines[..n]
    ensures Find(lines, marker) == n + Find(lines[n..], marker)
    decreases n
  {
    if n > 0 {
      assert lines[..n][1..] == lines[1..][..n - 1] && lines[1..][n - 1..] == lines[n..];
      assert lines[..n][0] == lines[0];
      assert forall l | l in lines[1..][..n - 1] :: l in lines[..n];
      FindFrom(lines[1..], marker, n - 1);
    } else {
      assert lines[0..] == lines;
    }
  }

  /** Collect the lines of a context block from `start` up to its marker. */
  method ReadBlock(lines: seq<string>, start: nat, marker: string) returns (found: bool, block: seq<string>, next: nat)
    requires start <= |lines|
    ensures var end := Find(lines[start..], marker);
            && (found <==> start + end < |lines|)
            && (found ==> block == lines[start..][..end] && next == start + end + 1)
  {
    block, next := [], start;
    while next < |lines|
      invariant start <= next <= |lines| && block == lines[start..next] && marker !in block
    {
      var line := lines[next];
      next := next + 1;
      if line == marker {
        FindFrom(lines[start..], marker, |block|);
        assert lines[start..][|block|..][0] == marker;
        return true, block, next;
      }
      block := block + [line];
    }
    assert lines[start..][..|block|] == block;
    FindFrom(lines[start..], marker, |block|);
    found := false;
  }

  method TrimBlock(lines: seq<string>) returns (r: seq<string>)
    ensures r == Trimmed(lines)
  {
    var first, last := 0, |lines|;
    while first < last && Empty(lines[first])
      invariant first <= last == |lines| && FirstText(lines, 0) == FirstText(lines, first)
    {
      first := first + 1;
    }
    while last > first && Empty(lines[last - 1])
      invariant first <= last <= |lines| && LastText(lines, first, |lines|) == LastText(lines, first, last)
    {
      last := last - 1;
    }
    r := lines[first..last];
  }

  method ReadContext(d: Draft, fields: seq<string>, lines: seq<string>, start: nat)
    returns (r: Result<Draft>, next: nat)
    requires start <= |lines|
    ensures match Heredoc(d, fields, lines[start..])
            case Ok(read) => r == Ok(read.0) && next == start + read.1
            case Err(reason) => r == Err(reason)
  {
    next := start;
    if !IsHeredoc(fields) {
      return Err("expected context <<MARKER"), next;
    }
    if d.context.Some? {
      return Err("duplicate context directive"), next;
    }
    var found, block;
    found, block, next := ReadBlock(lines, start, fields[1][2..]);
    if !found {
      return Err("unterminated context block"), next;
    }
    block := TrimBlock(block);
    if block == [] {
      return Err("project context must not be empty"), next;
    }
    r := Ok(d.(context := Some(Joined(block))));
  }

  method CheckRoots(roots: seq<Path>) returns (ok: bool)
    ensures ok <==> Disjoint(roots)
  {
    for i := 0 to |roots|
      invariant forall a, b | 0 <= b < a < i :: !Mounts.Comparable(roots[a], roots[b])
    {
      for j := 0 to i
        invariant forall b | 0 <= b < j :: !Mounts.Comparable(roots[i], roots[b])
      {
        if Mounts.Comparable(roots[i], roots[j]) {
          return false;
        }
      }
    }
    ok := true;
  }

  method ReadLines(lines: seq<string>, resolve: Resolver) returns (r: Result<Draft>)
    ensures r == Parse(BLANK, lines, resolve)
  {
    var d, n := BLANK, 0;
    assert lines[0..] == lines;
    while n < |lines|
      invariant n <= |lines| && Parse(BLANK, lines, resolve) == Parse(d, lines[n..], resolve)
    {
      ghost var rest := lines[n..];
      assert rest[0] == lines[n] && rest[1..] == lines[n + 1..];
      var line := Strip(lines[n]);
      if line == "" || line[0] == '#' {
        n := n + 1;
        continue;
      }
      var next, consumed;
      if Directive(line) == "context" {
        next, consumed := ReadContext(d, Fields(line), lines, n + 1);
      } else {
        next, consumed := Simple(d, line, resolve), n + 1;
      }
      if next.Err? {
        return next;
      }
      assert rest[consumed - n..] == lines[consumed..];
      d, n := next.value, consumed;
    }
    assert lines[n..] == [];
    r := Ok(d);
  }

  /** `load_project`; its dictionaries of what was already declared are read off the
      lists. */
  method LoadProject(text: string, resolve: Resolver) returns (r: Result<Project>)
    ensures r == Load(text, resolve)
  {
    if Utf8Size(text) > MAX_BYTES {
      return Err("project definition exceeds the size limit");
    }
    if !Clean(Unix(text)) {
      return Err("project definition contains a control character");
    }
    var d :- ReadLines(SplitLines(Unix(text)), resolve);
    if d.name.None? {
      return Err("missing required name directive");
    }
    if d.description.None? {
      return Err("missing required description directive");
    }
    if d.teams == [] {
      return Err("project definition has no teams");
    }
    if d.mounts == [] {
      return Err("project definition has no mounts");
    }
    var separate := CheckRoots(Roots(d.teams, d.mounts));
    if !separate {
      return Err("overlapping roots");
    }
    var context := if d.context.Some? then d.context.value else "";
    r := Ok(Project(d.name.value, d.description.value, context, d.teams, d.mounts));
  }
}
