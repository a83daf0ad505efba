/** `component.dcomp`: the printer of generated descriptors and the parser that
    reads provider descriptors. */
module ComponentDescriptor {
  import opened Outcomes
  import opened Text
  import opened Sorting

  const PROVIDER_SERVICE := "cyclo.provider.v1.Provider"
  const MAX_BYTES := 1024 * 1024

  datatype Endpoint = Endpoint(service: string, name: string)

  datatype Contract = Contract(image: string, inputs: seq<Endpoint>, outputs: seq<Endpoint>)

  // ---- grammar ----

  predicate IdStart(c: char) { Lower(c) || Upper(c) || c == '_' }

  predicate IdChar(c: char) { IdStart(c) || Digit(c) }

  /** `[a-z][a-z0-9-]{0,62}` */
  predicate IsName(s: string) {
    && 1 <= |s| <= 63 && Lower(s[0])
    && forall i | 0 <= i < |s| :: Lower(s[i]) || Digit(s[i]) || s[i] == '-'
  }

  /** Two or more identifiers joined by dots. */
  predicate IsService(s: string) {
    && s != "" && IdStart(s[0]) && '.' in s
    && (forall i | 0 <= i < |s| :: IdChar(s[i]) || s[i] == '.')
    && forall i | 0 <= i < |s| && s[i] == '.' :: i + 1 < |s| && IdStart(s[i + 1])
  }

  /** What a DComp file can hold as one field. */
  predicate IsToken(s: string) {
    s != "" && '#' !in s && NoSpace(s) && NoControl(s)
  }

  predicate IsEndpoint(e: Endpoint) { IsService(e.service) && IsName(e.name) }

  predicate Endpoints(es: seq<Endpoint>) { forall i | 0 <= i < |es| :: IsEndpoint(es[i]) }

  predicate DistinctNames(es: seq<Endpoint>) {
    forall i, j | 0 <= i < j < |es| :: es[i].name != es[j].name
  }

  lemma EndpointTokens(e: Endpoint)
    requires IsEndpoint(e)
    ensures IsToken(e.service) && IsToken(e.name)
  {
    forall i | 0 <= i < |e.service| ensures !IsSpace(e.service[i]) && !IsControl(e.service[i]) && e.service[i] != '#' {
      assert IdChar(e.service[i]) || e.service[i] == '.';
    }
  }

  // ---- comments ----

  /** A `#` that starts the line or follows white space opens a comment. */
  predicate CommentAt(line: string, i: nat) {
    && i < |line|
    && ((i == 0 && line[0] == '#') || (IsSpace(line[i]) && i + 1 < |line| && line[i + 1] == '#'))
  }

  function CommentFrom(line: string, i: nat): (n: nat)
    requires i <= |line|
    ensures i <= n <= |line|
    decreases |line| - i
  {
    if i == |line| || CommentAt(line, i) then i else CommentFrom(line, i + 1)
  }

  function Content(line: string): string { Strip(line[..CommentFrom(line, 0)]) }

  function Row(line: string): seq<string> { Fields(Content(line)) }

  /** The words of every line that has any once its comment is off. */
  function Rows(lines: seq<string>): seq<seq<string>> {
    if lines == [] then [] else (if Row(lines[0]) == [] then [] else [Row(lines[0])]) + Rows(lines[1..])
  }

  lemma {:induction false} NoCommentFrom(line: string, i: nat)
    requires i <= |line| && forall k | i <= k < |line| :: !CommentAt(line, k)
    ensures CommentFrom(line, i) == |line|
    decreases |line| - i
  {
    if i < |line| {
      NoCommentFrom(line, i + 1);
    }
  }

  predicate NoneHashed(words: seq<string>) { forall i | 0 <= i < |words| :: words[i] != "" && words[i][0] != '#' }

  lemma {:induction false} NoHashAfterSpace(words: seq<string>, i: nat)
    requires Words(words) && NoneHashed(words) && i + 1 < |Spaced(words)| && IsSpace(Spaced(words)[i])
    ensures Spaced(words)[i + 1] != '#'
  {
    if |words| > 1 {
      var line, rest, n := Spaced(words), Spaced(words[1..]), |words[0]|;
      SpacedEnds(words[1..]);
      if i == n {
        assert line[i + 1] == rest[0] == words[1][0];
      } else if i > n {
        assert line[i] == rest[i - n - 1] && line[i + 1] == rest[i - n];
        NoHashAfterSpace(words[1..], i - n - 1);
      }
    }
  }

  /** Comment stripping leaves a line alone unless one of its words opens a comment. */
  lemma ContentOfWords(words: seq<string>)
    requires words != [] && Words(words) && NoneHashed(words)
    ensures Content(Spaced(words)) == Spaced(words) && Fields(Spaced(words)) == words && Spaced(words) != ""
  {
    var line := Spaced(words);
    SpacedEnds(words);
    forall k | 0 <= k < |line| ensures !CommentAt(line, k) {
      if IsSpace(line[k]) && k + 1 < |line| {
        NoHashAfterSpace(words, k);
      }
    }
    NoCommentFrom(line, 0);
    assert line[..|line|] == line;
    FieldsOfSpaced(words);
    StripIs(line);
  }

  // ---- the parser ----

  datatype Draft = Draft(image: Option<string>, inputs: seq<Endpoint>, outputs: seq<Endpoint>)

  predicate Named(es: seq<Endpoint>, name: string) { exists i | 0 <= i < |es| :: es[i].name == name }

  function Line(d: Draft, raw: string): Result<Draft> {
    var fields := Fields(Content(raw));
    if Content(raw) == "" || fields == [] then Ok(d)
    else if fields[0] == "docker" then
      if |fields| != 2 || d.image.Some? then Err("expected one docker IMAGE")
      else Ok(d.(image := Some(fields[1])))
    else if fields[0] == "input" || fields[0] == "output" then
      if |fields| != 3 || !IsEndpoint(Endpoint(fields[1], fields[2])) then Err("expected SERVICE NAME")
      else
        var e := Endpoint(fields[1], fields[2]);
        var selected := if fields[0] == "input" then d.inputs else d.outputs;
        if Named(selected, e.name) then Err("duplicate endpoint")
        else if fields[0] == "input" then Ok(d.(inputs := d.inputs + [e]))
        else Ok(d.(outputs := d.outputs + [e]))
    else Err("unknown directive")
  }

  function Parse(d: Draft, lines: seq<string>): Result<Draft>
    decreases |lines|
  {
    if lines == [] then Ok(d)
    else
      var next :- Line(d, lines[0]);
      Parse(next, lines[1..])
  }

  predicate Decodes(text: string) {
    Utf8Size(text) <= MAX_BYTES && Tidy(text)
  }

  /** The descriptor's lines, before the check on what it provides. */
  function ParseText(text: string): Result<Contract> {
    if !Decodes(text) then Err("too large, or a control character")
    else
      var d :- Parse(Draft(None, [], []), SplitLines(Unix(text)));
      if d.image.None? then Err("missing docker IMAGE")
      else Ok(Contract(d.image.value, d.inputs, d.outputs))
  }

  function Providing(es: seq<Endpoint>): seq<Endpoint> {
    if es == [] then []
    else (if es[0].service == PROVIDER_SERVICE then [es[0]] else []) + Providing(es[1..])
  }

  /** The contract is what the lines say, and it offers exactly one provider output. */
  method LoadComponent(text: string) returns (r: Result<Contract>)
    ensures r.Ok? <==> ParseText(text).Ok? && |Providing(ParseText(text).value.outputs)| == 1
    ensures r.Ok? ==> r == ParseText(text)
  {
    if !Decodes(text) {
      return Err("too large, or a control character");
    }
    var lines := SplitLines(Unix(text));
    var image: Option<string>, inputs: seq<Endpoint>, outputs: seq<Endpoint> := None, [], [];
    assert lines[0..] == lines;
    for n := 0 to |lines|
      invariant Parse(Draft(None, [], []), lines) == Parse(Draft(image, inputs, outputs), lines[n..])
    {
      assert lines[n..][0] == lines[n] && lines[n..][1..] == lines[n + 1..];
      var content := Content(lines[n]);
      var fields := Fields(content);
      if content == "" || fields == [] {
        continue;
      }
      var directive := fields[0];
      if directive == "docker" {
        if |fields| != 2 || image.Some? {
          return Err("expected one docker IMAGE");
        }
        image := Some(fields[1]);
      } else if directive == "input" || directive == "output" {
        if |fields| != 3 || !IsService(fields[1]) || !IsName(fields[2]) {
          return Err("expected SERVICE NAME");
        }
        var endpoint := Endpoint(fields[1], fields[2]);
        if Named(if directive == "input" then inputs else outputs, endpoint.name) {
          return Err("duplicate endpoint");
        }
        if directive == "input" {
          inputs := inputs + [endpoint];
        } else {
          outputs := outputs + [endpoint];
        }
      } else {
        return Err("unknown directive");
      }
    }
    if image.None? {
      return Err("missing docker IMAGE");
    }
    if |Providing(outputs)| != 1 {
      return Err("provider components must expose exactly one provider output");
    }
    r := Ok(Contract(image.value, inputs, outputs));
  }

  // ---- the printer ----

  /** Dataclass order: by service, then by name. */
  predicate Before(a: Endpoint, b: Endpoint) {
    Leq(a.service, b.service) && (a.service == b.service ==> Leq(a.name, b.name))
  }

  function Sorted(es: seq<Endpoint>): seq<Endpoint> { Sort(es, Before) }

  function EndpointLines(directive: string, es: seq<Endpoint>): seq<string> {
    if es == [] then [] else [Spaced([directive, es[0].service, es[0].name])] + EndpointLines(directive, es[1..])
  }

  function Lines(c: Contract): seq<string> {
    [Spaced(["docker", c.image])]
    + EndpointLines("input", Sorted(c.inputs)) + EndpointLines("output", Sorted(c.outputs))
  }

  function Render(c: Contract): string { Lined(Lines(c)) }

  predicate Printable(c: Contract) {
    && IsToken(c.image)
    && Endpoints(c.inputs) && DistinctNames(c.inputs)
    && Endpoints(c.outputs) && DistinctNames(c.outputs)
  }

  // ---- the round trip ----

  lemma SortedIs(es: seq<Endpoint>)
    requires Endpoints(es) && DistinctNames(es)
    ensures Endpoints(Sorted(es)) && DistinctNames(Sorted(es))
    ensures Ascending(Sorted(es), Before)
    ensures multiset(Sorted(es)) == multiset(es)
  {
    SortKeeps(es, Before);
    var ys := Sorted(es);
    forall i | 0 <= i < |ys| ensures IsEndpoint(ys[i]) {
      assert ys[i] in multiset(ys);
    }
    assert Total(Before) by { BeforeIsTotal(); }
    SortAscends(es, Before);
    SortDistinct(es, Before, (e: Endpoint) => e.name);
  }

  lemma BeforeIsTotal()
    ensures Total(Before)
  {
    forall x: Endpoint, y: Endpoint ensures Before(x, y) || Before(y, x) {
      LeqEither(x.service, y.service);
      LeqEither(x.name, y.name);
    }
    forall x: Endpoint, y: Endpoint, z: Endpoint | Before(x, y) && Before(y, z) ensures Before(x, z) {
      LeqChain(x.service, y.service, z.service);
      if x.service == z.service {
        LeqEither(x.service, y.service);
        LeqChain(x.name, y.name, z.name);
      }
    }
  }

  lemma TokensLine(words: seq<string>)
    requires forall i | 0 <= i < |words| :: IsToken(words[i])
    ensures Words(words) && NoneHashed(words) && Plain([Spaced(words)])
  {
    forall i | 0 <= i < |words| ensures Word(words[i]) && NoControl(words[i]) && words[i][0] != '#' {
      assert IsToken(words[i]) && words[i][0] in words[i];
    }
    SpacedPlain(words);
  }

  /** Comment stripping never cuts a line of tokens. */
  lemma ContentKeeps(words: seq<string>)
    requires words != [] && forall i | 0 <= i < |words| :: IsToken(words[i])
    ensures Content(Spaced(words)) == Spaced(words) && Fields(Spaced(words)) == words
    ensures Spaced(words) != "" && Plain([Spaced(words)])
  {
    TokensLine(words);
    ContentOfWords(words);
  }

  lemma {:induction false} ParseAppend(d: Draft, a: seq<string>, b: seq<string>)
    requires Parse(d, a).Ok?
    ensures Parse(d, a + b) == Parse(Parse(d, a).value, b)
    decreases |a|
  {
    if a == [] {
      assert a + b == b;
    } else {
      var r := Line(d, a[0]);
      assert (a + b)[0] == a[0] && (a + b)[1..] == a[1..] + b;
      ParseAppend(r.value, a[1..], b);
    }
  }

  function Had(d: Draft, directive: string): seq<Endpoint> {
    if directive == "input" then d.inputs else d.outputs
  }

  function Add(d: Draft, directive: string, es: seq<Endpoint>): Draft {
    if directive == "input" then d.(inputs := d.inputs + es) else d.(outputs := d.outputs + es)
  }

  lemma EndpointLine(directive: string, e: Endpoint, d: Draft)
    requires directive == "input" || directive == "output"
    requires IsEndpoint(e) && !Named(Had(d, directive), e.name)
    ensures Line(d, Spaced([directive, e.service, e.name])) == Ok(Add(d, directive, [e]))
  {
    EndpointTokens(e);
    ContentKeeps([directive, e.service, e.name]);
  }

  lemma NewName(had: seq<Endpoint>, es: seq<Endpoint>)
    requires es != [] && DistinctNames(had + es)
    ensures !Named(had, es[0].name)
  {
    forall i | 0 <= i < |had| ensures had[i].name != es[0].name {
      assert (had + es)[i] == had[i] && (had + es)[|had|] == es[0];
    }
  }

  /** Endpoint lines parse to their endpoints, in order, after those there were. */
  lemma {:induction false} EndpointLinesParse(directive: string, es: seq<Endpoint>, d: Draft)
    requires directive == "input" || directive == "output"
    requires Endpoints(es) && DistinctNames(Had(d, directive) + es)
    ensures Parse(d, EndpointLines(directive, es)) == Ok(Add(d, directive, es))
  {
    hide Line, Spaced, IsEndpoint, Named;
    var had := Had(d, directive);
    if es == [] {
      assert had + es == had;
    } else {
      NewName(had, es);
      EndpointLine(directive, es[0], d);
      assert (had + [es[0]]) + es[1..] == had + es;
      EndpointLinesParse(directive, es[1..], Add(d, directive, [es[0]]));
    }
  }

  lemma {:induction false} EndpointLinesAre(directive: string, es: seq<Endpoint>)
    requires IsToken(directive) && Endpoints(es)
    ensures Plain(EndpointLines(directive, es))
  {
    if es != [] {
      EndpointTokens(es[0]);
      ContentKeeps([directive, es[0].service, es[0].name]);
      assert Plain([Spaced([directive, es[0].service, es[0].name])]);
      EndpointLinesAre(directive, es[1..]);
    }
  }

  lemma LinesArePlain(image: string, ins: seq<Endpoint>, outs: seq<Endpoint>)
    requires IsToken(image) && Endpoints(ins) && Endpoints(outs)
    ensures Plain([Spaced(["docker", image])] + EndpointLines("input", ins) + EndpointLines("output", outs))
  {
    ContentKeeps(["docker", image]);
    EndpointLinesAre("input", ins);
    EndpointLinesAre("output", outs);
    PlainAppend([Spaced(["docker", image])], EndpointLines("input", ins));
    PlainAppend([Spaced(["docker", image])] + EndpointLines("input", ins), EndpointLines("output", outs));
  }

  lemma RenderedLines(c: Contract)
    requires Printable(c)
    ensures Plain(Lines(c))
  {
    SortedIs(c.inputs);
    SortedIs(c.outputs);
    LinesArePlain(c.image, Sorted(c.inputs), Sorted(c.outputs));
  }

  lemma ImageLine(image: string)
    requires IsToken(image)
    ensures Parse(Draft(None, [], []), [Spaced(["docker", image])]) == Ok(Draft(Some(image), [], []))
  {
    ContentKeeps(["docker", image]);
    assert Line(Draft(None, [], []), Spaced(["docker", image])) == Ok(Draft(Some(image), [], []));
  }

  /** The endpoint lines of a component parse to its endpoints. */
  lemma BothParse(image: string, ins: seq<Endpoint>, outs: seq<Endpoint>)
    requires Endpoints(ins) && DistinctNames(ins) && Endpoints(outs) && DistinctNames(outs)
    ensures Parse(Draft(Some(image), [], []), EndpointLines("input", ins) + EndpointLines("output", outs))
         == Ok(Draft(Some(image), ins, outs))
  {
    assert [] + ins == ins && [] + outs == outs;
    EndpointLinesParse("input", ins, Draft(Some(image), [], []));
    ParseAppend(Draft(Some(image), [], []), EndpointLines("input", ins), EndpointLines("output", outs));
    EndpointLinesParse("output", outs, Draft(Some(image), ins, []));
  }

  lemma LinesParse(c: Contract)
    requires Printable(c)
    ensures Parse(Draft(None, [], []), Lines(c)) == Ok(Draft(Some(c.image), Sorted(c.inputs), Sorted(c.outputs)))
  {
    SortedIs(c.inputs);
    SortedIs(c.outputs);
    var first := [Spaced(["docker", c.image])];
    var rest := EndpointLines("input", Sorted(c.inputs)) + EndpointLines("output", Sorted(c.outputs));
    ImageLine(c.image);
    ParseAppend(Draft(None, [], []), first, rest);
    BothParse(c.image, Sorted(c.inputs), Sorted(c.outputs));
    assert Lines(c) == first + rest;
  }

  /** Reading back a rendered descriptor gives the image and the sorted endpoints,
      whenever the file is within the size limit. */
  lemma RenderParse(c: Contract)
    requires Printable(c)
    ensures ParseText(Render(c)).Ok? <==> Utf8Size(Render(c)) <= MAX_BYTES
    ensures ParseText(Render(c)).Ok?
            ==> ParseText(Render(c)) == Ok(Contract(c.image, Sorted(c.inputs), Sorted(c.outputs)))
  {
    RenderedLines(c);
    PlainIsClean(Lines(c));
    UnixAlready(Render(c));
    SplitLined(Lines(c));
    LinesParse(c);
  }

  /** Sorting does not change how many outputs are provider outputs. */
  lemma {:induction false} ProvidingInsert(x: Endpoint, es: seq<Endpoint>)
    ensures |Providing(Insert(x, es, Before))| == |Providing([x])| + |Providing(es)|
  {
    if es == [] || Before(x, es[0]) {
      assert ([x] + es)[1..] == es;
      assert [x][1..] == [];
    } else {
      ProvidingInsert(x, es[1..]);
      assert ([es[0]] + Insert(x, es[1..], Before))[1..] == Insert(x, es[1..], Before);
    }
  }

  lemma {:induction false} ProvidingSorted(es: seq<Endpoint>)
    ensures |Providing(Sorted(es))| == |Providing(es)|
  {
    if es != [] {
      ProvidingSorted(es[1..]);
      ProvidingInsert(es[0], Sorted(es[1..]));
      assert [es[0]][1..] == [];
    }
  }

  /** What a printed descriptor is loaded as: itself in sorted form, provided it has
      exactly one provider output; and the sorted form prints to the same text. */
  lemma RenderLoad(c: Contract)
    requires Printable(c)
    ensures var loaded := ParseText(Render(c));
            && (loaded.Ok? && |Providing(loaded.value.outputs)| == 1
                <==> Utf8Size(Render(c)) <= MAX_BYTES && |Providing(c.outputs)| == 1)
            && (loaded.Ok? ==> Printable(loaded.value) && Render(loaded.value) == Render(c))
  {
    RenderParse(c);
    SortedIs(c.inputs);
    SortedIs(c.outputs);
    ProvidingSorted(c.outputs);
    SortIsIdle(Sorted(c.inputs), Before);
    SortIsIdle(Sorted(c.outputs), Before);
  }
}
