/** What the lines of a component descriptor say, and which files are descriptors. */
module DescriptorFile {
  import opened Outcomes
  import opened Text
  import opened ComponentDescriptor

  function Images(rows: seq<seq<string>>): seq<string> {
    if rows == [] then []
    else (if |rows[0]| == 2 && rows[0][0] == "docker" then [rows[0][1]] else []) + Images(rows[1..])
  }

  function EndpointsIn(directive: string, rows: seq<seq<string>>): seq<Endpoint> {
    if rows == [] then []
    else
      (if |rows[0]| == 3 && rows[0][0] == directive then [Endpoint(rows[0][1], rows[0][2])] else [])
      + EndpointsIn(directive, rows[1..])
  }

  /** `docker IMAGE`, `input SERVICE NAME` or `output SERVICE NAME`. */
  predicate RowOk(row: seq<string>) {
    || (|row| == 2 && row[0] == "docker")
    || (|row| == 3 && (row[0] == "input" || row[0] == "output") && IsService(row[1]) && IsName(row[2]))
  }

  function Listed(x: Option<string>): seq<string> { if x.Some? then [x.value] else [] }

  /** The rows take the parser from `d` to `e`: they hold the only image, and add their
      endpoints in order, no two of one kind with the same name. */
  predicate Adds(rows: seq<seq<string>>, d: Draft, e: Draft) {
    && (forall i | 0 <= i < |rows| :: RowOk(rows[i]))
    && Listed(e.image) == Listed(d.image) + Images(rows)
    && e.inputs == d.inputs + EndpointsIn("input", rows) && DistinctNames(e.inputs)
    && e.outputs == d.outputs + EndpointsIn("output", rows) && DistinctNames(e.outputs)
  }

  lemma Fresh(es: seq<Endpoint>, e: Endpoint)
    requires DistinctNames(es)
    ensures DistinctNames(es + [e]) <==> !Named(es, e.name)
  {
    if Named(es, e.name) {
      var i :| 0 <= i < |es| && es[i].name == e.name;
      assert (es + [e])[i].name == (es + [e])[|es|].name;
    }
  }

  lemma DistinctPrefix(a: seq<Endpoint>, c: seq<Endpoint>)
    requires DistinctNames(a + c)
    ensures DistinctNames(a)
  {
    assert forall i | 0 <= i < |a| :: (a + c)[i] == a[i];
  }

  /** One row read. */
  function After(d: Draft, row: seq<string>): Draft
    requires RowOk(row)
  {
    if row[0] == "docker" then d.(image := Some(row[1]))
    else if row[0] == "input" then d.(inputs := d.inputs + [Endpoint(row[1], row[2])])
    else d.(outputs := d.outputs + [Endpoint(row[1], row[2])])
  }

  predicate Fits(d: Draft, row: seq<string>) {
    && RowOk(row)
    && (row[0] == "docker" ==> d.image.None?)
    && (row[0] == "input" ==> !Named(d.inputs, row[2]))
    && (row[0] == "output" ==> !Named(d.outputs, row[2]))
  }

  lemma LineIs(d: Draft, line: string)
    ensures Row(line) == [] ==> Line(d, line) == Ok(d)
    ensures Row(line) != [] ==>
              && (Line(d, line).Ok? <==> Fits(d, Row(line)))
              && (Line(d, line).Ok? ==> Line(d, line) == Ok(After(d, Row(line))))
  {
    assert Content(line) == "" ==> Row(line) == [];
    hide Content, Fields, IsService, IsName, Named;
  }

  lemma FirstRow(row: seq<string>, rest: seq<seq<string>>)
    ensures Images([row] + rest) == (if |row| == 2 && row[0] == "docker" then [row[1]] else []) + Images(rest)
    ensures forall directive ::
              EndpointsIn(directive, [row] + rest) ==
              (if |row| == 3 && row[0] == directive then [Endpoint(row[1], row[2])] else [])
              + EndpointsIn(directive, rest)
  {
    assert ([row] + rest)[1..] == rest;
  }

  lemma EndpointFirst(had: seq<Endpoint>, x: Endpoint, rest: seq<Endpoint>, all: seq<Endpoint>)
    requires DistinctNames(had)
    ensures all == had + ([x] + rest) && DistinctNames(all) <==>
            !Named(had, x.name) && all == had + [x] + rest && DistinctNames(all)
    ensures !Named(had, x.name) ==> DistinctNames(had + [x])
  {
    Fresh(had, x);
    assert had + ([x] + rest) == had + [x] + rest;
    if all == had + [x] + rest && DistinctNames(all) {
      DistinctPrefix(had + [x], rest);
    }
  }

  lemma AddsFirst(row: seq<string>, rest: seq<seq<string>>, d: Draft, e: Draft)
    requires DistinctNames(d.inputs) && DistinctNames(d.outputs)
    ensures Adds([row] + rest, d, e) <==> Fits(d, row) && Adds(rest, After(d, row), e)
    ensures Fits(d, row) ==> DistinctNames(After(d, row).inputs) && DistinctNames(After(d, row).outputs)
  {
    var rows, ins, outs := [row] + rest, EndpointsIn("input", rest), EndpointsIn("output", rest);
    FirstRow(row, rest);
    assert rows[0] == row && forall i | 0 <= i < |rest| :: rows[i + 1] == rest[i];
    assert [] + ins == ins && [] + outs == outs && [] + Images(rest) == Images(rest);
    hide Images, EndpointsIn, IsService, IsName, DistinctNames, Named;
    if RowOk(row) && |row| == 3 {
      var x := Endpoint(row[1], row[2]);
      if row[0] == "input" {
        EndpointFirst(d.inputs, x, ins, e.inputs);
      } else {
        EndpointFirst(d.outputs, x, outs, e.outputs);
      }
    }
  }

  /** The parser reads exactly the rows there are. */
  lemma {:induction false} ParseIs(d: Draft, lines: seq<string>, e: Draft)
    requires DistinctNames(d.inputs) && DistinctNames(d.outputs)
    ensures Parse(d, lines) == Ok(e) <==> Adds(Rows(lines), d, e)
    decreases |lines|
  {
    if lines == [] {
      assert d.inputs + [] == d.inputs && d.outputs + [] == d.outputs && Listed(d.image) + [] == Listed(d.image);
    } else {
      var row, rest := Row(lines[0]), lines[1..];
      LineIs(d, lines[0]);
      hide Row, Line, Adds, Fits, After, DistinctNames;
      if row == [] {
        ParseIs(d, rest, e);
        assert Rows(lines) == Rows(rest);
      } else {
        AddsFirst(row, Rows(rest), d, e);
        if Fits(d, row) {
          ParseIs(After(d, row), rest, e);
        }
      }
    }
  }

  /** A file is a component descriptor exactly when it decodes, every line with words is one
      of the three kinds, it names one image, and no input and no output is named twice;
      and it says that image and those endpoints, in order. */
  lemma DescriptorIs(text: string, c: Contract)
    ensures ParseText(text) == Ok(c) <==>
            && Utf8Size(text) <= 1024 * 1024 && Tidy(text)
            && var rows := Rows(SplitLines(Unix(text)));
               && (forall i | 0 <= i < |rows| :: RowOk(rows[i]))
               && Images(rows) == [c.image]
               && EndpointsIn("input", rows) == c.inputs && DistinctNames(c.inputs)
               && EndpointsIn("output", rows) == c.outputs && DistinctNames(c.outputs)
  {
    var lines := SplitLines(Unix(text));
    var e := Draft(Some(c.image), c.inputs, c.outputs);
    ParseIs(Draft(None, [], []), lines, e);
    var rows := Rows(lines);
    hide Utf8Size, Tidy, SplitLines, Unix, Rows, Images, EndpointsIn, RowOk, DistinctNames, Parse;
    assert [] + Images(rows) == Images(rows);
    assert [] + EndpointsIn("input", rows) == EndpointsIn("input", rows);
    assert [] + EndpointsIn("output", rows) == EndpointsIn("output", rows);
  }
}
