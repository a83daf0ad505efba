/** What the lines of a host file say: each line's words, what a component line and a
    provider line declare, and the whole file. */
module HostFile {
  import opened Outcomes
  import opened Text
  import opened ComponentDescriptor
  import opened HostConfig

  // ---- component lines ----

  predicate Sets(setting: string, prefix: string) { prefix <= setting }

  lemma KeyIs(setting: string, key: string)
    requires '=' !in key
    ensures '=' in setting && Head(setting, '=') == key <==> Sets(setting, key + "=")
    ensures Sets(setting, key + "=") ==> Rest(setting, '=') == setting[|key| + 1..]
  {
    if '=' in setting && Head(setting, '=') == key {
      PartitionIs(setting, '=');
    }
    if Sets(setting, key + "=") {
      var rest := setting[|key| + 1..];
      assert setting == key + ['='] + rest;
      PartitionOf(key, '=', rest);
    }
  }

  /** `bind=` an IPv4 address, or `port=` a number from 1 to 65535. */
  predicate OptionOk(w: World, setting: string) {
    || (Sets(setting, "bind=") && w.ipv4(setting[5..]).Some?)
    || (Sets(setting, "port=") && w.integer(setting[5..]).Some? && 1 <= w.integer(setting[5..]).value <= 65535)
  }

  predicate AtMostOnce(settings: seq<string>, prefix: string) {
    forall i, j | 0 <= i < j < |settings| :: !(Sets(settings[i], prefix) && Sets(settings[j], prefix))
  }

  predicate Never(settings: seq<string>, prefix: string) {
    forall i | 0 <= i < |settings| :: !Sets(settings[i], prefix)
  }

  /** The component's address and port are what the settings say, or what they were. */
  predicate ConfiguredAs(w: World, settings: seq<string>, before: HostComponent, c: HostComponent) {
    && c.name == before.name
    && (forall i | 0 <= i < |settings| && Sets(settings[i], "bind=") :: w.ipv4(settings[i][5..]) == Some(c.bind))
    && (forall i | 0 <= i < |settings| && Sets(settings[i], "port=") :: w.integer(settings[i][5..]) == Some(c.port))
    && (Never(settings, "bind=") ==> c.bind == before.bind)
    && (Never(settings, "port=") ==> c.port == before.port)
  }

  predicate Configurable(w: World, settings: seq<string>, seen: set<string>) {
    && (forall i | 0 <= i < |settings| :: OptionOk(w, settings[i]))
    && AtMostOnce(settings, "bind=") && AtMostOnce(settings, "port=")
    && ("bind" in seen ==> Never(settings, "bind=")) && ("port" in seen ==> Never(settings, "port="))
  }

  lemma Keys(setting: string)
    ensures '=' in setting && Head(setting, '=') == "bind" <==> Sets(setting, "bind=")
    ensures '=' in setting && Head(setting, '=') == "port" <==> Sets(setting, "port=")
    ensures Sets(setting, "bind=") || Sets(setting, "port=") ==> Rest(setting, '=') == setting[5..]
  {
    assert "bind" + "=" == "bind=" && "port" + "=" == "port=";
    KeyIs(setting, "bind");
    KeyIs(setting, "port");
  }

  lemma ConfigurableSplit(w: World, settings: seq<string>, seen: set<string>)
    requires settings != []
    ensures Configurable(w, settings, seen) <==>
            && OptionOk(w, settings[0])
            && (Sets(settings[0], "bind=") ==> "bind" !in seen && Configurable(w, settings[1..], seen + {"bind"}))
            && (Sets(settings[0], "port=") ==> "port" !in seen && Configurable(w, settings[1..], seen + {"port"}))
  {
    var rest := settings[1..];
    assert forall i | 0 <= i < |rest| :: rest[i] == settings[i + 1];
    assert settings == [settings[0]] + rest;
  }

  lemma NotBoth(setting: string)
    ensures !(Sets(setting, "bind=") && Sets(setting, "port="))
  {
    assert Sets(setting, "bind=") ==> setting[0] == 'b';
    assert Sets(setting, "port=") ==> setting[0] == 'p';
  }

  lemma BindsFirst(w: World, settings: seq<string>, before: HostComponent, c: HostComponent)
    requires settings != [] && Sets(settings[0], "bind=") && w.ipv4(settings[0][5..]).Some?
    requires Never(settings[1..], "bind=")
    requires ConfiguredAs(w, settings[1..], before.(bind := w.ipv4(settings[0][5..]).value), c)
    ensures ConfiguredAs(w, settings, before, c)
  {
    NotBoth(settings[0]);
    assert settings == [settings[0]] + settings[1..];
    assert Never(settings, "port=") ==> Never(settings[1..], "port=");
    hide Sets;
  }

  lemma PortsFirst(w: World, settings: seq<string>, before: HostComponent, c: HostComponent)
    requires settings != [] && Sets(settings[0], "port=") && w.integer(settings[0][5..]).Some?
    requires Never(settings[1..], "port=")
    requires ConfiguredAs(w, settings[1..], before.(port := w.integer(settings[0][5..]).value), c)
    ensures ConfiguredAs(w, settings, before, c)
  {
    NotBoth(settings[0]);
    assert settings == [settings[0]] + settings[1..];
    assert Never(settings, "bind=") ==> Never(settings[1..], "bind=");
    hide Sets;
  }

  lemma {:induction false} ConfigureIs(w: World, settings: seq<string>, seen: set<string>, c: HostComponent)
    ensures Configure(w, settings, seen, c).Ok? <==> Configurable(w, settings, seen)
    ensures Configure(w, settings, seen, c).Ok? ==>
              ConfiguredAs(w, settings, c, Configure(w, settings, seen, c).value)
    decreases |settings|
  {
    if settings != [] {
      var s, rest := settings[0], settings[1..];
      Keys(s);
      NotBoth(s);
      ConfigurableSplit(w, settings, seen);
      if OptionOk(w, s) {
        if Sets(s, "bind=") {
          var more := c.(bind := w.ipv4(s[5..]).value);
          ConfigureIs(w, rest, seen + {"bind"}, more);
          hide Sets, Head, Rest, ConfiguredAs;
          if Configure(w, settings, seen, c).Ok? {
            BindsFirst(w, settings, c, Configure(w, settings, seen, c).value);
          }
        } else {
          var more := c.(port := w.integer(s[5..]).value);
          ConfigureIs(w, rest, seen + {"port"}, more);
          hide Sets, Head, Rest, ConfiguredAs;
          if Configure(w, settings, seen, c).Ok? {
            PortsFirst(w, settings, c, Configure(w, settings, seen, c).value);
          }
        }
      }
      hide Configurable;
    }
  }

  /** `component openai` with its settings, each at most once; unset, it listens on the
      loopback address at port 8080. */
  lemma ComponentLineIs(w: World, fields: seq<string>)
    requires fields != []
    ensures ComponentLine(w, fields).Ok? <==>
            |fields| >= 2 && fields[1] == "openai" && Configurable(w, fields[2..], {})
    ensures ComponentLine(w, fields).Ok? ==>
              ConfiguredAs(w, fields[2..], HostComponent("openai", "127.0.0.1", 8080), ComponentLine(w, fields).value)
  {
    if |fields| >= 2 {
      ConfigureIs(w, fields[2..], {}, HostComponent(OPENAI, "127.0.0.1", 8080));
    }
  }

  // ---- provider lines ----

  /** The words `provider NAME SOURCE SETTING...`, and `-- ARGUMENT...` where there are
      arguments. */
  function ProviderWords(name: string, source: string, settings: seq<string>, arguments: Option<seq<string>>)
    : seq<string>
  {
    ["provider", name, source] + settings + (if arguments.Some? then ["--"] + arguments.value else [])
  }

  /** Any line of three words or more is of this form. */
  lemma WordsSplit(fields: seq<string>) returns (settings: seq<string>, arguments: Option<seq<string>>)
    requires |fields| >= 3 && fields[0] == "provider"
    ensures "--" !in settings && fields == ProviderWords(fields[1], fields[2], settings, arguments)
  {
    var rest := fields[3..];
    assert fields == ["provider", fields[1], fields[2]] + rest;
    var n := Position(rest, "--");
    PositionFinds(rest);
    settings := rest[..n];
    if n < |rest| {
      arguments := Some(rest[n + 1..]);
      assert rest == settings + (["--"] + rest[n + 1..]);
    } else {
      arguments := None;
    }
  }

  lemma {:induction false} PositionFinds(fields: seq<string>)
    ensures var n := Position(fields, "--");
            "--" !in fields[..n] && (n < |fields| ==> fields[n] == "--")
  {
    if fields != [] && fields[0] != "--" {
      PositionFinds(fields[1..]);
      var n := Position(fields[1..], "--");
      assert fields[..n + 1] == [fields[0]] + fields[1..][..n];
    }
  }

  lemma {:induction false} PositionPast(a: seq<string>, rest: seq<string>)
    requires "--" !in a && (rest == [] || rest[0] == "--")
    ensures Position(a + rest, "--") == |a|
  {
    if a == [] {
      assert a + rest == rest;
    } else {
      assert (a + rest)[1..] == a[1..] + rest;
      assert a[0] in a && forall x | x in a[1..] :: x in a;
      PositionPast(a[1..], rest);
    }
  }

  lemma {:induction false} CountAppend(a: seq<string>, c: seq<string>, s: string)
    ensures Count(a + c, s) == Count(a, s) + Count(c, s)
  {
    if a == [] {
      assert a + c == c;
    } else {
      assert (a + c)[1..] == a[1..] + c;
      CountAppend(a[1..], c, s);
    }
  }

  lemma {:induction false} CountNone(a: seq<string>, s: string)
    ensures Count(a, s) == 0 <==> s !in a
  {
    if a != [] {
      CountNone(a[1..], s);
      assert a == [a[0]] + a[1..];
    }
  }

  lemma SplitBack(name: string, source: string, settings: seq<string>, arguments: Option<seq<string>>)
    requires "--" !in settings && name != "--" && source != "--"
    ensures var fields := ProviderWords(name, source, settings, arguments);
            && Settings(fields) == settings
            && Arguments(fields) == (if arguments.Some? then arguments.value else [])
            && (Count(fields, "--") > 1 <==> arguments.Some? && "--" in arguments.value)
  {
    var fields := ProviderWords(name, source, settings, arguments);
    var head := ["provider", name, source] + settings;
    var tail := if arguments.Some? then ["--"] + arguments.value else [];
    assert fields == head + tail;
    assert "--" !in head by {
      assert "provider" != "--";
    }
    PositionPast(head, tail);
    CountAppend(head, tail, "--");
    CountNone(head, "--");
    if arguments.Some? {
      CountAppend(["--"], arguments.value, "--");
      CountNone(arguments.value, "--");
      assert Count(["--"], "--") == 1;
    }
  }

  /** The build context is the source's own and `rest` all settings, or one setting
      selects another and `rest` is the others. */
  ghost predicate ContextIs(w: World, source: Path, own: Path, bundled: bool, settings: seq<string>, context: Path,
                            rest: seq<string>)
  {
    if Never(settings, "context=") then context == own && rest == settings
    else !bundled && exists k | 0 <= k < |settings| :: Selects(w, source, settings, k, context, rest)
  }

  predicate Selects(w: World, source: Path, settings: seq<string>, k: nat, context: Path, rest: seq<string>)
    requires k < |settings|
  {
    && Sets(settings[k], "context=") && Never(settings[..k], "context=") && Never(settings[k + 1..], "context=")
    && settings[k] != "context=" && w.context(source, settings[k][8..]) == Ok(context)
    && rest == settings[..k] + settings[k + 1..]
  }

  lemma {:induction false} NoContexts(settings: seq<string>)
    ensures Contexts(settings) == [] <==> Never(settings, "context=")
    ensures Never(settings, "context=") ==> Others(settings) == settings
  {
    if settings != [] {
      NoContexts(settings[1..]);
      assert settings == [settings[0]] + settings[1..];
    }
  }

  lemma ContextFirst(settings: seq<string>)
    requires settings != []
    ensures Sets(settings[0], "context=") ==>
              Contexts(settings) == [settings[0]] + Contexts(settings[1..]) && Others(settings) == Others(settings[1..])
    ensures !Sets(settings[0], "context=") ==>
              Contexts(settings) == Contexts(settings[1..]) && Others(settings) == [settings[0]] + Others(settings[1..])
  {
    assert Sets(settings[0], "context=") <==> IsContext(settings[0]);
  }

  lemma {:induction false} ContextBetween(before: seq<string>, setting: string, after: seq<string>)
    requires Sets(setting, "context=") && Never(before, "context=") && Never(after, "context=")
    ensures Contexts(before + [setting] + after) == [setting] && Others(before + [setting] + after) == before + after
  {
    var all := before + [setting] + after;
    ContextFirst(all);
    if before == [] {
      NoContexts(after);
      assert all[1..] == after && before + after == after;
    } else {
      assert all[1..] == before[1..] + [setting] + after && all[0] == before[0];
      assert !Sets(before[0], "context=") && Never(before[1..], "context=");
      hide Sets, Contexts, Others, Never;
      ContextBetween(before[1..], setting, after);
      assert before + after == [before[0]] + (before[1..] + after);
    }
  }

  lemma OnlyContext(settings: seq<string>, k: nat)
    requires k < |settings| && Sets(settings[k], "context=")
    requires Never(settings[..k], "context=") && Never(settings[k + 1..], "context=")
    ensures Contexts(settings) == [settings[k]] && Others(settings) == settings[..k] + settings[k + 1..]
  {
    hide Sets, Contexts, Others, Never;
    ContextBetween(settings[..k], settings[k], settings[k + 1..]);
    assert settings == settings[..k] + [settings[k]] + settings[k + 1..];
  }

  lemma {:induction false} FindContext(settings: seq<string>) returns (k: nat)
    requires |Contexts(settings)| == 1
    ensures k < |settings| && Sets(settings[k], "context=")
    ensures Never(settings[..k], "context=") && Never(settings[k + 1..], "context=")
  {
    if IsContext(settings[0]) {
      k := 0;
      NoContexts(settings[1..]);
    } else {
      k := FindContext(settings[1..]);
      assert settings[..k + 1] == [settings[0]] + settings[1..][..k];
      assert settings[k + 1 + 1..] == settings[1..][k + 1..];
      k := k + 1;
    }
  }

  lemma ContextValue(setting: string)
    requires Sets(setting, "context=")
    ensures Rest(setting, '=') == setting[8..] && (setting[8..] == "" <==> setting == "context=")
  {
    assert "context" + "=" == "context=";
    KeyIs(setting, "context");
  }

  /** Selecting the context succeeds exactly when the settings say which it is. */
  lemma SelectIs(w: World, source: Path, own: Path, bundled: bool, settings: seq<string>)
    ensures var r := SelectContext(w, source, own, bundled, Contexts(settings));
            && (forall context, rest ::
                  ContextIs(w, source, own, bundled, settings, context, rest) ==>
                  r == Ok(context) && rest == Others(settings))
            && (r.Ok? ==> ContextIs(w, source, own, bundled, settings, r.value, Others(settings)))
  {
    NoContexts(settings);
    var r := SelectContext(w, source, own, bundled, Contexts(settings));
    forall context, rest | ContextIs(w, source, own, bundled, settings, context, rest)
      ensures r == Ok(context) && rest == Others(settings)
    {
      if !Never(settings, "context=") {
        var k :| 0 <= k < |settings| && Selects(w, source, settings, k, context, rest);
        OnlyContext(settings, k);
        ContextValue(settings[k]);
      }
    }
    if r.Ok? && !Never(settings, "context=") {
      var k := FindContext(settings);
      OnlyContext(settings, k);
      ContextValue(settings[k]);
      assert Selects(w, source, settings, k, r.value, Others(settings));
    }
  }

  /** What a provider line declares. */
  ghost predicate Declares(w: World, name: string, source: string, settings: seq<string>,
                           arguments: Option<seq<string>>, d: Declaration)
  {
    && w.source(source).Ok?
    && var (dir, own, bundled) := w.source(source).value;
       && LoadContract(w, dir) == Ok(d.contract)
       && ContextIs(w, dir, own, bundled, settings, d.context, d.settings) && d.context <= dir
       && d.name == name && d.source == dir
       && d.arguments == (if arguments.Some? then arguments.value else [])
  }

  lemma LineUnfolds(w: World, names: set<string>, fields: seq<string>)
    requires |fields| >= 3
    ensures var r, settings := ProviderLine(w, fields, names), Settings(fields);
            && (r.Ok? <==>
                  && IsName(fields[1]) && fields[1] !in names && !(Count(fields, "--") > 1) && w.source(fields[2]).Ok?
                  && var (dir, own, bundled) := w.source(fields[2]).value;
                     && LoadContract(w, dir).Ok? && SelectContext(w, dir, own, bundled, Contexts(settings)).Ok?
                     && SelectContext(w, dir, own, bundled, Contexts(settings)).value <= dir)
            && (r.Ok? ==>
                  var (dir, own, bundled) := w.source(fields[2]).value;
                  r.value == Declaration(fields[1], dir,
                                         SelectContext(w, dir, own, bundled, Contexts(settings)).value,
                                         LoadContract(w, dir).value, Others(settings), Arguments(fields)))
  {
    hide SelectContext, Contexts, Others, LoadContract, Settings, Arguments, Count, IsName;
  }

  /** A provider line is accepted exactly when its name is good and new, its arguments hold
      no second `--`, and its source and settings declare something; and that is what it
      declares. */
  lemma ProviderLineIs(w: World, names: set<string>, name: string, source: string, settings: seq<string>,
                       arguments: Option<seq<string>>)
    requires "--" !in settings && name != "--" && source != "--"
    ensures var r := ProviderLine(w, ProviderWords(name, source, settings, arguments), names);
            && (r.Ok? <==>
                  && IsName(name) && name !in names && (arguments.Some? ==> "--" !in arguments.value)
                  && exists d :: Declares(w, name, source, settings, arguments, d))
            && (r.Ok? ==> Declares(w, name, source, settings, arguments, r.value))
  {
    var fields := ProviderWords(name, source, settings, arguments);
    assert |fields| >= 3 && fields[1] == name && fields[2] == source;
    SplitBack(name, source, settings, arguments);
    LineUnfolds(w, names, fields);
    hide ContextIs, SelectContext, Contexts, Others, LoadContract, Settings, Arguments, Count, ProviderWords, IsName,
         ProviderLine;
    var r := ProviderLine(w, fields, names);
    if w.source(source).Ok? {
      var (dir, own, bundled) := w.source(source).value;
      SelectIs(w, dir, own, bundled, settings);
      if r.Ok? {
        assert Declares(w, name, source, settings, arguments, r.value);
      }
      forall d | Declares(w, name, source, settings, arguments, d)
        ensures SelectContext(w, dir, own, bundled, Contexts(settings)) == Ok(d.context)
      {
      }
    }
  }

  // ---- the whole file ----

  function RowsOf(kind: string, rows: seq<seq<string>>): seq<seq<string>> {
    if rows == [] then []
    else (if rows[0] != [] && rows[0][0] == kind then [rows[0]] else []) + RowsOf(kind, rows[1..])
  }

  function RowName(row: seq<string>): string { if |row| > 1 then row[1] else "" }

  /** By itself, the row is a component line or a provider line. */
  predicate RowOk(w: World, row: seq<string>) {
    && row != []
    && ((row[0] == "component" && ComponentLine(w, row).Ok?)
        || (row[0] == "provider" && ProviderLine(w, row, {"gateway"}).Ok?))
  }

  /** All rows are good and name different things, none of them in `names`. */
  predicate RowsOk(w: World, rows: seq<seq<string>>, names: set<string>) {
    && (forall k | 0 <= k < |rows| :: RowOk(w, rows[k]) && RowName(rows[k]) !in names)
    && (forall j, k | 0 <= j < k < |rows| :: RowName(rows[j]) != RowName(rows[k]))
  }

  /** The declarations and the components are what the rows of each kind say, in order. */
  predicate ListedAs(w: World, rows: seq<seq<string>>, declarations: seq<Declaration>, components: seq<HostComponent>) {
    && var providers, others := RowsOf("provider", rows), RowsOf("component", rows);
       && |declarations| == |providers| && |components| == |others|
       && (forall k | 0 <= k < |providers| :: ProviderLine(w, providers[k], {}) == Ok(declarations[k]))
       && (forall k | 0 <= k < |others| :: ComponentLine(w, others[k]) == Ok(components[k]))
  }

  lemma NamesMatter(w: World, fields: seq<string>, names: set<string>)
    ensures ProviderLine(w, fields, names).Ok? <==>
            ProviderLine(w, fields, {}).Ok? && |fields| >= 3 && fields[1] !in names
    ensures ProviderLine(w, fields, names).Ok? ==> ProviderLine(w, fields, names) == ProviderLine(w, fields, {})
    ensures ProviderLine(w, fields, names).Ok? ==> ProviderLine(w, fields, names).value.name == fields[1]
  {
    if |fields| >= 3 {
      LineUnfolds(w, names, fields);
      LineUnfolds(w, {}, fields);
      hide ProviderLine, SelectContext, Contexts, Others, LoadContract, Settings, Arguments, Count, IsName;
    }
  }

  /** What one row adds. */
  function Added(w: World, d: Listing, row: seq<string>): Listing
    requires RowOk(w, row)
  {
    if row[0] == "component" then d.(components := d.components + [ComponentLine(w, row).value])
    else d.(declarations := d.declarations + [ProviderLine(w, row, {"gateway"}).value])
  }

  lemma LineAdds(w: World, d: Listing, line: string)
    ensures Row(line) == [] ==> HostLine(w, d, line) == Ok(d)
    ensures Row(line) != [] ==>
              && (HostLine(w, d, line).Ok? <==> RowOk(w, Row(line)) && RowName(Row(line)) !in Names(d))
              && (HostLine(w, d, line).Ok? ==>
                    && HostLine(w, d, line).value == Added(w, d, Row(line))
                    && Names(Added(w, d, Row(line))) == Names(d) + {RowName(Row(line))})
  {
    var row := Row(line);
    if row != [] {
      assert Content(line) != "";
      ComponentLineIs(w, row);
      NamesMatter(w, row, Names(d));
      NamesMatter(w, row, {"gateway"});
      hide ComponentLine, ProviderLine, Content, Fields, Configurable, ConfiguredAs;
      if RowOk(w, row) {
        AddedNames(w, d, row);
      }
    }
  }

  lemma AddedNames(w: World, d: Listing, row: seq<string>)
    requires RowOk(w, row)
    ensures Names(Added(w, d, row)) == Names(d) + {RowName(row)}
  {
    NamesMatter(w, row, {"gateway"});
    ComponentLineIs(w, row);
    hide ComponentLine, ProviderLine, Configurable;
    var more := Added(w, d, row);
    forall name | name in Names(d) + {RowName(row)} ensures name in Names(more) {
      if name == RowName(row) {
        if row[0] == "component" {
          assert more.components[|d.components|].name == name;
          assert more.components[|d.components|] in more.components;
        } else {
          assert more.declarations[|d.declarations|].name == name;
          assert more.declarations[|d.declarations|] in more.declarations;
        }
      }
    }
  }

  lemma RowsOkSplit(w: World, row: seq<string>, rest: seq<seq<string>>, names: set<string>)
    ensures RowsOk(w, [row] + rest, names) <==>
            RowOk(w, row) && RowName(row) !in names && RowsOk(w, rest, names + {RowName(row)})
  {
    hide RowOk, RowName;
    var rows := [row] + rest;
    assert rows[0] == row && forall k | 0 <= k < |rest| :: rows[k + 1] == rest[k];
  }

  lemma DeclarationMore(w: World, row: seq<string>, rest: seq<seq<string>>, x: Declaration, ds: seq<Declaration>,
                        cs: seq<HostComponent>)
    requires row != [] && row[0] == "provider" && ProviderLine(w, row, {}) == Ok(x) && ListedAs(w, rest, ds, cs)
    ensures ListedAs(w, [row] + rest, [x] + ds, cs)
  {
    hide ProviderLine, ComponentLine;
    assert ([row] + rest)[1..] == rest;
    assert RowsOf("provider", [row] + rest) == [row] + RowsOf("provider", rest);
    assert RowsOf("component", [row] + rest) == RowsOf("component", rest);
  }

  lemma ComponentMore(w: World, row: seq<string>, rest: seq<seq<string>>, x: HostComponent, ds: seq<Declaration>,
                      cs: seq<HostComponent>)
    requires row != [] && row[0] == "component" && ComponentLine(w, row) == Ok(x) && ListedAs(w, rest, ds, cs)
    ensures ListedAs(w, [row] + rest, ds, [x] + cs)
  {
    hide ProviderLine, ComponentLine;
    assert ([row] + rest)[1..] == rest;
    assert RowsOf("provider", [row] + rest) == RowsOf("provider", rest);
    assert RowsOf("component", [row] + rest) == [row] + RowsOf("component", rest);
  }

  lemma ListedMore(w: World, d: Listing, row: seq<string>, rest: seq<seq<string>>, r: Listing)
    requires RowOk(w, row)
    requires var more := Added(w, d, row);
             && more.declarations <= r.declarations && more.components <= r.components
             && ListedAs(w, rest, r.declarations[|more.declarations|..], r.components[|more.components|..])
    ensures d.declarations <= r.declarations && d.components <= r.components
    ensures ListedAs(w, [row] + rest, r.declarations[|d.declarations|..], r.components[|d.components|..])
  {
    NamesMatter(w, row, {"gateway"});
    hide ProviderLine, ComponentLine, ListedAs;
    var more := Added(w, d, row);
    var ds, cs := r.declarations[|more.declarations|..], r.components[|more.components|..];
    if row[0] == "component" {
      var x := ComponentLine(w, row).value;
      ComponentMore(w, row, rest, x, ds, cs);
      assert r.components[|d.components|..] == [x] + cs;
    } else {
      var x := ProviderLine(w, row, {"gateway"}).value;
      DeclarationMore(w, row, rest, x, ds, cs);
      assert r.declarations[|d.declarations|..] == [x] + ds;
    }
  }

  /** A host file is accepted by its lines exactly when every line with words is a good
      component or provider line and no name is given twice; and it lists what they say,
      in order. */
  lemma {:induction false} LinesAre(w: World, d: Listing, lines: seq<string>)
    ensures HostLines(w, d, lines).Ok? <==> RowsOk(w, Rows(lines), Names(d))
    ensures HostLines(w, d, lines).Ok? ==>
              var r := HostLines(w, d, lines).value;
              && d.declarations <= r.declarations && d.components <= r.components
              && ListedAs(w, Rows(lines), r.declarations[|d.declarations|..], r.components[|d.components|..])
    decreases |lines|
  {
    if lines != [] {
      var row, rest := Row(lines[0]), lines[1..];
      LineAdds(w, d, lines[0]);
      hide RowOk, Row, RowName, ListedAs, Names, Added, HostLine, RowsOk;
      if row == [] {
        LinesAre(w, d, rest);
        assert Rows(lines) == Rows(rest);
      } else {
        RowsOkSplit(w, row, Rows(rest), Names(d));
        if HostLine(w, d, lines[0]).Ok? {
          LinesAre(w, Added(w, d, row), rest);
          if HostLines(w, d, lines).Ok? {
            ListedMore(w, d, row, Rows(rest), HostLines(w, d, lines).value);
          }
        }
      }
    } else {
      assert d.declarations[|d.declarations|..] == [] && d.components[|d.components|..] == [];
    }
  }

  /** `load_host` reads the rows of the text, and binds what they declare. */
  lemma FileIs(w: World, text: string)
    ensures Declared(w, text).Ok? <==> Decodes(text) && RowsOk(w, Rows(SplitLines(Unix(text))), {"gateway"})
    ensures Declared(w, text).Ok? ==>
              var d := Declared(w, text).value;
              ListedAs(w, Rows(SplitLines(Unix(text))), d.declarations, d.components)
  {
    hide RowsOk, ListedAs, Decodes, HostLines;
    if Decodes(text) {
      LinesAre(w, Listing([], []), SplitLines(Unix(text)));
      assert Names(Listing([], [])) == {"gateway"};
      if Declared(w, text).Ok? {
        var d := Declared(w, text).value;
        assert d.declarations[0..] == d.declarations && d.components[0..] == d.components;
      }
    }
  }

  /** The words of a row, none of which opens a comment. */
  predicate Plainly(row: seq<string>) {
    row != [] && Words(row) && NoneHashed(row) && forall i | 0 <= i < |row| :: NoControl(row[i])
  }

  function Printed(rows: seq<seq<string>>): seq<string> {
    if rows == [] then [] else [Spaced(rows[0])] + Printed(rows[1..])
  }

  lemma {:induction false} PrintedLines(rows: seq<seq<string>>)
    requires forall k | 0 <= k < |rows| :: Plainly(rows[k])
    ensures Rows(Printed(rows)) == rows && Plain(Printed(rows))
  {
    if rows != [] {
      var row, rest := rows[0], rows[1..];
      assert Plainly(row);
      PrintedLines(rest);
      ContentOfWords(row);
      SpacedPlain(row);
      hide Content, Fields, Spaced;
      assert rows == [row] + rest;
      assert Printed(rows)[1..] == Printed(rest) && Printed(rows)[0] == Spaced(row);
    }
  }

  /** Rows written one to a line, their words separated by spaces, are the rows read. */
  lemma RowsOfPrinted(rows: seq<seq<string>>)
    requires forall k | 0 <= k < |rows| :: Plainly(rows[k])
    ensures Rows(SplitLines(Unix(Lined(Printed(rows))))) == rows
    ensures Decodes(Lined(Printed(rows))) <==> Utf8Size(Lined(Printed(rows))) <= 1024 * 1024
  {
    PrintedLines(rows);
    PlainIsClean(Printed(rows));
    UnixAlready(Lined(Printed(rows)));
    SplitLined(Printed(rows));
  }
}
