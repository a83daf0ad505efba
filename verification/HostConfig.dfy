/** `load_host`: host configuration text to providers with typed bindings. */
module HostConfig {
  import opened Outcomes
  import opened Text
  import opened ComponentDescriptor
  import Mounts
  import Sorting

  const OPENAI := "openai"
  const GATEWAY := "gateway"

  type Path = Mounts.Path

  type Slot = (string, string)

  datatype Binding = Binding(input: string, component: string, output: string)

  datatype Declaration = Declaration(name: string, source: Path, context: Path, contract: Contract,
                                     settings: seq<string>, arguments: seq<string>)

  datatype Provider = Provider(name: string, source: Path, context: Path, contract: Contract,
                               bindings: seq<Binding>, arguments: seq<string>)

  datatype HostComponent = HostComponent(name: string, bind: string, port: int)

  datatype Host = Host(providers: seq<Provider>, components: seq<HostComponent>)

  /** What the host answers: the directory and build context of a source token and
      whether it is bundled, descriptor files, directories written relative to a
      source, and Python's parsers of IPv4 addresses and integers. */
  datatype World = World(
    source: string -> Result<(Path, Path, bool)>,
    descriptor: Path -> Result<string>,
    context: (Path, string) -> Result<Path>,
    ipv4: string -> Option<string>,
    integer: string -> Option<int>)

  // ---- component lines ----

  function Configure(w: World, settings: seq<string>, seen: set<string>, c: HostComponent): Result<HostComponent>
    decreases |settings|
  {
    if settings == [] then Ok(c)
    else
      var key, value := Head(settings[0], '='), Rest(settings[0], '=');
      if (key != "bind" && key != "port") || '=' !in settings[0] || key in seen then Err("invalid or duplicate setting")
      else if key == "bind" then
        match w.ipv4(value)
        case None => Err("component bind must be a literal IPv4 address")
        case Some(address) => Configure(w, settings[1..], seen + {key}, c.(bind := address))
      else
        match w.integer(value)
        case None => Err("component port must be an integer between 1 and 65535")
        case Some(port) =>
          if !(1 <= port <= 65535) then Err("component port must be an integer between 1 and 65535")
          else Configure(w, settings[1..], seen + {key}, c.(port := port))
  }

  function ComponentLine(w: World, fields: seq<string>): Result<HostComponent> {
    if |fields| < 2 || fields[1] != OPENAI then Err("expected component openai")
    else Configure(w, fields[2..], {}, HostComponent(OPENAI, "127.0.0.1", 8080))
  }

  // ---- provider lines ----

  function LoadContract(w: World, source: Path): Result<Contract> {
    var text :- w.descriptor(source);
    var contract :- ParseText(text);
    if |Providing(contract.outputs)| != 1 then Err("exactly one provider output") else Ok(contract)
  }

  function Count(fields: seq<string>, s: string): nat {
    if fields == [] then 0 else (if fields[0] == s then 1 else 0) + Count(fields[1..], s)
  }

  function Position(fields: seq<string>, s: string): (n: nat)
    ensures n <= |fields|
  {
    if fields == [] || fields[0] == s then 0 else 1 + Position(fields[1..], s)
  }

  predicate IsContext(setting: string) { |setting| >= 8 && setting[..8] == "context=" }

  function Contexts(settings: seq<string>): seq<string> {
    if settings == [] then []
    else (if IsContext(settings[0]) then [settings[0]] else []) + Contexts(settings[1..])
  }

  function Others(settings: seq<string>): seq<string> {
    if settings == [] then []
    else (if IsContext(settings[0]) then [] else [settings[0]]) + Others(settings[1..])
  }

  /** The build context: the source's own, or the one `context=` selects. */
  function SelectContext(w: World, source: Path, own: Path, bundled: bool, contexts: seq<string>): Result<Path> {
    if |contexts| > 1 then Err("duplicate context setting")
    else if contexts == [] then Ok(own)
    else if bundled then Err("bundled provider sources do not accept context=PATH")
    else if Rest(contexts[0], '=') == "" then Err("context path is empty")
    else w.context(source, Rest(contexts[0], '='))
  }

  function Settings(fields: seq<string>): seq<string> {
    var boundary := Position(fields, "--");
    if boundary <= 3 then [] else fields[3..boundary]
  }

  function Arguments(fields: seq<string>): seq<string> {
    var boundary := Position(fields, "--");
    if boundary < |fields| then fields[boundary + 1..] else []
  }

  function ProviderLine(w: World, fields: seq<string>, names: set<string>): Result<Declaration> {
    if |fields| < 3 then Err("expected provider NAME SOURCE")
    else if !IsName(fields[1]) || fields[1] in names then Err("invalid or duplicate provider name")
    else
      var (source, own, bundled) :- w.source(fields[2]);
      var contract :- LoadContract(w, source);
      var settings := Settings(fields);
      if Count(fields, "--") > 1 then Err("provider line contains more than one '--'")
      else
        var context :- SelectContext(w, source, own, bundled, Contexts(settings));
        if !(context <= source) then Err("component source must be inside its build context")
        else Ok(Declaration(fields[1], source, context, contract, Others(settings), Arguments(fields)))
  }

  // ---- the file ----

  datatype Listing = Listing(declarations: seq<Declaration>, components: seq<HostComponent>)

  function Names(d: Listing): set<string> {
    {GATEWAY} + (set x | x in d.declarations :: x.name) + (set c | c in d.components :: c.name)
  }

  function HostLine(w: World, d: Listing, raw: string): Result<Listing> {
    var content := Content(raw);
    var fields := Fields(content);
    if content == "" || fields == [] then Ok(d)
    else if fields[0] == "component" then
      var component :- ComponentLine(w, fields);
      if component.name in Names(d) then Err("duplicate component name")
      else Ok(d.(components := d.components + [component]))
    else if fields[0] == "provider" then
      var declaration :- ProviderLine(w, fields, Names(d));
      Ok(d.(declarations := d.declarations + [declaration]))
    else Err("expected provider or component")
  }

  function HostLines(w: World, d: Listing, lines: seq<string>): Result<Listing>
    decreases |lines|
  {
    if lines == [] then Ok(d)
    else
      var next :- HostLine(w, d, lines[0]);
      HostLines(w, next, lines[1..])
  }

  // ---- bindings ----

  function AddOutputs(outputs: map<Slot, string>, name: string, es: seq<Endpoint>): map<Slot, string>
    decreases |es|
  {
    if es == [] then outputs else AddOutputs(outputs[(name, es[0].name) := es[0].service], name, es[1..])
  }

  function AddDeclared(outputs: map<Slot, string>, declarations: seq<Declaration>): map<Slot, string>
    decreases |declarations|
  {
    if declarations == [] then outputs
    else AddDeclared(AddOutputs(outputs, declarations[0].name, declarations[0].contract.outputs), declarations[1..])
  }

  /** The dictionary of every output a binding may target. */
  function Outputs(declarations: seq<Declaration>): map<Slot, string> {
    AddDeclared(map[(GATEWAY, "provider") := PROVIDER_SERVICE], declarations)
  }

  /** `INPUT=COMPONENT.OUTPUT` */
  function ParseSetting(s: string): Option<Binding> {
    var target := Rest(s, '=');
    if '=' !in s || '.' !in target || !IsName(Head(target, '.')) || !IsName(Rest(target, '.')) then None
    else Some(Binding(Head(s, '='), Head(target, '.'), Rest(target, '.')))
  }

  predicate BindsInput(es: seq<Endpoint>, outputs: map<Slot, string>, b: Binding) {
    && (b.component, b.output) in outputs
    && Endpoint(outputs[(b.component, b.output)], b.input) in es
  }

  predicate SettingOk(es: seq<Endpoint>, outputs: map<Slot, string>, setting: string) {
    ParseSetting(setting).Some? && BindsInput(es, outputs, ParseSetting(setting).value)
  }

  function InputOf(setting: string): string { Head(setting, '=') }

  predicate DistinctInputs(settings: seq<string>) {
    forall i, j | 0 <= i < j < |settings| :: InputOf(settings[i]) != InputOf(settings[j])
  }

  function Bindings(settings: seq<string>): seq<Binding>
    requires forall i | 0 <= i < |settings| :: ParseSetting(settings[i]).Some?
  {
    seq(|settings|, i requires 0 <= i < |settings| => ParseSetting(settings[i]).value)
  }

  predicate SetsInput(settings: seq<string>, name: string) {
    exists i | 0 <= i < |settings| :: InputOf(settings[i]) == name
  }

  /** The settings bind each input once, to a known output of its service. */
  predicate Bindable(d: Declaration, outputs: map<Slot, string>) {
    && (forall i | 0 <= i < |d.settings| :: SettingOk(d.contract.inputs, outputs, d.settings[i]))
    && DistinctInputs(d.settings)
    && (forall e {:trigger SetsInput(d.settings, e.name)} | e in d.contract.inputs :: SetsInput(d.settings, e.name))
  }

  predicate ByInput(a: Binding, b: Binding) { Sorting.Leq(a.input, b.input) }

  function Bound(d: Declaration): Provider
    requires forall i | 0 <= i < |d.settings| :: ParseSetting(d.settings[i]).Some?
  {
    Provider(d.name, d.source, d.context, d.contract, Sorting.Sort(Bindings(d.settings), ByInput), d.arguments)
  }

  predicate AllBindable(declarations: seq<Declaration>, outputs: map<Slot, string>) {
    forall i | 0 <= i < |declarations| :: Bindable(declarations[i], outputs)
  }

  function BoundAll(declarations: seq<Declaration>, outputs: map<Slot, string>): seq<Provider>
    requires AllBindable(declarations, outputs)
  {
    seq(|declarations|, i requires 0 <= i < |declarations| =>
          assert Bindable(declarations[i], outputs);
          Bound(declarations[i]))
  }

  function Load(w: World, text: string): Result<Host> {
    if !Decodes(text) then Err("too large, or a control character")
    else
      var d :- HostLines(w, Listing([], []), SplitLines(Unix(text)));
      if !AllBindable(d.declarations, Outputs(d.declarations)) then Err("invalid, unknown or missing bindings")
      else Ok(Host(BoundAll(d.declarations, Outputs(d.declarations)), d.components))
  }

  /** The setting is the text `INPUT=COMPONENT.OUTPUT` of this binding. */
  predicate Spells(setting: string, b: Binding) {
    && setting == b.input + "=" + b.component + "." + b.output
    && '=' !in b.input && IsName(b.component) && IsName(b.output)
  }

  lemma NameIsPlain(s: string)
    requires IsName(s)
    ensures '.' !in s && '=' !in s
  {
  }

  lemma FlatSetting(input: string, component: string, output: string)
    ensures input + ['='] + (component + ['.'] + output) == input + "=" + component + "." + output
  {
  }

  lemma SettingSpells(setting: string)
    requires ParseSetting(setting).Some?
    ensures Spells(setting, ParseSetting(setting).value)
  {
    hide IsName;
    var b, target := ParseSetting(setting).value, Rest(setting, '=');
    PartitionIs(setting, '=');
    PartitionIs(target, '.');
    FlatSetting(b.input, b.component, b.output);
    hide Head, Rest, ParseSetting;
  }

  lemma SpelledSetting(setting: string, b: Binding)
    requires Spells(setting, b)
    ensures ParseSetting(setting) == Some(b)
  {
    NameIsPlain(b.component);
    hide IsName;
    var target := b.component + "." + b.output;
    assert setting == b.input + "=" + target;
    assert setting[|b.input|] == '=' && target[|b.component|] == '.';
    PartitionOf(b.input, '=', target);
    PartitionOf(b.component, '.', b.output);
    hide Head, Rest, Spells;
    assert "=" == ['='] && "." == ['.'];
  }

  /** A setting reads as a binding exactly when it spells it. */
  lemma SettingIff(setting: string, b: Binding)
    ensures ParseSetting(setting) == Some(b) <==> Spells(setting, b)
  {
    hide Spells, ParseSetting;
    if ParseSetting(setting) == Some(b) {
      SettingSpells(setting);
    }
    if Spells(setting, b) {
      SpelledSetting(setting, b);
    }
  }

  /** `bindings` is what the settings of `d` spell, in order: each joins an input of `d`
      to an output there is, of the same service, and each input is joined once. */
  ghost predicate Binds(d: Declaration, outputs: map<Slot, string>, bindings: seq<Binding>) {
    && |bindings| == |d.settings|
    && (forall i | 0 <= i < |bindings| ::
          Spells(d.settings[i], bindings[i]) && BindsInput(d.contract.inputs, outputs, bindings[i]))
    && (forall i, j | 0 <= i < j < |bindings| :: bindings[i].input != bindings[j].input)
    && (forall e | e in d.contract.inputs :: exists i :: 0 <= i < |bindings| && bindings[i].input == e.name)
  }

  ghost predicate CanBind(d: Declaration, outputs: map<Slot, string>) {
    exists bindings :: Binds(d, outputs, bindings)
  }

  /** The provider is the declaration with its settings read, in the order of the inputs. */
  ghost predicate BoundAs(d: Declaration, outputs: map<Slot, string>, p: Provider) {
    && p.name == d.name && p.source == d.source && p.context == d.context
    && p.contract == d.contract && p.arguments == d.arguments
    && (forall i, j | 0 <= i < j < |p.bindings| :: Sorting.Leq(p.bindings[i].input, p.bindings[j].input))
    && exists bindings :: Binds(d, outputs, bindings) && multiset(bindings) == multiset(p.bindings)
  }

  lemma BindableIff(d: Declaration, outputs: map<Slot, string>)
    ensures Bindable(d, outputs) <==> CanBind(d, outputs)
    ensures Bindable(d, outputs) ==> Binds(d, outputs, Bindings(d.settings))
  {
    hide Spells, ParseSetting, BindsInput;
    if Bindable(d, outputs) {
      BindableBinds(d, outputs);
    }
    if bindings :| Binds(d, outputs, bindings) {
      BindsBindable(d, outputs, bindings);
    }
  }

  lemma BindableBinds(d: Declaration, outputs: map<Slot, string>)
    requires Bindable(d, outputs)
    ensures Binds(d, outputs, Bindings(d.settings))
  {
    var bindings := Bindings(d.settings);
    forall i | 0 <= i < |bindings|
      ensures Spells(d.settings[i], bindings[i]) && BindsInput(d.contract.inputs, outputs, bindings[i])
      ensures bindings[i].input == InputOf(d.settings[i])
    {
      assert SettingOk(d.contract.inputs, outputs, d.settings[i]);
      SettingIff(d.settings[i], bindings[i]);
    }
    hide Spells, ParseSetting, BindsInput, Bindings, SettingOk;
    forall e | e in d.contract.inputs ensures exists i :: 0 <= i < |bindings| && bindings[i].input == e.name {
      assert SetsInput(d.settings, e.name);
      var i :| 0 <= i < |d.settings| && InputOf(d.settings[i]) == e.name;
      assert bindings[i].input == e.name;
    }
  }

  lemma BindsBindable(d: Declaration, outputs: map<Slot, string>, bindings: seq<Binding>)
    requires Binds(d, outputs, bindings)
    ensures Bindable(d, outputs)
  {
    forall i | 0 <= i < |d.settings|
      ensures SettingOk(d.contract.inputs, outputs, d.settings[i]) && InputOf(d.settings[i]) == bindings[i].input
    {
      assert Spells(d.settings[i], bindings[i]) && BindsInput(d.contract.inputs, outputs, bindings[i]);
      SettingIff(d.settings[i], bindings[i]);
      hide Spells, BindsInput;
    }
    hide Spells, ParseSetting, BindsInput, SettingOk, InputOf;
    forall e | e in d.contract.inputs ensures SetsInput(d.settings, e.name) {
      var i :| 0 <= i < |bindings| && bindings[i].input == e.name;
      assert InputOf(d.settings[i]) == e.name;
    }
  }

  lemma ByInputIsTotal()
    ensures Sorting.Total(ByInput)
  {
    forall x: Binding, y: Binding ensures ByInput(x, y) || ByInput(y, x) {
      Sorting.LeqEither(x.input, y.input);
    }
    forall x: Binding, y: Binding, z: Binding | ByInput(x, y) && ByInput(y, z) ensures ByInput(x, z) {
      Sorting.LeqChain(x.input, y.input, z.input);
    }
  }

  lemma SortedByInput(bindings: seq<Binding>)
    ensures multiset(Sorting.Sort(bindings, ByInput)) == multiset(bindings)
    ensures var sorted := Sorting.Sort(bindings, ByInput);
            forall i, j | 0 <= i < j < |sorted| :: Sorting.Leq(sorted[i].input, sorted[j].input)
  {
    Sorting.SortKeeps(bindings, ByInput);
    ByInputIsTotal();
    Sorting.SortAscends(bindings, ByInput);
    var sorted := Sorting.Sort(bindings, ByInput);
    hide Sorting.Sort, Sorting.Leq, Sorting.Total;
    forall i, j | 0 <= i < j < |sorted| ensures Sorting.Leq(sorted[i].input, sorted[j].input) {
      assert ByInput(sorted[i], sorted[j]);
    }
  }

  lemma SortedIsBoundAs(d: Declaration, outputs: map<Slot, string>, bindings: seq<Binding>)
    requires Binds(d, outputs, bindings)
    ensures BoundAs(d, outputs,
                    Provider(d.name, d.source, d.context, d.contract, Sorting.Sort(bindings, ByInput), d.arguments))
  {
    hide Binds;
    SortedByInput(bindings);
    hide Sorting.Sort, Sorting.Leq;
    assert Binds(d, outputs, bindings) && multiset(bindings) == multiset(Sorting.Sort(bindings, ByInput));
  }

  lemma BoundIsBoundAs(d: Declaration, outputs: map<Slot, string>)
    requires Bindable(d, outputs)
    ensures BoundAs(d, outputs, Bound(d))
  {
    BindableIff(d, outputs);
    hide Binds, BoundAs, Sorting.Sort, ParseSetting;
    SortedIsBoundAs(d, outputs, Bindings(d.settings));
  }

  lemma InputsMore(settings: seq<string>, n: nat)
    requires n < |settings| && DistinctInputs(settings[..n])
    ensures DistinctInputs(settings[..n + 1]) <==> forall i | 0 <= i < n :: InputOf(settings[i]) != InputOf(settings[n])
    ensures !DistinctInputs(settings[..n + 1]) ==> !DistinctInputs(settings)
  {
    var more := settings[..n + 1];
    assert forall i | 0 <= i <= n :: more[i] == settings[i];
    assert forall i | 0 <= i < n :: settings[..n][i] == settings[i];
  }

  /** Every setting is a binding of a known output to an input not bound before. */
  method ReadBindings(es: seq<Endpoint>, outputs: map<Slot, string>, settings: seq<string>)
    returns (ok: bool, bindings: seq<Binding>)
    ensures ok <==> (forall i | 0 <= i < |settings| :: SettingOk(es, outputs, settings[i])) && DistinctInputs(settings)
    ensures ok ==> bindings == Bindings(settings)
  {
    bindings := [];
    for n := 0 to |settings|
      invariant forall i | 0 <= i < n :: SettingOk(es, outputs, settings[i])
      invariant bindings == Bindings(settings[..n])
      invariant DistinctInputs(settings[..n])
    {
      if !SettingOk(es, outputs, settings[n]) {
        return false, bindings;
      }
      var b := ParseSetting(settings[n]).value;
      InputsMore(settings, n);
      if i :| 0 <= i < n && bindings[i].input == b.input {
        assert bindings[i] == ParseSetting(settings[..n][i]).value;
        return false, bindings;
      }
      BindingsMore(settings, n);
      bindings := bindings + [b];
    }
    assert settings[..|settings|] == settings;
    ok := true;
  }

  lemma BindingsMore(settings: seq<string>, n: nat)
    requires n < |settings| && forall i | 0 <= i <= n :: ParseSetting(settings[i]).Some?
    ensures Bindings(settings[..n + 1]) == Bindings(settings[..n]) + [ParseSetting(settings[n]).value]
    ensures forall i | 0 <= i < n :: Bindings(settings[..n])[i].input == InputOf(settings[i])
  {
    assert settings[..n + 1][..n] == settings[..n];
  }

  /** Every expected input has a binding. */
  method CheckCovered(es: seq<Endpoint>, settings: seq<string>, bindings: seq<Binding>) returns (ok: bool)
    requires |bindings| == |settings| && forall i | 0 <= i < |settings| :: bindings[i].input == InputOf(settings[i])
    ensures ok <==> forall e | e in es :: SetsInput(settings, e.name)
  {
    for n := 0 to |es|
      invariant forall k | 0 <= k < n :: SetsInput(settings, es[k].name)
    {
      if !exists i | 0 <= i < |bindings| :: bindings[i].input == es[n].name {
        assert es[n] in es;
        return false;
      }
    }
    ok := true;
  }

  /** Resolve one provider's settings. */
  method BindProvider(d: Declaration, outputs: map<Slot, string>) returns (r: Result<Provider>)
    ensures r.Ok? <==> Bindable(d, outputs)
    ensures r.Ok? ==> r == Ok(Bound(d))
    ensures r.Ok? <==> CanBind(d, outputs)
    ensures r.Ok? ==> BoundAs(d, outputs, r.value)
  {
    BindableIff(d, outputs);
    if Bindable(d, outputs) {
      BoundIsBoundAs(d, outputs);
    }
    hide Binds, BoundAs, CanBind, SettingOk, Sorting.Sort, DistinctInputs, SetsInput, InputOf, ParseSetting;
    var ok, bindings := ReadBindings(d.contract.inputs, outputs, d.settings);
    if !ok {
      assert !Bindable(d, outputs);
      return Err("invalid or duplicate binding, unknown output or wrong service");
    }
    AllRead(d.contract.inputs, outputs, d.settings);
    ok := CheckCovered(d.contract.inputs, d.settings, bindings);
    hide Bindings;
    if !ok {
      assert !Bindable(d, outputs);
      return Err("missing binding(s)");
    }
    assert Bindable(d, outputs);
    r := Ok(Provider(d.name, d.source, d.context, d.contract, Sorting.Sort(bindings, ByInput), d.arguments));
  }

  lemma AllRead(es: seq<Endpoint>, outputs: map<Slot, string>, settings: seq<string>)
    requires forall i | 0 <= i < |settings| :: SettingOk(es, outputs, settings[i])
    ensures forall i | 0 <= i < |settings| :: ParseSetting(settings[i]).Some?
    ensures forall i | 0 <= i < |settings| :: Bindings(settings)[i].input == InputOf(settings[i])
  {
    hide BindsInput, IsName;
  }

  method BindAll(declarations: seq<Declaration>, outputs: map<Slot, string>) returns (r: Result<seq<Provider>>)
    ensures r.Ok? <==> AllBindable(declarations, outputs)
    ensures r.Ok? ==> r.value == BoundAll(declarations, outputs)
  {
    var providers: seq<Provider> := [];
    for n := 0 to |declarations|
      invariant |providers| == n
      invariant forall i | 0 <= i < n :: Bindable(declarations[i], outputs) && providers[i] == Bound(declarations[i])
    {
      var bound := BindProvider(declarations[n], outputs);
      if bound.Err? {
        return Err(bound.reason);
      }
      providers := providers + [bound.value];
    }
    r := Ok(providers);
  }

  method ReadHost(w: World, lines: seq<string>) returns (r: Result<Listing>)
    ensures r == HostLines(w, Listing([], []), lines)
  {
    var d := Listing([], []);
    assert lines[0..] == lines;
    for n := 0 to |lines|
      invariant HostLines(w, Listing([], []), lines) == HostLines(w, d, lines[n..])
    {
      assert lines[n..][0] == lines[n] && lines[n..][1..] == lines[n + 1..];
      var next := HostLine(w, d, lines[n]);
      if next.Err? {
        return next;
      }
      d := next.value;
    }
    assert lines[|lines|..] == [];
    r := Ok(d);
  }

  /** What the lines of a file declare. */
  function Declared(w: World, text: string): Result<Listing> {
    if !Decodes(text) then Err("too large, or a control character")
    else HostLines(w, Listing([], []), SplitLines(Unix(text)))
  }

  /** Every declaration's settings spell bindings of its inputs, each once, to outputs
      there are. */
  ghost predicate AllBind(declarations: seq<Declaration>) {
    forall i | 0 <= i < |declarations| :: CanBind(declarations[i], Outputs(declarations))
  }

  /** The host has a provider for each declaration, with the bindings its settings
      spell. */
  ghost predicate HostOf(d: Listing, h: Host) {
    && |h.providers| == |d.declarations| && h.components == d.components
    && forall i | 0 <= i < |h.providers| :: BoundAs(d.declarations[i], Outputs(d.declarations), h.providers[i])
  }

  lemma AllBindIff(d: Listing)
    ensures AllBindable(d.declarations, Outputs(d.declarations)) <==> AllBind(d.declarations)
    ensures AllBind(d.declarations) ==>
              HostOf(d, Host(BoundAll(d.declarations, Outputs(d.declarations)), d.components))
  {
    var outputs := Outputs(d.declarations);
    hide Binds, Outputs, BoundAs, CanBind;
    forall i | 0 <= i < |d.declarations|
      ensures Bindable(d.declarations[i], outputs) <==> CanBind(d.declarations[i], outputs)
    {
      BindableIff(d.declarations[i], outputs);
    }
    if AllBindable(d.declarations, outputs) {
      var providers := BoundAll(d.declarations, outputs);
      forall i | 0 <= i < |providers| ensures BoundAs(d.declarations[i], outputs, providers[i]) {
        assert Bindable(d.declarations[i], outputs) && providers[i] == Bound(d.declarations[i]);
        BoundIsBoundAs(d.declarations[i], outputs);
      }
    }
    hide Bindable;
  }

  /** `load_host`; an absent file reads as the empty text. */
  method LoadHost(w: World, text: string) returns (r: Result<Host>)
    ensures r.Ok? <==> Load(w, text).Ok?
    ensures r.Ok? ==> r == Load(w, text)
    ensures r.Ok? <==> Declared(w, text).Ok? && AllBind(Declared(w, text).value.declarations)
    ensures r.Ok? ==> HostOf(Declared(w, text).value, r.value)
  {
    if Declared(w, text).Ok? {
      AllBindIff(Declared(w, text).value);
    }
    hide HostOf, AllBind, HostLines;
    if !Decodes(text) {
      return Err("too large, or a control character");
    }
    var d :- ReadHost(w, SplitLines(Unix(text)));
    var providers :- BindAll(d.declarations, Outputs(d.declarations));
    r := Ok(Host(providers, d.components));
  }

  // ---- what the loader guarantees ----

  /** What `load_component` returns. */
  predicate ContractOk(c: Contract) {
    && Endpoints(c.inputs) && DistinctNames(c.inputs)
    && Endpoints(c.outputs) && DistinctNames(c.outputs)
    && |Providing(c.outputs)| == 1
  }

  predicate ArgumentsOk(arguments: seq<string>) {
    forall i | 0 <= i < |arguments| :: Word(arguments[i]) && NoControl(arguments[i])
  }

  predicate DeclarationOk(d: Declaration) {
    IsName(d.name) && d.name != GATEWAY && ContractOk(d.contract) && ArgumentsOk(d.arguments)
  }

  predicate HostComponentOk(c: HostComponent) {
    c.name == OPENAI && IsToken(c.bind) && 1 <= c.port <= 65535
  }

  predicate ListingOk(d: Listing) {
    && (forall i | 0 <= i < |d.declarations| :: DeclarationOk(d.declarations[i]))
    && (forall i, j | 0 <= i < j < |d.declarations| :: d.declarations[i].name != d.declarations[j].name)
    && (forall i, j | 0 <= i < |d.declarations| && 0 <= j < |d.components| ::
          d.declarations[i].name != d.components[j].name)
    && (forall i, j | 0 <= i < j < |d.components| :: d.components[i].name != d.components[j].name)
    && (forall i | 0 <= i < |d.components| :: HostComponentOk(d.components[i]))
  }

  predicate EndpointsOk(d: ComponentDescriptor.Draft) {
    Endpoints(d.inputs) && DistinctNames(d.inputs) && Endpoints(d.outputs) && DistinctNames(d.outputs)
  }

  lemma EndpointAdded(es: seq<Endpoint>, e: Endpoint)
    requires Endpoints(es) && DistinctNames(es)
    ensures IsEndpoint(e) && !Named(es, e.name) ==> Endpoints(es + [e]) && DistinctNames(es + [e])
  {
    hide IsEndpoint;
  }

  lemma LineEndpoints(d: ComponentDescriptor.Draft, raw: string)
    requires EndpointsOk(d) && Line(d, raw).Ok?
    ensures EndpointsOk(Line(d, raw).value)
  {
    hide Content, Fields, IsEndpoint, Named, Endpoints, DistinctNames;
    var fields := Fields(Content(raw));
    if |fields| == 3 {
      EndpointAdded(d.inputs, Endpoint(fields[1], fields[2]));
      EndpointAdded(d.outputs, Endpoint(fields[1], fields[2]));
    }
  }

  lemma {:induction false} ParsedEndpoints(d: ComponentDescriptor.Draft, lines: seq<string>)
    requires EndpointsOk(d) && Parse(d, lines).Ok?
    ensures EndpointsOk(Parse(d, lines).value)
    decreases |lines|
  {
    if lines != [] {
      LineEndpoints(d, lines[0]);
      ParsedEndpoints(Line(d, lines[0]).value, lines[1..]);
    }
  }

  lemma LoadedContract(w: World, source: Path)
    requires LoadContract(w, source).Ok?
    ensures ContractOk(LoadContract(w, source).value)
  {
    var text := w.descriptor(source).value;
    ParsedEndpoints(ComponentDescriptor.Draft(None, [], []), SplitLines(Unix(text)));
  }

  lemma WordsOf(line: string)
    requires NoControl(line)
    ensures ArgumentsOk(Fields(Content(line)))
  {
    StripKeeps(line[..CommentFrom(line, 0)]);
    FieldsAre(Content(line));
  }

  lemma DeclaredIsOk(w: World, fields: seq<string>, names: set<string>)
    requires ArgumentsOk(fields) && GATEWAY in names && ProviderLine(w, fields, names).Ok?
    ensures DeclarationOk(ProviderLine(w, fields, names).value)
    ensures ProviderLine(w, fields, names).value.name !in names
  {
    LoadedContract(w, w.source(fields[2]).value.0);
  }

  /** An IPv4 address prints as one token. */
  ghost predicate Addresses(w: World) {
    forall text :: w.ipv4(text).Some? ==> IsToken(w.ipv4(text).value)
  }

  lemma {:induction false} ConfiguredIsOk(w: World, settings: seq<string>, seen: set<string>, c: HostComponent)
    requires Addresses(w) && HostComponentOk(c) && Configure(w, settings, seen, c).Ok?
    ensures HostComponentOk(Configure(w, settings, seen, c).value)
    decreases |settings|
  {
    if settings != [] {
      var key, value := Head(settings[0], '='), Rest(settings[0], '=');
      if key == "bind" {
        ConfiguredIsOk(w, settings[1..], seen + {key}, c.(bind := w.ipv4(value).value));
      } else {
        ConfiguredIsOk(w, settings[1..], seen + {key}, c.(port := w.integer(value).value));
      }
    }
  }

  lemma ProviderKeeps(w: World, d: Listing, fields: seq<string>)
    requires ListingOk(d) && ArgumentsOk(fields) && ProviderLine(w, fields, Names(d)).Ok?
    ensures ListingOk(d.(declarations := d.declarations + [ProviderLine(w, fields, Names(d)).value]))
  {
    DeclaredIsOk(w, fields, Names(d));
    ProviderAdded(d, ProviderLine(w, fields, Names(d)).value);
  }

  lemma ProviderAdded(d: Listing, x: Declaration)
    requires ListingOk(d) && DeclarationOk(x) && x.name !in Names(d)
    ensures ListingOk(d.(declarations := d.declarations + [x]))
  {
    hide DeclarationOk, HostComponentOk;
    assert forall i | 0 <= i < |d.declarations| :: d.declarations[i].name in Names(d);
    assert forall i | 0 <= i < |d.components| :: d.components[i].name in Names(d);
  }

  lemma AddressToken()
    ensures IsToken("127.0.0.1")
  {
  }

  lemma ComponentKeeps(w: World, d: Listing, fields: seq<string>)
    requires Addresses(w) && ListingOk(d) && ComponentLine(w, fields).Ok?
    requires ComponentLine(w, fields).value.name !in Names(d)
    ensures ListingOk(d.(components := d.components + [ComponentLine(w, fields).value]))
  {
    hide ListingOk, Names, Configure, Addresses, DeclarationOk;
    AddressToken();
    var start := HostComponent(OPENAI, "127.0.0.1", 8080);
    var c := ComponentLine(w, fields).value;
    ConfiguredIsOk(w, fields[2..], {}, start);
    ComponentAdded(d, c);
  }

  lemma ComponentAdded(d: Listing, c: HostComponent)
    requires ListingOk(d) && HostComponentOk(c) && c.name !in Names(d)
    ensures ListingOk(d.(components := d.components + [c]))
  {
    hide DeclarationOk, HostComponentOk;
    assert forall i | 0 <= i < |d.declarations| :: d.declarations[i].name in Names(d);
    assert forall i | 0 <= i < |d.components| :: d.components[i].name in Names(d);
  }

  lemma LineKeeps(w: World, d: Listing, raw: string)
    requires Addresses(w) && ListingOk(d) && NoControl(raw) && HostLine(w, d, raw).Ok?
    ensures ListingOk(HostLine(w, d, raw).value)
  {
    var fields := Fields(Content(raw));
    WordsOf(raw);
    if Content(raw) != "" && fields != [] {
      if fields[0] == "provider" {
        ProviderKeeps(w, d, fields);
      } else {
        ComponentKeeps(w, d, fields);
      }
    }
  }

  lemma {:induction false} LinesKeep(w: World, d: Listing, lines: seq<string>)
    requires Addresses(w) && ListingOk(d) && Plain(lines) && HostLines(w, d, lines).Ok?
    ensures ListingOk(HostLines(w, d, lines).value)
    decreases |lines|
  {
    if lines != [] {
      LineKeeps(w, d, lines[0]);
      LinesKeep(w, HostLine(w, d, lines[0]).value, lines[1..]);
    }
  }

  lemma FileListing(w: World, text: string)
    requires Addresses(w) && Decodes(text) && HostLines(w, Listing([], []), SplitLines(Unix(text))).Ok?
    ensures ListingOk(HostLines(w, Listing([], []), SplitLines(Unix(text))).value)
  {
    UnixKeeps(text);
    SplitTidy(Unix(text));
    LinesKeep(w, Listing([], []), SplitLines(Unix(text)));
  }

  // ---- the dictionary of outputs ----

  predicate Holds(outputs: map<Slot, string>, slot: Slot, service: string) {
    slot in outputs && outputs[slot] == service
  }

  predicate Offered(declarations: seq<Declaration>, slot: Slot, service: string) {
    exists d | d in declarations :: d.name == slot.0 && Endpoint(service, slot.1) in d.contract.outputs
  }

  lemma {:induction false} AddOutputsIs(outputs: map<Slot, string>, name: string, es: seq<Endpoint>, slot: Slot,
                                        service: string)
    requires DistinctNames(es) && forall i | 0 <= i < |es| :: (name, es[i].name) !in outputs
    ensures Holds(AddOutputs(outputs, name, es), slot, service)
       <==> Holds(outputs, slot, service) || (slot.0 == name && Endpoint(service, slot.1) in es)
    decreases |es|
  {
    if es != [] {
      var more := outputs[(name, es[0].name) := es[0].service];
      AddOutputsIs(more, name, es[1..], slot, service);
      assert es == [es[0]] + es[1..];
    }
  }

  lemma {:induction false} AddDeclaredIs(outputs: map<Slot, string>, declarations: seq<Declaration>, slot: Slot,
                                         service: string)
    requires forall i | 0 <= i < |declarations| :: DistinctNames(declarations[i].contract.outputs)
    requires forall i, j | 0 <= i < j < |declarations| :: declarations[i].name != declarations[j].name
    requires forall i, s | 0 <= i < |declarations| && s in outputs :: s.0 != declarations[i].name
    ensures Holds(AddDeclared(outputs, declarations), slot, service)
       <==> Holds(outputs, slot, service) || Offered(declarations, slot, service)
    decreases |declarations|
  {
    if declarations != [] {
      var d, rest := declarations[0], declarations[1..];
      var more := AddOutputs(outputs, d.name, d.contract.outputs);
      AddOutputsIs(outputs, d.name, d.contract.outputs, slot, service);
      forall i, s | 0 <= i < |rest| && s in more ensures s.0 != rest[i].name {
        AddOutputsIs(outputs, d.name, d.contract.outputs, s, more[s]);
        assert Holds(more, s, more[s]);
      }
      AddDeclaredIs(more, rest, slot, service);
      assert declarations == [d] + rest;
    }
  }

  /** A binding can target the gateway's provider output and every declared output of
      a provider, forward references included, and nothing else. */
  lemma OutputsAre(declarations: seq<Declaration>, slot: Slot, service: string)
    requires forall i | 0 <= i < |declarations| :: DeclarationOk(declarations[i])
    requires forall i, j | 0 <= i < j < |declarations| :: declarations[i].name != declarations[j].name
    ensures Holds(Outputs(declarations), slot, service)
       <==> (slot == (GATEWAY, "provider") && service == PROVIDER_SERVICE) || Offered(declarations, slot, service)
  {
    AddDeclaredIs(map[(GATEWAY, "provider") := PROVIDER_SERVICE], declarations, slot, service);
  }

  // ---- a loaded host ----

  predicate Offers(h: Host, slot: Slot, service: string) {
    || (slot == (GATEWAY, "provider") && service == PROVIDER_SERVICE)
    || exists p | p in h.providers :: p.name == slot.0 && Endpoint(service, slot.1) in p.contract.outputs
  }

  ghost predicate BindingOk(h: Host, p: Provider, b: Binding) {
    exists service :: Endpoint(service, b.input) in p.contract.inputs && Offers(h, (b.component, b.output), service)
  }

  predicate DistinctBindings(bindings: seq<Binding>) {
    forall i, j | 0 <= i < j < |bindings| :: bindings[i].input != bindings[j].input
  }

  predicate InputBound(p: Provider, e: Endpoint) {
    exists k | 0 <= k < |p.bindings| :: p.bindings[k].input == e.name
  }

  /** The bindings of a provider are a map from its inputs to offered outputs of the
      same service. */
  ghost predicate BindingsOk(h: Host, p: Provider) {
    && (forall b {:trigger BindingOk(h, p, b)} | b in p.bindings :: BindingOk(h, p, b))
    && DistinctBindings(p.bindings)
    && (forall e {:trigger InputBound(p, e)} | e in p.contract.inputs :: InputBound(p, e))
  }

  predicate ProviderOk(p: Provider) {
    IsName(p.name) && p.name != GATEWAY && ContractOk(p.contract) && ArgumentsOk(p.arguments)
  }

  ghost predicate HostOk(h: Host) {
    && (forall i | 0 <= i < |h.providers| :: ProviderOk(h.providers[i]) && BindingsOk(h, h.providers[i]))
    && (forall i, j | 0 <= i < j < |h.providers| :: h.providers[i].name != h.providers[j].name)
    && (forall i | 0 <= i < |h.components| :: HostComponentOk(h.components[i]))
    && (forall i, j | 0 <= i < j < |h.components| :: h.components[i].name != h.components[j].name)
    && (forall i, j | 0 <= i < |h.providers| && 0 <= j < |h.components| :: h.providers[i].name != h.components[j].name)
  }

  lemma SortedBindings(xs: seq<Binding>)
    requires DistinctBindings(xs)
    ensures DistinctBindings(Sorting.Sort(xs, ByInput))
  {
    var key := (b: Binding) => b.input;
    Sorting.SortDistinct(xs, ByInput, key);
    var ys := Sorting.Sort(xs, ByInput);
    forall i, j | 0 <= i < j < |ys| ensures ys[i].input != ys[j].input {
      assert key(ys[i]) != key(ys[j]);
    }
  }

  lemma BoundBinding(h: Host, d: Declaration, outputs: map<Slot, string>, x: Binding)
    requires Bindable(d, outputs) && x in Bound(d).bindings
    requires forall slot | slot in outputs :: Offers(h, slot, outputs[slot])
    ensures BindingOk(h, Bound(d), x)
  {
    var xs := Bindings(d.settings);
    Sorting.SortMembers(xs, ByInput, x);
    var i :| 0 <= i < |xs| && xs[i] == x;
    assert SettingOk(d.contract.inputs, outputs, d.settings[i]);
    assert Offers(h, (x.component, x.output), outputs[(x.component, x.output)]);
  }

  lemma StaysBound(xs: seq<Binding>, i: nat)
    requires i < |xs|
    ensures exists k | 0 <= k < |xs| :: Sorting.Sort(xs, ByInput)[k].input == xs[i].input
  {
    Sorting.SortMembers(xs, ByInput, xs[i]);
    var k :| 0 <= k < |xs| && Sorting.Sort(xs, ByInput)[k] == xs[i];
  }

  lemma BoundInput(d: Declaration, outputs: map<Slot, string>, e: Endpoint)
    requires Bindable(d, outputs) && e in d.contract.inputs
    ensures InputBound(Bound(d), e)
  {
    assert SetsInput(d.settings, e.name);
    var i :| 0 <= i < |d.settings| && InputOf(d.settings[i]) == e.name;
    StaysBound(Bindings(d.settings), i);
  }

  lemma BoundDistinct(d: Declaration, outputs: map<Slot, string>)
    requires Bindable(d, outputs)
    ensures DistinctBindings(Bound(d).bindings)
  {
    var xs := Bindings(d.settings);
    forall i, j | 0 <= i < j < |xs| ensures xs[i].input != xs[j].input {
      assert InputOf(d.settings[i]) != InputOf(d.settings[j]);
    }
    SortedBindings(xs);
  }

  lemma BoundBindings(h: Host, d: Declaration, outputs: map<Slot, string>)
    requires Bindable(d, outputs)
    requires forall slot | slot in outputs :: Offers(h, slot, outputs[slot])
    ensures BindingsOk(h, Bound(d))
  {
    BoundDistinct(d, outputs);
    forall x | x in Bound(d).bindings ensures BindingOk(h, Bound(d), x) {
      BoundBinding(h, d, outputs, x);
    }
    forall e | e in Bound(d).contract.inputs ensures InputBound(Bound(d), e) {
      BoundInput(d, outputs, e);
    }
  }

  lemma OfferedByHost(declarations: seq<Declaration>, outputs: map<Slot, string>, h: Host, slot: Slot)
    requires AllBindable(declarations, outputs) && h.providers == BoundAll(declarations, outputs)
    requires forall i | 0 <= i < |declarations| :: DeclarationOk(declarations[i])
    requires forall i, j | 0 <= i < j < |declarations| :: declarations[i].name != declarations[j].name
    requires outputs == Outputs(declarations) && slot in outputs
    ensures Offers(h, slot, outputs[slot])
  {
    OutputsAre(declarations, slot, outputs[slot]);
    if Offered(declarations, slot, outputs[slot]) {
      var d :| d in declarations && d.name == slot.0 && Endpoint(outputs[slot], slot.1) in d.contract.outputs;
      var i :| 0 <= i < |declarations| && declarations[i] == d;
      assert h.providers[i] == Bound(d) && h.providers[i] in h.providers;
    }
  }

  /** Every host the loader accepts is well typed. */
  lemma LoadedIsOk(w: World, text: string)
    requires Addresses(w) && Load(w, text).Ok?
    ensures HostOk(Load(w, text).value)
  {
    var h := Load(w, text).value;
    var d := HostLines(w, Listing([], []), SplitLines(Unix(text))).value;
    var outputs := Outputs(d.declarations);
    FileListing(w, text);
    forall slot | slot in outputs ensures Offers(h, slot, outputs[slot]) {
      OfferedByHost(d.declarations, outputs, h, slot);
    }
    forall i | 0 <= i < |h.providers| ensures ProviderOk(h.providers[i]) && BindingsOk(h, h.providers[i]) {
      assert h.providers[i] == Bound(d.declarations[i]) && DeclarationOk(d.declarations[i]);
      BoundBindings(h, d.declarations[i], outputs);
    }
  }
}
