/** `CycloRuntime.system` and `make_team_component`: a loaded host and the running
    instances compiled into one DComp system. */
module Compiler {
  import opened Outcomes
  import opened Text
  import opened ComponentDescriptor
  import opened DcompSystem
  import HostConfig
  import Mounts
  import P = ProjectText
  import Sorting

  type Host = HostConfig.Host

  type Provider = HostConfig.Provider

  type HostComponent = HostConfig.HostComponent

  /** What compilation reads from a persisted instance; the team path is `None` when
      it does not resolve. */
  datatype Instance = Instance(
    id: string, running: bool, image: string,
    projectFile: string, projectName: string, description: string, generation: string, projectGeneration: string,
    team: Option<Mounts.Path>, teamWrite: bool, roster: string, protocol: bool, verbose: bool,
    offline: bool, host: string, port: int,
    mounts: seq<P.Mount>)

  /** The files and directories prepared for one instance. */
  datatype Area = Area(tasks: string, jobs: string, agents: string, project: string, settings: string, pi: string)

  /** The images there are and their ids by component name, prepared areas and
      identifier digests. */
  datatype Build = Build(realm: string, built: set<string>, image: string -> string, area: string -> Area,
                         digest: string -> string)

  // ---- component names ----

  predicate Readable(c: char) { Lower(c) || Digit(c) || c == '-' }

  /** Each run of other characters becomes one hyphen. */
  function Collapse(s: string, inRun: bool): string {
    if s == "" then ""
    else if Readable(s[0]) then [s[0]] + Collapse(s[1..], false)
    else (if inRun then "" else "-") + Collapse(s[1..], true)
  }

  function TrimLeft(s: string): (r: string)
    ensures |r| <= |s| && forall c | c in r :: c in s
  {
    if s != "" && s[0] == '-' then TrimLeft(s[1..]) else s
  }

  function TrimRight(s: string): (r: string)
    ensures r <= s
  {
    if s != "" && s[|s| - 1] == '-' then TrimRight(s[..|s| - 1]) else s
  }

  function OrInstance(s: string): string { if s == "" then "instance" else s }

  /** `component_name("team", id)`; instance identifiers are ASCII. */
  function TeamName(digest: string -> string, id: string): string {
    var readable := OrInstance(TrimRight(TrimLeft(Collapse(P.Fold(id), false))));
    var room := 63 - 4 - 10 - 2;
    var stem := OrInstance(TrimRight(if |readable| <= room then readable else readable[..room]));
    "team-" + stem + "-" + digest(id)
  }

  ghost predicate Digests(digest: string -> string) {
    forall id :: |digest(id)| == 10 && forall i | 0 <= i < 10 :: Lower(digest(id)[i]) || Digit(digest(id)[i])
  }

  lemma {:induction false} Collapsed(s: string, inRun: bool)
    ensures forall c | c in Collapse(s, inRun) :: Readable(c)
  {
    if s != "" {
      Collapsed(s[1..], !Readable(s[0]));
    }
  }

  /** Whatever the identifier, its team component has a valid name, and two
      identifiers with different digests have different ones. */
  lemma TeamNameIs(digest: string -> string, id: string)
    requires Digests(digest)
    ensures IsName(TeamName(digest, id))
    ensures forall other :: digest(other) != digest(id) ==> TeamName(digest, other) != TeamName(digest, id)
  {
    var name := TeamName(digest, id);
    Collapsed(P.Fold(id), false);
    assert |name| <= 63;
    assert forall i | 0 <= i < |name| :: Readable(name[i]);
    assert name[|name| - 10..] == digest(id);
    forall other | digest(other) != digest(id) ensures TeamName(digest, other) != name {
      var n := TeamName(digest, other);
      assert n[|n| - 10..] == digest(other);
    }
  }

  lemma {:induction false} CollapseKeeps(s: string, inRun: bool)
    requires forall c | c in s :: Readable(c)
    ensures Collapse(s, inRun) == s
  {
    if s != "" {
      assert s[0] in s && forall c | c in s[1..] :: c in s;
      CollapseKeeps(s[1..], false);
    }
  }

  /** An identifier that is a short name already is kept whole. */
  lemma TeamNameKeeps(digest: string -> string, id: string)
    requires 1 <= |id| <= 47 && id[0] != '-' && id[|id| - 1] != '-' && forall c | c in id :: Readable(c)
    ensures TeamName(digest, id) == "team-" + id + "-" + digest(id)
  {
    FoldKeeps(id);
    CollapseKeeps(id, false);
    assert TrimLeft(id) == id && TrimRight(id) == id;
    hide Collapse, TrimLeft, TrimRight, P.Fold, Readable;
  }

  lemma FoldKeeps(id: string)
    requires forall c | c in id :: Readable(c)
    ensures P.Fold(id) == id
  {
    assert forall i | 0 <= i < |id| :: id[i] in id;
  }

  // ---- paths ----

  /** An absolute path as text. */
  function PathText(p: Mounts.Path): string {
    if p == [] then "/" else Slashed(p)
  }

  function Slashed(steps: seq<string>): string {
    if steps == [] then "" else "/" + steps[0] + Slashed(steps[1..])
  }

  predicate IsStep(s: string) { s != "" && '/' !in s && s != "." && s != ".." }

  predicate AreSteps(steps: seq<string>) { forall i | 0 <= i < |steps| :: IsStep(steps[i]) && IsToken(steps[i]) }

  lemma StepsAfterSlash(s: string)
    requires s != "" && s[0] == '/'
    ensures Steps(s) == Steps(s[1..])
  {
    assert IndexOf(s, '/') == 0;
  }

  lemma FirstStep(step: string, rest: string)
    requires IsStep(step) && (rest == "" || rest[0] == '/')
    ensures Steps(step + rest) == [step] + (if rest == "" then [] else Steps(rest[1..]))
  {
    var s := step + rest;
    IndexPast(step, rest, '/');
    assert s[..|step|] == step;
    if rest != "" {
      assert s[|step| + 1..] == rest[1..];
    }
  }

  /** Reading a path text back gives its steps. */
  lemma {:induction false} StepsOfSlashed(steps: seq<string>)
    requires AreSteps(steps)
    ensures Steps(Slashed(steps)) == steps
  {
    if steps != [] {
      assert IsStep(steps[0]);
      hide Steps, IsStep, IsToken;
      var s, rest := Slashed(steps), Slashed(steps[1..]);
      StepsOfSlashed(steps[1..]);
      StepsAfterSlash(s);
      assert s[1..] == steps[0] + rest;
      FirstStep(steps[0], rest);
      if rest != "" {
        StepsAfterSlash(rest);
      }
      assert steps == [steps[0]] + steps[1..];
    }
  }

  lemma {:induction false} SlashedToken(steps: seq<string>)
    requires AreSteps(steps)
    ensures steps != [] ==> IsToken(Slashed(steps)) && Slashed(steps)[0] == '/'
    ensures NoSpace(Slashed(steps)) && NoControl(Slashed(steps)) && '#' !in Slashed(steps)
  {
    if steps != [] {
      SlashedToken(steps[1..]);
      assert IsToken(steps[0]);
    }
  }

  lemma SlashedIsPath(steps: seq<string>)
    requires AreSteps(steps) && steps != []
    ensures IsContainerPath(Slashed(steps)) && Parts(Slashed(steps)) == ["/"] + steps
  {
    var s := Slashed(steps);
    SlashedToken(steps);
    StepsOfSlashed(steps);
    assert IsStep(steps[0]);
    assert s[1] == steps[0][0] && s[1] in steps[0];
    assert forall i | 0 <= i < |steps| :: IsStep(steps[i]);
  }

  // ---- one component each ----

  const PROVIDER := Endpoint(PROVIDER_SERVICE, "provider")

  function Gateway(image: string, publish: bool): Component {
    Component(HostConfig.GATEWAY, image, [], [PROVIDER], [],
              [Volume("credentials", Slashed(["var", "lib", "cyclo-gateway"]), false)], [],
              if publish then [Port("127.0.0.1", 0, 50051, "tcp")] else [], true)
  }

  function ProviderPart(p: Provider, image: string, outer: bool): Component {
    Component(p.name, image, p.contract.inputs, p.contract.outputs, [], [], p.arguments,
              if outer then [Port("127.0.0.1", 0, 50051, "tcp")] else [], outer)
  }

  function HostPart(c: HostComponent, image: string): Component {
    Component(c.name, image, [PROVIDER], [], [], [], [], [Port(c.bind, c.port, 8080, "tcp")], true)
  }

  function MountBind(m: P.Mount): Bind {
    Bind(PathText(m.path), Slashed([if m.mode.RW? then "workspace" else "readonly", m.name]), m.mode.RO?)
  }

  function MountBinds(mounts: seq<P.Mount>): (r: seq<Bind>)
    ensures |r| == |mounts| && forall i | 0 <= i < |mounts| :: r[i] == MountBind(mounts[i])
  {
    if mounts == [] then [] else [MountBind(mounts[0])] + MountBinds(mounts[1..])
  }

  function FixedBinds(a: Area, team: Mounts.Path, teamWrite: bool): seq<Bind> {
    [Bind(a.tasks, Slashed(["agentws", "tasks"]), false),
     Bind(a.jobs, Slashed(["agentws", "jobs"]), false),
     Bind(a.agents, Slashed(["agentws", "agents"]), false),
     Bind(a.project, Slashed(["agentws", "project.cyclo"]), true),
     Bind(a.settings, Slashed(["opt", "cyclo", "pi-settings.json"]), true),
     Bind(a.pi, Slashed(["home", "cyclo", ".pi"]), false),
     Bind(PathText(team), Slashed(["team"]), !teamWrite)]
  }

  function TeamArguments(i: Instance): seq<string> {
    ["python3", Slashed(["usr", "local", "bin", "cyclo-team-runtime"]),
     "--roster", "/team/" + i.roster, "--generation", i.generation, "--project-generation", i.projectGeneration]
    + (if i.protocol then ["--team-protocol", Slashed(["team", "AGENTS.md"])] else [])
    + (if i.verbose then ["--verbose"] else [])
  }

  function TeamPart(b: Build, i: Instance): Component {
    Component(TeamName(b.digest, i.id), i.image, [PROVIDER], [],
              FixedBinds(b.area(i.id), if i.team.Some? then i.team.value else [], i.teamWrite) + MountBinds(i.mounts),
              [],
              TeamArguments(i),
              if i.offline then [] else [Port(i.host, i.port, 4137, "tcp")], !i.offline)
  }

  /** What `decode_instance_project` demands of the persisted project. */
  predicate ProjectDecodes(i: Instance) {
    && i.projectFile != "" && i.projectFile[0] == '/'
    && i.projectName != "" && i.description != "" && i.projectGeneration != ""
    && i.mounts != [] && forall k | 0 <= k < |i.mounts| :: P.IsName(i.mounts[k].name)
  }

  predicate TeamCompiles(i: Instance) {
    && |i.image| >= 7 && i.image[..7] == "sha256:"
    && ProjectDecodes(i)
    && i.team.Some?
    && '/' !in i.roster && i.roster != "."
  }

  // ---- the system ----

  function OuterComponent(h: Host): string {
    if h.providers == [] then HostConfig.GATEWAY else h.providers[|h.providers| - 1].name
  }

  function OuterOutput(h: Host): string {
    if h.providers == [] then "provider"
    else
      var outputs := Providing(h.providers[|h.providers| - 1].contract.outputs);
      if |outputs| == 1 then outputs[0].name else ""
  }

  function Each<T, U>(xs: seq<T>, f: T -> U): (ys: seq<U>)
    ensures |ys| == |xs| && forall i | 0 <= i < |xs| :: ys[i] == f(xs[i])
  {
    seq(|xs|, i requires 0 <= i < |xs| => f(xs[i]))
  }

  function ProviderMaker(b: Build, h: Host): Provider -> Component {
    (p: Provider) => ProviderPart(p, b.image(p.name), p.name == OuterComponent(h))
  }

  function HostMaker(b: Build): HostComponent -> Component {
    (c: HostComponent) => HostPart(c, b.image(c.name))
  }

  function TeamMaker(b: Build): Instance -> Component {
    (i: Instance) => TeamPart(b, i)
  }

  function BindingLinks(name: string, bindings: seq<HostConfig.Binding>): (r: seq<Link>)
    ensures |r| == |bindings|
    ensures forall i | 0 <= i < |r| :: r[i] == Link(name, bindings[i].input, bindings[i].component, bindings[i].output)
  {
    if bindings == [] then []
    else
      [Link(name, bindings[0].input, bindings[0].component, bindings[0].output)] + BindingLinks(name, bindings[1..])
  }

  function OuterLink(h: Host, consumer: string): Link {
    Link(consumer, "provider", OuterComponent(h), OuterOutput(h))
  }

  function Outward(h: Host): Component -> Link {
    (c: Component) => OuterLink(h, c.name)
  }

  function ProviderLinks(providers: seq<Provider>, n: nat): seq<Link>
    requires n <= |providers|
  {
    if n == 0 then []
    else ProviderLinks(providers, n - 1) + BindingLinks(providers[n - 1].name, providers[n - 1].bindings)
  }

  /** The components that consume the outer provider output. */
  function Clients(b: Build, h: Host, active: seq<Instance>): seq<Component> {
    Each(h.components, HostMaker(b)) + Each(active, TeamMaker(b))
  }

  function GatewayPart(b: Build, h: Host): Component { Gateway(b.image(HostConfig.GATEWAY), h.providers == []) }

  /** The compiled system of the running instances, in order. */
  function Compiled(b: Build, h: Host, active: seq<Instance>): System {
    System(b.realm,
           [GatewayPart(b, h)] + Each(h.providers, ProviderMaker(b, h)) + Clients(b, h, active),
           ProviderLinks(h.providers, |h.providers|) + Each(Clients(b, h, active), Outward(h)))
  }

  function Running(instances: seq<Instance>): seq<Instance> {
    if instances == [] then []
    else (if instances[0].running then [instances[0]] else []) + Running(instances[1..])
  }

  predicate ById(a: Instance, b: Instance) { Sorting.Leq(a.id, b.id) }

  function Active(instances: seq<Instance>): seq<Instance> { Sorting.Sort(Running(instances), ById) }

  // ---- what the compiled system means, from the host alone ----

  /** The host calls for this link: it is a binding of a provider, or it joins a client
      to the last provider, at its output of the provider service, or to the gateway
      when there is no provider. */
  ghost predicate CalledFor(h: Host, clients: set<string>, l: Link) {
    || (exists i, k | 0 <= i < |h.providers| && 0 <= k < |h.providers[i].bindings| ::
          var x := h.providers[i].bindings[k]; l == Link(h.providers[i].name, x.input, x.component, x.output))
    || (l.consumer in clients && l.input == "provider"
        && if h.providers == [] then l.provider == "gateway" && l.output == "provider"
           else
             var last := h.providers[|h.providers| - 1];
             l.provider == last.name && Endpoint(PROVIDER_SERVICE, l.output) in last.contract.outputs)
  }

  /** The host's components and the teams of the running instances. */
  function ClientNames(digest: string -> string, h: Host, instances: seq<Instance>): set<string> {
    (set c | c in h.components :: c.name) + TeamNames(digest, instances)
  }

  function TeamNames(digest: string -> string, instances: seq<Instance>): set<string> {
    set i | i in instances && i.running :: TeamName(digest, i.id)
  }

  lemma {:induction false} ProvidingAre(es: seq<Endpoint>)
    ensures forall e | e in Providing(es) :: e in es && e.service == PROVIDER_SERVICE
  {
    if es != [] {
      ProvidingAre(es[1..]);
    }
  }

  lemma {:induction false} ProvidingHas(es: seq<Endpoint>, e: Endpoint)
    requires e in es && e.service == PROVIDER_SERVICE
    ensures e in Providing(es)
  {
    if e != es[0] {
      ProvidingHas(es[1..], e);
    }
  }

  lemma OneProviding(h: Host, i: nat)
    requires HostConfig.HostOk(h) && i < |h.providers|
    ensures |Providing(h.providers[i].contract.outputs)| == 1
  {
    hide HostConfig.BindingsOk, HostConfig.HostComponentOk, Endpoints, DistinctNames, HostConfig.ArgumentsOk, IsName;
    assert HostConfig.ProviderOk(h.providers[i]);
  }

  lemma OnlyProviding(es: seq<Endpoint>, output: string)
    requires |Providing(es)| == 1
    ensures Endpoint(PROVIDER_SERVICE, output) in es <==> output == Providing(es)[0].name
  {
    ProvidingAre(es);
    assert Providing(es)[0] in Providing(es);
    if Endpoint(PROVIDER_SERVICE, output) in es {
      ProvidingHas(es, Endpoint(PROVIDER_SERVICE, output));
    }
    hide Providing;
  }

  /** One output of a checked provider has the provider service, and clients use it. */
  lemma OuterIs(h: Host, output: string)
    requires HostConfig.HostOk(h)
    ensures h.providers == [] ==> OuterComponent(h) == "gateway" && OuterOutput(h) == "provider"
    ensures h.providers != [] ==>
              var last := h.providers[|h.providers| - 1];
              && OuterComponent(h) == last.name
              && (Endpoint(PROVIDER_SERVICE, output) in last.contract.outputs <==> output == OuterOutput(h))
  {
    if h.providers != [] {
      OneProviding(h, |h.providers| - 1);
      hide HostConfig.HostOk, Providing;
      OnlyProviding(h.providers[|h.providers| - 1].contract.outputs, output);
    }
  }

  /** Where a provider's link comes from. */
  lemma {:induction false} ProviderLinkFrom(providers: seq<Provider>, n: nat, l: Link) returns (i: nat, k: nat)
    requires n <= |providers| && l in ProviderLinks(providers, n)
    ensures i < n && k < |providers[i].bindings|
    ensures l == BindingLinks(providers[i].name, providers[i].bindings)[k]
  {
    var last := BindingLinks(providers[n - 1].name, providers[n - 1].bindings);
    if l in last {
      i := n - 1;
      k :| 0 <= k < |last| && last[k] == l;
    } else {
      i, k := ProviderLinkFrom(providers, n - 1, l);
    }
  }

  lemma {:induction false} ProviderLinkIn(providers: seq<Provider>, n: nat, i: nat, k: nat)
    requires i < n <= |providers| && k < |providers[i].bindings|
    ensures BindingLinks(providers[i].name, providers[i].bindings)[k] in ProviderLinks(providers, n)
  {
    if i < n - 1 {
      ProviderLinkIn(providers, n - 1, i, k);
    }
  }

  lemma ProviderLinksAre(h: Host, l: Link)
    ensures l in ProviderLinks(h.providers, |h.providers|) <==>
            exists i, k | 0 <= i < |h.providers| && 0 <= k < |h.providers[i].bindings| ::
              var x := h.providers[i].bindings[k]; l == Link(h.providers[i].name, x.input, x.component, x.output)
  {
    hide ProviderLinks;
    if l in ProviderLinks(h.providers, |h.providers|) {
      var i, k := ProviderLinkFrom(h.providers, |h.providers|, l);
    }
    forall i, k | 0 <= i < |h.providers| && 0 <= k < |h.providers[i].bindings|
      ensures var x := h.providers[i].bindings[k];
              Link(h.providers[i].name, x.input, x.component, x.output) in ProviderLinks(h.providers, |h.providers|)
    {
      ProviderLinkIn(h.providers, |h.providers|, i, k);
    }
  }

  lemma {:induction false} RunningAre(instances: seq<Instance>, i: Instance)
    ensures i in Running(instances) <==> i in instances && i.running
    ensures multiset(Running(instances))[i] == if i.running then multiset(instances)[i] else 0
  {
    if instances != [] {
      RunningAre(instances[1..], i);
      assert instances == [instances[0]] + instances[1..];
    }
  }

  lemma ByIdIsTotal()
    ensures Sorting.Total(ById)
  {
    forall x: Instance, y: Instance ensures ById(x, y) || ById(y, x) {
      Sorting.LeqEither(x.id, y.id);
    }
    forall x: Instance, y: Instance, z: Instance | ById(x, y) && ById(y, z) ensures ById(x, z) {
      Sorting.LeqChain(x.id, y.id, z.id);
    }
  }

  /** The compiled teams are the running instances, each as often as it is given, in the
      order of their identifiers. */
  lemma ActiveAre(instances: seq<Instance>, i: Instance)
    ensures multiset(Active(instances))[i] == if i.running then multiset(instances)[i] else 0
    ensures i in Active(instances) <==> i in instances && i.running
    ensures forall j, k | 0 <= j < k < |Active(instances)| ::
              Sorting.Leq(Active(instances)[j].id, Active(instances)[k].id)
  {
    RunningAre(instances, i);
    Sorting.SortKeeps(Running(instances), ById);
    Sorting.SortMembers(Running(instances), ById, i);
    ByIdIsTotal();
    Sorting.SortAscends(Running(instances), ById);
    forall j, k | 0 <= j < k < |Active(instances)|
      ensures Sorting.Leq(Active(instances)[j].id, Active(instances)[k].id)
    {
      assert ById(Active(instances)[j], Active(instances)[k]);
    }
  }

  lemma ClientAt(b: Build, h: Host, active: seq<Instance>, k: nat)
    requires k < |Clients(b, h, active)|
    ensures |Clients(b, h, active)| == |h.components| + |active|
    ensures Clients(b, h, active)[k].name
         == if k < |h.components| then h.components[k].name else TeamName(b.digest, active[k - |h.components|].id)
  {
    hide TeamName, FixedBinds, MountBinds, TeamArguments;
    if k < |h.components| {
      assert HostMaker(b)(h.components[k]) == HostPart(h.components[k], b.image(h.components[k].name));
    } else {
      var i := active[k - |h.components|];
      assert TeamMaker(b)(i) == TeamPart(b, i);
    }
  }

  lemma ClientNamed(b: Build, h: Host, instances: seq<Instance>, name: string) returns (k: nat)
    requires name in ClientNames(b.digest, h, instances)
    ensures k < |Clients(b, h, Active(instances))| && Clients(b, h, Active(instances))[k].name == name
  {
    assert |Clients(b, h, Active(instances))| == |h.components| + |Active(instances)|;
    if name in TeamNames(b.digest, instances) {
      hide Active, TeamName, Clients, ClientNames, TeamNames;
      k := TeamNamed(b.digest, instances, name);
      k := |h.components| + k;
    } else {
      hide Active, TeamName, Clients, TeamNames;
      var c :| c in h.components && c.name == name;
      k :| 0 <= k < |h.components| && h.components[k] == c;
    }
    hide Active, TeamName, Clients, ClientNames, TeamNames;
    ClientAt(b, h, Active(instances), k);
  }

  lemma TeamNamed(digest: string -> string, instances: seq<Instance>, name: string) returns (k: nat)
    requires name in TeamNames(digest, instances)
    ensures k < |Active(instances)| && TeamName(digest, Active(instances)[k].id) == name
  {
    hide Active, TeamName;
    var i :| i in instances && i.running && TeamName(digest, i.id) == name;
    ActiveAre(instances, i);
    k :| 0 <= k < |Active(instances)| && Active(instances)[k] == i;
  }

  lemma NamedClient(b: Build, h: Host, instances: seq<Instance>, k: nat)
    requires k < |Clients(b, h, Active(instances))|
    ensures Clients(b, h, Active(instances))[k].name in ClientNames(b.digest, h, instances)
  {
    var active := Active(instances);
    ClientAt(b, h, active, k);
    hide Active, TeamName, Clients;
    if k >= |h.components| {
      ActiveAre(instances, active[k - |h.components|]);
    }
  }

  /** The links of the compiled system are those the host calls for, and no others. */
  lemma LinksAre(b: Build, h: Host, instances: seq<Instance>, l: Link)
    requires HostConfig.HostOk(h)
    ensures l in Compiled(b, h, Active(instances)).links <==> CalledFor(h, ClientNames(b.digest, h, instances), l)
  {
    var clients := Clients(b, h, Active(instances));
    var outward := Each(clients, Outward(h));
    ProviderLinksAre(h, l);
    OuterIs(h, l.output);
    hide Clients, Active, ClientNames, ProviderLinks, HostConfig.HostOk, OuterComponent, OuterOutput;
    assert forall k | 0 <= k < |clients| :: outward[k] == OuterLink(h, clients[k].name);
    if l in outward {
      var k :| 0 <= k < |outward| && outward[k] == l;
      NamedClient(b, h, instances, k);
    }
    if l.consumer in ClientNames(b.digest, h, instances) {
      var k := ClientNamed(b, h, instances, l.consumer);
      assert outward[k] in outward;
    }
  }

  method AddProviders(providers: seq<Provider>, built: set<string>, make: Provider -> Component)
    returns (ok: bool, components: seq<Component>, links: seq<Link>)
    ensures ok <==> forall i | 0 <= i < |providers| :: providers[i].name in built
    ensures ok ==> components == Each(providers, make) && links == ProviderLinks(providers, |providers|)
  {
    components, links := [], [];
    for n := 0 to |providers|
      invariant forall i | 0 <= i < n :: providers[i].name in built
      invariant components == Each(providers[..n], make) && links == ProviderLinks(providers, n)
    {
      if providers[n].name !in built {
        return false, components, links;
      }
      components := components + [make(providers[n])];
      links := links + BindingLinks(providers[n].name, providers[n].bindings);
    }
    assert providers[..|providers|] == providers;
    ok := true;
  }

  /** Add a component, and its link to the outer provider, for each item; stop at the
      first that does not compile. */
  method AddClients<T>(items: seq<T>, compiles: T -> bool, make: T -> Component, link: Component -> Link)
    returns (ok: bool, components: seq<Component>, links: seq<Link>)
    ensures ok <==> forall i | 0 <= i < |items| :: compiles(items[i])
    ensures ok ==> components == Each(items, make) && links == Each(components, link)
  {
    components, links := [], [];
    for n := 0 to |items|
      invariant forall i | 0 <= i < n :: compiles(items[i])
      invariant components == Each(items[..n], make) && links == Each(components, link)
    {
      if !compiles(items[n]) {
        return false, components, links;
      }
      var component := make(items[n]);
      components := components + [component];
      links := links + [link(component)];
    }
    assert items[..|items|] == items;
    ok := true;
  }

  lemma EachAppend<T, U>(a: seq<T>, c: seq<T>, f: T -> U)
    ensures Each(a + c, f) == Each(a, f) + Each(c, f)
  {
  }

  function Compiles(): Instance -> bool {
    (i: Instance) => TeamCompiles(i)
  }

  function HasImage(b: Build): HostComponent -> bool {
    (c: HostComponent) => c.name in b.built
  }

  /** Every provider and host component has a built image. */
  predicate ImagesBuilt(b: Build, h: Host) {
    && (forall i | 0 <= i < |h.providers| :: h.providers[i].name in b.built)
    && (forall i | 0 <= i < |h.components| :: h.components[i].name in b.built)
  }

  function Sources(i: Instance): Mounts.Selected {
    Mounts.Selected((i.projectFile, i.projectGeneration), ProjectDecodes(i), i.team,
                    seq(|i.mounts|, k requires 0 <= k < |i.mounts| => i.mounts[k].path))
  }

  function SourcesOf(): Instance -> Mounts.Selected {
    (i: Instance) => Sources(i)
  }

  /** A running instance whose persisted record can become a component: an immutable
      image, a project that decodes, a team that is there, a roster in its directory. */
  predicate Compilable(i: Instance) {
    && "sha256:" <= i.image
    && "/" <= i.projectFile && i.projectName != "" && i.description != "" && i.projectGeneration != ""
    && i.mounts != [] && (forall m | m in i.mounts :: P.IsName(m.name))
    && i.team.Some?
    && '/' !in i.roster && i.roster != "."
  }

  /** What it takes to compile a system, said of the instances given. */
  ghost predicate Buildable(ground: Mounts.Ground, b: Build, h: Host, instances: seq<Instance>) {
    && (forall i | i in instances && i.running :: Compilable(i))
    && (forall p | p in h.providers :: p.name in b.built) && (forall c | c in h.components :: c.name in b.built)
    && ((exists i :: i in instances && i.running) ==> ground.nonRoot && ground.endpoint)
    && Mounts.Separate(ground.views,
                       (set i | i in instances && i.running && i.team.Some? :: i.team.value),
                       (set i, m | i in instances && i.running && m in i.mounts :: m.path), ground.protected)
  }

  lemma CompilableIff(i: Instance)
    ensures Compilable(i) <==> TeamCompiles(i)
  {
    hide P.IsName;
    assert "sha256:" <= i.image <==> |i.image| >= 7 && i.image[..7] == "sha256:";
    assert "/" <= i.projectFile <==> i.projectFile != "" && i.projectFile[0] == '/';
    if forall m | m in i.mounts :: P.IsName(m.name) {
      assert forall k | 0 <= k < |i.mounts| :: i.mounts[k] in i.mounts;
    }
  }

  lemma SourcesAre(instances: seq<Instance>)
    ensures var selected := Each(Active(instances), SourcesOf());
            && (selected != [] <==> exists i :: i in instances && i.running)
            && ((forall s | s in selected :: Mounts.Sound(s)) <==>
                  forall i | i in instances && i.running :: ProjectDecodes(i) && i.team.Some?)
            && Mounts.Teams(selected) == (set i | i in instances && i.running && i.team.Some? :: i.team.value)
            && Mounts.MountsOf(selected) == (set i, m | i in instances && i.running && m in i.mounts :: m.path)
  {
    var active := Active(instances);
    var selected := Each(active, SourcesOf());
    forall i ensures i in active <==> i in instances && i.running {
      ActiveAre(instances, i);
    }
    assert forall k | 0 <= k < |active| :: selected[k] == Sources(active[k]) && selected[k] in selected;
    hide Active, ProjectDecodes;
    forall i | i in active ensures Sources(i) in selected {
      var k :| 0 <= k < |active| && active[k] == i;
    }
    forall s | s in selected ensures exists i :: i in active && s == Sources(i) {
      var k :| 0 <= k < |selected| && selected[k] == s;
      assert active[k] in active;
    }
    hide Each;
    SetsAre(active, instances, selected);
  }

  lemma PathsAre(i: Instance, p: Mounts.Path)
    ensures p in Sources(i).mounts <==> exists m :: m in i.mounts && m.path == p
  {
    hide ProjectDecodes;
    assert forall k | 0 <= k < |i.mounts| :: Sources(i).mounts[k] == i.mounts[k].path;
    if m :| m in i.mounts && m.path == p {
      var k :| 0 <= k < |i.mounts| && i.mounts[k] == m;
      assert Sources(i).mounts[k] == p;
    }
  }

  lemma SetsAre(active: seq<Instance>, instances: seq<Instance>, selected: seq<Mounts.Selected>)
    requires forall i :: i in active <==> i in instances && i.running
    requires forall i | i in active :: Sources(i) in selected
    requires forall s | s in selected :: exists i :: i in active && s == Sources(i)
    ensures Mounts.Teams(selected) == (set i | i in instances && i.running && i.team.Some? :: i.team.value)
    ensures Mounts.MountsOf(selected) == (set i, m | i in instances && i.running && m in i.mounts :: m.path)
  {
    assert forall i | i in active :: Sources(i).team == i.team;
    var mine := set i, m | i in instances && i.running && m in i.mounts :: m.path;
    hide Sources;
    forall p ensures p in Mounts.MountsOf(selected) <==> p in mine {
      if p in Mounts.MountsOf(selected) {
        var s :| s in selected && p in s.mounts;
        var i :| i in active && s == Sources(i);
        PathsAre(i, p);
      }
      if p in mine {
        var i, m :| i in instances && i.running && m in i.mounts && m.path == p;
        PathsAre(i, p);
        assert i in active && p in Sources(i).mounts;
      }
    }
  }

  lemma BuildableIff(ground: Mounts.Ground, b: Build, h: Host, instances: seq<Instance>)
    ensures Buildable(ground, b, h, instances) <==>
            && Mounts.Accepted(ground, Each(Active(instances), SourcesOf()))
            && ImagesBuilt(b, h)
            && forall i | 0 <= i < |Active(instances)| :: TeamCompiles(Active(instances)[i])
  {
    SourcesAre(instances);
    BuiltIff(b, h);
    hide SourcesOf, Each, Mounts.Separate, Mounts.Teams, Mounts.MountsOf, ImagesBuilt, Mounts.Sound;
    var active := Active(instances);
    forall i ensures i in active <==> i in instances && i.running ensures Compilable(i) <==> TeamCompiles(i) {
      ActiveAre(instances, i);
      CompilableIff(i);
    }
    assert forall i | TeamCompiles(i) :: ProjectDecodes(i) && i.team.Some?;
    hide Active, Compilable, TeamCompiles, ProjectDecodes;
    assert (forall i | 0 <= i < |active| :: TeamCompiles(active[i])) <==> (forall i | i in active :: TeamCompiles(i));
  }

  lemma BuiltIff(b: Build, h: Host)
    ensures ImagesBuilt(b, h) <==>
            (forall p | p in h.providers :: p.name in b.built) && (forall c | c in h.components :: c.name in b.built)
  {
    assert forall i | 0 <= i < |h.providers| :: h.providers[i] in h.providers;
    assert forall i | 0 <= i < |h.components| :: h.components[i] in h.components;
  }

  /** `CycloRuntime.system`: exactly when the running instances' sources are accepted,
      every image is there and every team compiles, their compiled system. */
  method BuildSystem(ground: Mounts.Ground, b: Build, h: Host, instances: seq<Instance>) returns (r: Result<System>)
    ensures r.Ok? <==>
            && Mounts.Accepted(ground, Each(Active(instances), SourcesOf()))
            && ImagesBuilt(b, h)
            && forall i | 0 <= i < |Active(instances)| :: TeamCompiles(Active(instances)[i])
    ensures r.Ok? ==> r == Ok(Compiled(b, h, Active(instances)))
    ensures r.Ok? <==> Buildable(ground, b, h, instances)
    ensures r.Ok? && HostConfig.HostOk(h) ==>
              forall l :: l in r.value.links <==> CalledFor(h, ClientNames(b.digest, h, instances), l)
  {
    BuildableIff(ground, b, h, instances);
    hide Mounts.Accepted, TeamCompiles, Buildable;
    var active := Active(instances);
    assert forall i | 0 <= i < |active| :: Compiles()(active[i]) <==> TeamCompiles(active[i]);
    assert forall i | 0 <= i < |h.components| :: HasImage(b)(h.components[i]) <==> h.components[i].name in b.built;
    hide Compiles, HasImage, Sources, SourcesOf, Active;
    var ok := Mounts.ValidateInstances(ground, Each(active, SourcesOf()));
    if !ok {
      return Err("source roots are not separate");
    }
    var providers, bound, hosts, hostLinks, teams, teamLinks;
    ok, providers, bound := AddProviders(h.providers, b.built, ProviderMaker(b, h));
    if !ok {
      return Err("missing built image");
    }
    ok, hosts, hostLinks := AddClients(h.components, HasImage(b), HostMaker(b), Outward(h));
    if !ok {
      return Err("missing built image");
    }
    ok, teams, teamLinks := AddClients(active, Compiles(), TeamMaker(b), Outward(h));
    if !ok {
      return Err("a team cannot be compiled");
    }
    EachAppend(hosts, teams, Outward(h));
    r := Ok(System(b.realm, [GatewayPart(b, h)] + providers + (hosts + teams), bound + (hostLinks + teamLinks)));
    forall l | HostConfig.HostOk(h)
      ensures l in r.value.links <==> CalledFor(h, ClientNames(b.digest, h, instances), l)
    {
      LinksAre(b, h, instances, l);
    }
  }

  // ---- the links ----

  /** What the link argument needs to know of the components: the gateway, one for
      each provider, and the clients. */
  predicate Pieces(h: Host, g: Component, parts: seq<Component>, clients: seq<Component>) {
    && g.name == HostConfig.GATEWAY && g.inputs == [] && g.outputs == [PROVIDER]
    && |parts| == |h.providers|
    && (forall i | 0 <= i < |parts| ::
          && parts[i].name == h.providers[i].name
          && parts[i].inputs == h.providers[i].contract.inputs
          && parts[i].outputs == h.providers[i].contract.outputs)
    && (forall i | 0 <= i < |clients| :: clients[i].inputs == [PROVIDER])
  }

  ghost predicate Shape(h: Host, g: Component, parts: seq<Component>, clients: seq<Component>) {
    HostConfig.HostOk(h) && Pieces(h, g, parts, clients)
  }

  lemma OfferedIsGiven(h: Host, g: Component, parts: seq<Component>, clients: seq<Component>, slot: Slot,
                       service: string)
    requires Pieces(h, g, parts, clients) && HostConfig.Offers(h, slot, service)
    ensures Gives([g] + parts + clients, slot, service)
  {
    var cs := [g] + parts + clients;
    if slot == (HostConfig.GATEWAY, "provider") && service == PROVIDER_SERVICE {
      assert cs[0] == g && g in cs;
    } else {
      var p :| p in h.providers && p.name == slot.0 && Endpoint(service, slot.1) in p.contract.outputs;
      var i :| 0 <= i < |parts| && h.providers[i] == p;
      assert cs[i + 1] == parts[i] && parts[i] in cs;
    }
  }

  lemma OuterIsOffered(h: Host)
    requires HostConfig.HostOk(h)
    ensures HostConfig.Offers(h, (OuterComponent(h), OuterOutput(h)), PROVIDER_SERVICE)
  {
    if h.providers != [] {
      var p := h.providers[|h.providers| - 1];
      assert HostConfig.ProviderOk(p) && p in h.providers;
      ProvidingAre(p.contract.outputs);
      var e := Providing(p.contract.outputs)[0];
      assert e in Providing(p.contract.outputs);
      assert e == Endpoint(PROVIDER_SERVICE, OuterOutput(h));
    }
  }

  lemma OnceAppend(a: seq<Link>, c: seq<Link>)
    requires Once(a) && Once(c) && forall l, m | l in a && m in c :: l.consumer != m.consumer
    ensures Once(a + c)
  {
    forall i, j | 0 <= i < j < |a + c| ensures To((a + c)[i]) != To((a + c)[j]) {
      if i < |a| <= j {
        assert a[i] in a && c[j - |a|] in c;
      }
    }
  }

  lemma {:induction false} ProviderLinksOnce(providers: seq<Provider>, n: nat)
    requires n <= |providers|
    requires forall i | 0 <= i < n :: HostConfig.DistinctBindings(providers[i].bindings)
    requires forall i, j | 0 <= i < j < n :: providers[i].name != providers[j].name
    ensures Once(ProviderLinks(providers, n))
  {
    if n > 0 {
      var p := providers[n - 1];
      ProviderLinksOnce(providers, n - 1);
      forall l, m | l in ProviderLinks(providers, n - 1) && m in BindingLinks(p.name, p.bindings)
        ensures l.consumer != m.consumer
      {
        var i, k := ProviderLinkFrom(providers, n - 1, l);
      }
      OnceAppend(ProviderLinks(providers, n - 1), BindingLinks(p.name, p.bindings));
    }
  }

  lemma BindingJoins(h: Host, cs: seq<Component>, p: Provider, c: Component, x: HostConfig.Binding)
    requires c in cs && c.name == p.name && c.inputs == p.contract.inputs && HostConfig.BindingOk(h, p, x)
    requires forall slot, service | HostConfig.Offers(h, slot, service) :: Gives(cs, slot, service)
    ensures Joins(cs, Link(p.name, x.input, x.component, x.output))
  {
    var service :| Endpoint(service, x.input) in p.contract.inputs
                   && HostConfig.Offers(h, (x.component, x.output), service);
    var l := Link(p.name, x.input, x.component, x.output);
    assert Takes(cs, To(l), service) && Gives(cs, From(l), service);
  }

  lemma HostBinding(h: Host, i: nat, k: nat)
    requires HostConfig.HostOk(h) && i < |h.providers| && k < |h.providers[i].bindings|
    ensures HostConfig.BindingOk(h, h.providers[i], h.providers[i].bindings[k])
  {
    assert HostConfig.BindingsOk(h, h.providers[i]) && h.providers[i].bindings[k] in h.providers[i].bindings;
  }

  lemma ProviderLinkJoins(h: Host, g: Component, parts: seq<Component>, clients: seq<Component>, l: Link)
    requires Shape(h, g, parts, clients) && l in ProviderLinks(h.providers, |h.providers|)
    ensures Joins([g] + parts + clients, l)
  {
    hide HostConfig.HostOk, HostConfig.BindingOk, HostConfig.Offers, Gives, Joins, ProviderLinks;
    var cs := [g] + parts + clients;
    var i, k := ProviderLinkFrom(h.providers, |h.providers|, l);
    var x := h.providers[i].bindings[k];
    forall slot, service | HostConfig.Offers(h, slot, service) ensures Gives(cs, slot, service) {
      OfferedIsGiven(h, g, parts, clients, slot, service);
    }
    HostBinding(h, i, k);
    assert cs[i + 1] == parts[i] && parts[i] in cs;
    BindingJoins(h, cs, h.providers[i], parts[i], x);
  }

  lemma ClientLinkJoins(h: Host, g: Component, parts: seq<Component>, clients: seq<Component>, i: nat)
    requires Shape(h, g, parts, clients) && i < |clients|
    ensures Joins([g] + parts + clients, Outward(h)(clients[i]))
  {
    var cs := [g] + parts + clients;
    var l := Outward(h)(clients[i]);
    OuterIsOffered(h);
    OfferedIsGiven(h, g, parts, clients, (OuterComponent(h), OuterOutput(h)), PROVIDER_SERVICE);
    assert cs[1 + |parts| + i] == clients[i] && clients[i] in cs;
    assert PROVIDER in clients[i].inputs;
    assert Takes(cs, To(l), PROVIDER_SERVICE);
  }

  lemma OutwardOnce(h: Host, clients: seq<Component>)
    requires DistinctComponents(clients)
    ensures Once(Each(clients, Outward(h)))
  {
    var outward := Each(clients, Outward(h));
    forall i, j | 0 <= i < j < |outward| ensures To(outward[i]) != To(outward[j]) {
      assert outward[i].consumer == clients[i].name && outward[j].consumer == clients[j].name;
    }
  }

  /** Providers and clients have no name in common. */
  lemma ConsumersApart(h: Host, parts: seq<Component>, clients: seq<Component>, l: Link, m: Link)
    requires |parts| == |h.providers| && forall i | 0 <= i < |parts| :: parts[i].name == h.providers[i].name
    requires forall i, j | 0 <= i < |parts| && 0 <= j < |clients| :: parts[i].name != clients[j].name
    requires l in ProviderLinks(h.providers, |h.providers|) && m in Each(clients, Outward(h))
    ensures l.consumer != m.consumer
  {
    var i, k := ProviderLinkFrom(h.providers, |h.providers|, l);
    var j :| 0 <= j < |clients| && Each(clients, Outward(h))[j] == m;
    assert parts[i].name != clients[j].name;
  }

  lemma DistinctPieces(g: Component, parts: seq<Component>, clients: seq<Component>)
    requires DistinctComponents([g] + parts + clients)
    ensures DistinctComponents(clients)
    ensures forall i, j | 0 <= i < |parts| && 0 <= j < |clients| :: parts[i].name != clients[j].name
  {
    var cs := [g] + parts + clients;
    assert forall i | 0 <= i < |parts| :: cs[1 + i] == parts[i];
    assert forall j | 0 <= j < |clients| :: cs[1 + |parts| + j] == clients[j];
  }

  lemma LinksOnce(h: Host, g: Component, parts: seq<Component>, clients: seq<Component>)
    requires Shape(h, g, parts, clients) && DistinctComponents([g] + parts + clients)
    ensures Once(ProviderLinks(h.providers, |h.providers|) + Each(clients, Outward(h)))
  {
    DistinctPieces(g, parts, clients);
    assert forall i | 0 <= i < |h.providers| :: HostConfig.BindingsOk(h, h.providers[i]);
    ProviderLinksOnce(h.providers, |h.providers|);
    OutwardOnce(h, clients);
    forall l, m | l in ProviderLinks(h.providers, |h.providers|) && m in Each(clients, Outward(h))
      ensures l.consumer != m.consumer
    {
      ConsumersApart(h, parts, clients, l, m);
    }
    OnceAppend(ProviderLinks(h.providers, |h.providers|), Each(clients, Outward(h)));
  }

  /** An input of a loaded provider has a link. */
  lemma InputLinked(h: Host, i: nat, e: Endpoint) returns (l: Link)
    requires i < |h.providers| && HostConfig.BindingsOk(h, h.providers[i]) && e in h.providers[i].contract.inputs
    ensures l in ProviderLinks(h.providers, |h.providers|) && To(l) == (h.providers[i].name, e.name)
  {
    assert HostConfig.InputBound(h.providers[i], e);
    var k: nat :| k < |h.providers[i].bindings| && h.providers[i].bindings[k].input == e.name;
    ProviderLinkIn(h.providers, |h.providers|, i, k);
    l := BindingLinks(h.providers[i].name, h.providers[i].bindings)[k];
  }

  lemma SlotLinked(h: Host, g: Component, parts: seq<Component>, clients: seq<Component>, n: nat, e: Endpoint)
    returns (l: Link)
    requires Shape(h, g, parts, clients) && n < 1 + |parts| + |clients| && e in ([g] + parts + clients)[n].inputs
    ensures l in ProviderLinks(h.providers, |h.providers|) + Each(clients, Outward(h))
    ensures To(l) == (([g] + parts + clients)[n].name, e.name)
  {
    if n > |parts| {
      var j := n - 1 - |parts|;
      assert ([g] + parts + clients)[n] == clients[j];
      l := Each(clients, Outward(h))[j];
    } else {
      assert n > 0 && ([g] + parts + clients)[n] == parts[n - 1];
      l := InputLinked(h, n - 1, e);
    }
  }

  lemma LinksCover(h: Host, g: Component, parts: seq<Component>, clients: seq<Component>)
    requires Shape(h, g, parts, clients)
    ensures Covers([g] + parts + clients, ProviderLinks(h.providers, |h.providers|) + Each(clients, Outward(h)))
  {
    var cs := [g] + parts + clients;
    var links := ProviderLinks(h.providers, |h.providers|) + Each(clients, Outward(h));
    forall slot, service | Takes(cs, slot, service) ensures exists l :: l in links && To(l) == slot {
      var c :| c in cs && c.name == slot.0 && Endpoint(service, slot.1) in c.inputs;
      var n :| 0 <= n < |cs| && cs[n] == c;
      var l := SlotLinked(h, g, parts, clients, n, Endpoint(service, slot.1));
    }
  }

  lemma ShapeWires(h: Host, g: Component, parts: seq<Component>, clients: seq<Component>)
    requires Shape(h, g, parts, clients) && DistinctComponents([g] + parts + clients)
    ensures exists wiring ::
              Wires([g] + parts + clients, ProviderLinks(h.providers, |h.providers|) + Each(clients, Outward(h)),
                    wiring)
  {
    var cs := [g] + parts + clients;
    var links := ProviderLinks(h.providers, |h.providers|) + Each(clients, Outward(h));
    forall l | l in links ensures Joins(cs, l) {
      if l in ProviderLinks(h.providers, |h.providers|) {
        ProviderLinkJoins(h, g, parts, clients, l);
      } else {
        var i :| 0 <= i < |clients| && Each(clients, Outward(h))[i] == l;
        ClientLinkJoins(h, g, parts, clients, i);
      }
    }
    LinksOnce(h, g, parts, clients);
    LinksCover(h, g, parts, clients);
    WiringIff(cs, links);
  }

  lemma MakersTakeProvider(b: Build, c: Option<HostComponent>, i: Option<Instance>)
    ensures c.Some? ==> HostMaker(b)(c.value).inputs == [PROVIDER]
    ensures i.Some? ==> TeamMaker(b)(i.value).inputs == [PROVIDER]
  {
    hide FixedBinds, MountBinds, TeamArguments, TeamName, Slashed;
    if c.Some? {
      assert HostMaker(b)(c.value) == HostPart(c.value, b.image(c.value.name));
    }
    if i.Some? {
      assert TeamMaker(b)(i.value) == TeamPart(b, i.value);
    }
  }

  lemma ClientInputs(b: Build, h: Host, active: seq<Instance>)
    ensures forall i | 0 <= i < |Clients(b, h, active)| :: Clients(b, h, active)[i].inputs == [PROVIDER]
  {
    hide HostMaker, TeamMaker;
    var clients := Clients(b, h, active);
    forall i | 0 <= i < |clients| ensures clients[i].inputs == [PROVIDER] {
      if i < |h.components| {
        MakersTakeProvider(b, Some(h.components[i]), None);
      } else {
        MakersTakeProvider(b, None, Some(active[i - |h.components|]));
      }
    }
  }

  lemma ProviderParts(b: Build, h: Host)
    ensures var parts := Each(h.providers, ProviderMaker(b, h));
            && |parts| == |h.providers|
            && forall i | 0 <= i < |parts| ::
                 && parts[i].name == h.providers[i].name
                 && parts[i].inputs == h.providers[i].contract.inputs
                 && parts[i].outputs == h.providers[i].contract.outputs
  {
    var make := ProviderMaker(b, h);
    forall i | 0 <= i < |h.providers|
      ensures make(h.providers[i]).name == h.providers[i].name
      ensures make(h.providers[i]).inputs == h.providers[i].contract.inputs
      ensures make(h.providers[i]).outputs == h.providers[i].contract.outputs
    {
      var p := h.providers[i];
      assert make(p) == ProviderPart(p, b.image(p.name), p.name == OuterComponent(h));
    }
  }

  lemma CompiledShape(b: Build, h: Host, active: seq<Instance>)
    requires HostConfig.HostOk(h)
    ensures Shape(h, GatewayPart(b, h), Each(h.providers, ProviderMaker(b, h)), Clients(b, h, active))
  {
    ClientInputs(b, h, active);
    ProviderParts(b, h);
  }

  /** Every host the loader can return, with any running instances, compiles to links
      that wire the system, if no two components share a name. */
  lemma CompiledWires(b: Build, h: Host, active: seq<Instance>)
    requires HostConfig.HostOk(h) && DistinctComponents(Compiled(b, h, active).components)
    ensures exists wiring :: Wires(Compiled(b, h, active).components, Compiled(b, h, active).links, wiring)
  {
    CompiledShape(b, h, active);
    ShapeWires(h, GatewayPart(b, h), Each(h.providers, ProviderMaker(b, h)), Clients(b, h, active));
  }
}
