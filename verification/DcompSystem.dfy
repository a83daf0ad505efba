/** The typed DComp system and its checker, `System.validate`. */
module DcompSystem {
  import opened Outcomes
  import opened Text
  import opened ComponentDescriptor
  import Mounts

  datatype Bind = Bind(source: string, target: string, readOnly: bool)

  datatype Volume = Volume(name: string, target: string, readOnly: bool)

  datatype Port = Port(hostIp: string, hostPort: int, containerPort: int, protocol: string)

  datatype Component = Component(
    name: string,
    image: string,
    inputs: seq<Endpoint>,
    outputs: seq<Endpoint>,
    binds: seq<Bind>,
    volumes: seq<Volume>,
    arguments: seq<string>,
    ports: seq<Port>,
    egress: bool)

  datatype Link = Link(consumer: string, input: string, provider: string, output: string)

  datatype System = System(name: string, components: seq<Component>, links: seq<Link>)

  // ---- container paths ----

  /** The components of a POSIX path: empty ones and `.` are dropped. */
  function Steps(s: string): seq<string>
    decreases |s|
  {
    var n := IndexOf(s, '/');
    var first := if n == 0 || s[..n] == "." then [] else [s[..n]];
    if n == |s| then first else first + Steps(s[n + 1..])
  }

  /** `PurePosixPath.parts` of an absolute path; exactly two leading slashes are a
      root of their own. */
  function Parts(s: string): seq<string> {
    [if |s| >= 2 && s[1] == '/' && !(|s| >= 3 && s[2] == '/') then "//" else "/"] + Steps(s)
  }

  predicate IsContainerPath(s: string) {
    IsToken(s) && s[0] == '/' && ".." !in Steps(s) && s != "/"
  }

  // ---- components ----

  function Targets(c: Component): seq<seq<string>> {
    seq(|c.binds|, i requires 0 <= i < |c.binds| => Parts(c.binds[i].target))
    + seq(|c.volumes|, i requires 0 <= i < |c.volumes| => Parts(c.volumes[i].target))
  }

  predicate NoneNested(targets: seq<seq<string>>) {
    forall i, j | 0 <= i < j < |targets| :: !Mounts.Comparable(targets[i], targets[j])
  }

  predicate PortOk(p: Port) {
    && (p.protocol == "tcp" || p.protocol == "udp")
    && IsToken(p.hostIp) && 0 <= p.hostPort <= 65535 && 1 <= p.containerPort <= 65535
  }

  predicate BindOk(canonical: string -> bool, b: Bind) { canonical(b.source) && IsContainerPath(b.target) }

  predicate VolumeOk(v: Volume) { IsName(v.name) && IsContainerPath(v.target) }

  predicate InterfaceOk(c: Component) {
    && IsName(c.name) && IsToken(c.image)
    && Endpoints(c.inputs) && DistinctNames(c.inputs)
    && Endpoints(c.outputs) && DistinctNames(c.outputs)
  }

  predicate MountsOk(canonical: string -> bool, c: Component) {
    && (forall i | 0 <= i < |c.binds| :: BindOk(canonical, c.binds[i]))
    && (forall i | 0 <= i < |c.volumes| :: VolumeOk(c.volumes[i]))
    && NoneNested(Targets(c))
  }

  predicate ComponentOk(canonical: string -> bool, c: Component) {
    && InterfaceOk(c)
    && MountsOk(canonical, c)
    && (forall i | 0 <= i < |c.arguments| :: IsToken(c.arguments[i]))
    && (forall i | 0 <= i < |c.ports| :: PortOk(c.ports[i]))
    && (c.ports != [] ==> c.egress)
  }

  /** No path of the container lies in two mounts. */
  lemma NoneNestedMeans(c: Component)
    ensures NoneNested(Targets(c)) <==>
            forall i, j, p | 0 <= i < j < |Targets(c)| ::
              !(Mounts.Inside(p, Targets(c)[i]) && Mounts.Inside(p, Targets(c)[j]))
  {
    var t := Targets(c);
    forall i, j | 0 <= i < j < |t|
      ensures Mounts.Comparable(t[i], t[j]) <==> exists p :: Mounts.Inside(p, t[i]) && Mounts.Inside(p, t[j])
    {
      Mounts.ComparableIffShared(t[i], t[j]);
    }
  }

  method CheckTargets(targets: seq<seq<string>>) returns (ok: bool)
    ensures ok <==> NoneNested(targets)
  {
    for i := 0 to |targets|
      invariant forall a, b | 0 <= a < i && a < b < |targets| :: !Mounts.Comparable(targets[a], targets[b])
    {
      for j := i + 1 to |targets|
        invariant forall b | i < b < j :: !Mounts.Comparable(targets[i], targets[b])
      {
        if Mounts.Comparable(targets[i], targets[j]) {
          return false;
        }
      }
    }
    ok := true;
  }

  /** `Component.validate`. */
  method ValidateComponent(canonical: string -> bool, c: Component) returns (ok: bool)
    ensures ok <==> ComponentOk(canonical, c)
  {
    if !InterfaceOk(c) {
      return false;
    }
    for i := 0 to |c.binds|
      invariant forall k | 0 <= k < i :: BindOk(canonical, c.binds[k])
    {
      if !BindOk(canonical, c.binds[i]) {
        return false;
      }
    }
    for i := 0 to |c.volumes|
      invariant forall k | 0 <= k < i :: VolumeOk(c.volumes[k])
    {
      if !VolumeOk(c.volumes[i]) {
        return false;
      }
    }
    var nested := CheckTargets(Targets(c));
    if !nested {
      return false;
    }
    for i := 0 to |c.arguments|
      invariant forall k | 0 <= k < i :: IsToken(c.arguments[k])
    {
      if !IsToken(c.arguments[i]) {
        return false;
      }
    }
    for i := 0 to |c.ports|
      invariant forall k | 0 <= k < i :: PortOk(c.ports[k])
    {
      if !PortOk(c.ports[i]) {
        return false;
      }
    }
    ok := c.ports == [] || c.egress;
  }

  // ---- links ----

  type Slot = (string, string)

  predicate DistinctComponents(cs: seq<Component>) {
    forall i, j | 0 <= i < j < |cs| :: cs[i].name != cs[j].name
  }

  /** Some component named `slot.0` has the input `slot.1` of this service. */
  predicate Takes(cs: seq<Component>, slot: Slot, service: string) {
    exists c | c in cs :: c.name == slot.0 && Endpoint(service, slot.1) in c.inputs
  }

  predicate Gives(cs: seq<Component>, slot: Slot, service: string) {
    exists c | c in cs :: c.name == slot.0 && Endpoint(service, slot.1) in c.outputs
  }

  function To(l: Link): Slot { (l.consumer, l.input) }

  function From(l: Link): Slot { (l.provider, l.output) }

  /** What the links should be: a map from every declared input, and nothing else, to
      a declared output of the same service, one link for each. */
  ghost predicate Wires(cs: seq<Component>, links: seq<Link>, wiring: map<Slot, Slot>) {
    && (forall slot, service | Takes(cs, slot, service) :: slot in wiring)
    && (forall slot | slot in wiring :: exists service :: Takes(cs, slot, service) && Gives(cs, wiring[slot], service))
    && (forall l | l in links :: To(l) in wiring && wiring[To(l)] == From(l))
    && (forall slot | slot in wiring :: exists l :: l in links && To(l) == slot)
    && (forall i, j | 0 <= i < j < |links| :: To(links[i]) != To(links[j]))
  }

  ghost predicate Valid(canonical: string -> bool, s: System) {
    && IsName(s.name)
    && s.components != []
    && (forall i | 0 <= i < |s.components| :: ComponentOk(canonical, s.components[i]))
    && DistinctComponents(s.components)
    && exists wiring :: Wires(s.components, s.links, wiring)
  }

  function FindEndpoint(es: seq<Endpoint>, name: string): Option<Endpoint> {
    if es == [] then None else if es[0].name == name then Some(es[0]) else FindEndpoint(es[1..], name)
  }

  lemma {:induction false} FindEndpointIs(es: seq<Endpoint>, name: string)
    requires DistinctNames(es)
    ensures FindEndpoint(es, name).Some? ==>
              FindEndpoint(es, name).value in es && FindEndpoint(es, name).value.name == name
    ensures forall e | e in es && e.name == name :: FindEndpoint(es, name) == Some(e)
  {
    if es != [] && es[0].name != name {
      FindEndpointIs(es[1..], name);
    } else if es != [] {
      forall e | e in es && e.name == name ensures e == es[0] {
        var i :| 0 <= i < |es| && es[i] == e;
        if i > 0 {
          assert false;
        }
      }
    }
  }

  /** The link joins a declared input to a declared output of the same service. */
  ghost predicate Joins(cs: seq<Component>, l: Link) {
    exists service :: Takes(cs, To(l), service) && Gives(cs, From(l), service)
  }

  /** The dictionary of components by name. */
  ghost predicate Indexes(byName: map<string, Component>, cs: seq<Component>) {
    && (forall c | c in cs :: c.name in byName && byName[c.name] == c)
    && (forall n | n in byName :: byName[n] in cs && byName[n].name == n)
  }

  /** Endpoint names are distinct within each component. */
  predicate Unambiguous(cs: seq<Component>) {
    forall c | c in cs :: DistinctNames(c.inputs) && DistinctNames(c.outputs)
  }

  /** One round of the link loop, before the check for repetition. */
  method CheckLink(byName: map<string, Component>, ghost cs: seq<Component>, l: Link) returns (ok: bool)
    requires Indexes(byName, cs) && Unambiguous(cs)
    ensures ok <==> Joins(cs, l)
  {
    if l.consumer !in byName || l.provider !in byName {
      return false;
    }
    var consumer, provider := byName[l.consumer], byName[l.provider];
    FindEndpointIs(consumer.inputs, l.input);
    FindEndpointIs(provider.outputs, l.output);
    var input := FindEndpoint(consumer.inputs, l.input);
    var output := FindEndpoint(provider.outputs, l.output);
    assert forall service | Takes(cs, To(l), service) :: input == Some(Endpoint(service, l.input));
    assert forall service | Gives(cs, From(l), service) :: output == Some(Endpoint(service, l.output));
    if input.None? || output.None? {
      return false;
    }
    if input.value.service == output.value.service {
      assert Takes(cs, To(l), input.value.service) && Gives(cs, From(l), input.value.service);
    }
    ok := input.value.service == output.value.service;
  }

  /** Names of a link that joins endpoints of checked components are checked. */
  lemma JoinedNames(cs: seq<Component>, l: Link)
    requires Joins(cs, l) && forall c | c in cs :: InterfaceOk(c)
    ensures IsName(l.consumer) && IsName(l.input) && IsName(l.provider) && IsName(l.output)
  {
    var service :| Takes(cs, To(l), service) && Gives(cs, From(l), service);
    var c :| c in cs && c.name == l.consumer && Endpoint(service, l.input) in c.inputs;
    var p :| p in cs && p.name == l.provider && Endpoint(service, l.output) in p.outputs;
    var i :| 0 <= i < |c.inputs| && c.inputs[i] == Endpoint(service, l.input);
    var j :| 0 <= j < |p.outputs| && p.outputs[j] == Endpoint(service, l.output);
    assert InterfaceOk(c) && InterfaceOk(p) && IsEndpoint(c.inputs[i]) && IsEndpoint(p.outputs[j]);
  }

  predicate Once(links: seq<Link>) {
    forall i, j | 0 <= i < j < |links| :: To(links[i]) != To(links[j])
  }

  ghost predicate Covers(cs: seq<Component>, links: seq<Link>) {
    forall slot, service | Takes(cs, slot, service) :: exists l :: l in links && To(l) == slot
  }

  /** The four checks on the links amount to a wiring. */
  lemma WiringIff(cs: seq<Component>, links: seq<Link>)
    ensures (exists wiring :: Wires(cs, links, wiring)) <==>
            (forall l | l in links :: Joins(cs, l)) && Once(links) && Covers(cs, links)
  {
    if (forall l | l in links :: Joins(cs, l)) && Once(links) && Covers(cs, links) {
      var wiring := WiringOf(links);
      WiringOfIs(links);
      forall slot | slot in wiring
        ensures exists service :: Takes(cs, slot, service) && Gives(cs, wiring[slot], service)
      {
        var l :| l in links && To(l) == slot;
        assert Joins(cs, l);
      }
      assert Wires(cs, links, wiring);
    }
    if wiring :| Wires(cs, links, wiring) {
      forall l | l in links ensures Joins(cs, l) {
        var service :| Takes(cs, To(l), service) && Gives(cs, wiring[To(l)], service);
      }
    }
  }

  function WiringOf(links: seq<Link>): map<Slot, Slot> {
    if links == [] then map[] else WiringOf(links[..|links| - 1])[To(links[|links| - 1]) := From(links[|links| - 1])]
  }

  lemma {:induction false} WiringOfIs(links: seq<Link>)
    requires Once(links)
    ensures forall l | l in links :: To(l) in WiringOf(links) && WiringOf(links)[To(l)] == From(l)
    ensures forall slot | slot in WiringOf(links) :: exists l :: l in links && To(l) == slot
  {
    if links != [] {
      var n := |links| - 1;
      var front := links[..n];
      WiringOfIs(front);
      forall l | l in links ensures To(l) in WiringOf(links) && WiringOf(links)[To(l)] == From(l) {
        var i :| 0 <= i < |links| && links[i] == l;
        if i < n {
          assert front[i] == l;
        }
      }
      forall slot | slot in WiringOf(links) ensures exists l :: l in links && To(l) == slot {
        if slot in WiringOf(front) {
          var l :| l in front && To(l) == slot;
          assert l in links;
        } else {
          assert links[n] in links;
        }
      }
    }
  }

  function InputSlots(cs: seq<Component>): set<Slot> {
    set c, e | c in cs && e in c.inputs :: (c.name, e.name)
  }

  lemma IndexMore(byName: map<string, Component>, cs: seq<Component>, c: Component)
    requires Indexes(byName, cs) && c.name !in byName
    ensures Indexes(byName[c.name := c], cs + [c])
    ensures forall d | d in cs :: d.name != c.name
  {
  }

  method IndexComponents(canonical: string -> bool, cs: seq<Component>)
    returns (ok: bool, byName: map<string, Component>)
    ensures ok <==> (forall i | 0 <= i < |cs| :: ComponentOk(canonical, cs[i])) && DistinctComponents(cs)
    ensures ok ==> Indexes(byName, cs)
  {
    hide ComponentOk;
    byName := map[];
    for n := 0 to |cs|
      invariant forall i | 0 <= i < n :: ComponentOk(canonical, cs[i])
      invariant DistinctComponents(cs[..n])
      invariant Indexes(byName, cs[..n])
    {
      ok := ValidateComponent(canonical, cs[n]);
      if !ok {
        return;
      }
      assert cs[..n + 1] == cs[..n] + [cs[n]];
      if cs[n].name in byName {
        var c := byName[cs[n].name];
        var i :| 0 <= i < n && cs[i] == c;
        assert cs[i].name == cs[n].name;
        return false, byName;
      }
      IndexMore(byName, cs[..n], cs[n]);
      byName := byName[cs[n].name := cs[n]];
    }
    assert cs[..|cs|] == cs;
    ok := true;
  }

  /** The inputs the first `n` links lead to. */
  ghost predicate Linked(links: seq<Link>, n: nat, linked: set<Slot>)
    requires n <= |links|
  {
    && (forall k | 0 <= k < n :: To(links[k]) in linked)
    && (forall slot | slot in linked :: exists k :: 0 <= k < n && To(links[k]) == slot)
  }

  lemma OnceMore(links: seq<Link>, n: nat, linked: set<Slot>)
    requires n < |links| && Once(links[..n]) && Linked(links, n, linked)
    ensures Once(links[..n + 1]) <==> To(links[n]) !in linked
    ensures !Once(links[..n + 1]) ==> !Once(links)
  {
    var more := links[..n + 1];
    assert forall i | 0 <= i <= n :: more[i] == links[i];
    assert forall i | 0 <= i < n :: links[..n][i] == links[i];
    if To(links[n]) in linked {
      var k :| 0 <= k < n && To(links[k]) == To(links[n]);
      assert To(more[k]) == To(more[n]);
    }
  }

  method CollectLinked(byName: map<string, Component>, ghost cs: seq<Component>, links: seq<Link>)
    returns (ok: bool, linked: set<Slot>)
    requires Indexes(byName, cs) && Unambiguous(cs)
    ensures ok <==> (forall l | l in links :: Joins(cs, l)) && Once(links)
    ensures ok ==> Linked(links, |links|, linked)
  {
    linked := {};
    for n := 0 to |links|
      invariant forall k | 0 <= k < n :: Joins(cs, links[k])
      invariant Linked(links, n, linked) && Once(links[..n])
    {
      ok := CheckLink(byName, cs, links[n]);
      if !ok {
        assert links[n] in links;
        return;
      }
      OnceMore(links, n, linked);
      if To(links[n]) in linked {
        return false, linked;
      }
      linked := linked + {To(links[n])};
    }
    assert links[..|links|] == links;
    ok := true;
  }

  lemma CoversIff(cs: seq<Component>, links: seq<Link>, linked: set<Slot>)
    requires Linked(links, |links|, linked)
    ensures InputSlots(cs) - linked == {} <==> Covers(cs, links)
  {
    if InputSlots(cs) - linked == {} {
      forall slot, service | Takes(cs, slot, service) ensures exists l :: l in links && To(l) == slot {
        var c :| c in cs && c.name == slot.0 && Endpoint(service, slot.1) in c.inputs;
        assert slot == (c.name, Endpoint(service, slot.1).name) && slot in InputSlots(cs);
        assert slot !in InputSlots(cs) - linked;
        var k :| 0 <= k < |links| && To(links[k]) == slot;
        assert links[k] in links;
      }
    }
    if Covers(cs, links) {
      forall slot | slot in InputSlots(cs) ensures slot in linked {
        var c, e :| c in cs && e in c.inputs && slot == (c.name, e.name);
        assert Takes(cs, slot, e.service);
        var l :| l in links && To(l) == slot;
      }
    }
  }

  method CheckLinks(byName: map<string, Component>, cs: seq<Component>, links: seq<Link>) returns (ok: bool)
    requires Indexes(byName, cs) && Unambiguous(cs)
    ensures ok <==> exists wiring :: Wires(cs, links, wiring)
  {
    WiringIff(cs, links);
    var linked;
    ok, linked := CollectLinked(byName, cs, links);
    if !ok {
      return;
    }
    CoversIff(cs, links, linked);
    ok := InputSlots(cs) - linked == {};
  }

  /** `System.validate` accepts exactly the valid systems: among the other checks,
      exactly those whose links wire the declared inputs. */
  method Validate(canonical: string -> bool, s: System) returns (ok: bool)
    ensures ok <==> Valid(canonical, s)
  {
    if !IsName(s.name) || s.components == [] {
      return false;
    }
    var byName;
    ok, byName := IndexComponents(canonical, s.components);
    if !ok {
      return;
    }
    assert forall c | c in s.components :: InterfaceOk(c);
    ok := CheckLinks(byName, s.components, s.links);
  }
}
