/** Compiled systems against `System.validate`: exactly which builds it accepts. */
module CompiledChecks {
  import opened Outcomes
  import opened Text
  import opened ComponentDescriptor
  import opened DcompSystem
  import opened Compiler
  import HostConfig
  import Mounts
  import P = ProjectText

  // ---- literals ----

  lemma ProviderChars(i: nat)
    requires i < |PROVIDER_SERVICE|
    ensures IdChar(PROVIDER_SERVICE[i]) || PROVIDER_SERVICE[i] == '.'
    ensures PROVIDER_SERVICE[i] == '.' ==> i == 5 || i == 14 || i == 17
  {
  }

  lemma ProviderService()
    ensures IsService(PROVIDER_SERVICE)
  {
    var s := PROVIDER_SERVICE;
    assert |s| == 26 && s[0] == 'c' && s[5] == '.' && s[6] == 'p' && s[15] == 'v' && s[18] == 'P';
    forall i | 0 <= i < |s| ensures IdChar(s[i]) || s[i] == '.' ensures s[i] == '.' ==> i == 5 || i == 14 || i == 17 {
      ProviderChars(i);
    }
  }

  lemma ProviderEndpoint()
    ensures IsEndpoint(PROVIDER)
  {
    ProviderService();
  }

  predicate PathStep(s: string) { IsStep(s) && IsToken(s) }

  lemma StateSteps()
    ensures PathStep("agentws") && PathStep("tasks") && PathStep("jobs") && PathStep("agents")
  {
  }

  lemma FileSteps()
    ensures PathStep("project.cyclo") && PathStep("opt") && PathStep("cyclo")
  {
  }

  lemma HomeSteps()
    ensures PathStep("pi-settings.json") && PathStep("home") && PathStep(".pi") && PathStep("team")
  {
  }

  lemma MountRoots()
    ensures PathStep("workspace") && PathStep("readonly") && PathStep("AGENTS.md")
  {
  }

  lemma GatewaySteps()
    ensures PathStep("var") && PathStep("lib") && PathStep("cyclo-gateway")
  {
  }

  lemma RuntimeSteps()
    ensures PathStep("usr") && PathStep("local") && PathStep("bin") && PathStep("cyclo-team-runtime")
  {
  }

  lemma Options()
    ensures IsToken("python3") && IsToken("--roster") && IsToken("--generation")
  {
  }

  lemma MoreOptions()
    ensures IsToken("--team-protocol") && IsToken("--verbose")
  {
  }

  lemma LongOption()
    ensures IsToken("--project-generation")
  {
  }

  lemma HostNames()
    ensures IsToken("127.0.0.1") && IsName(HostConfig.GATEWAY)
  {
  }

  lemma VolumeName()
    ensures IsName("credentials")
  {
  }

  // ---- where a team's mounts go ----

  function FixedSteps(): seq<seq<string>> {
    [["agentws", "tasks"], ["agentws", "jobs"], ["agentws", "agents"], ["agentws", "project.cyclo"],
     ["opt", "cyclo", "pi-settings.json"], ["home", "cyclo", ".pi"], ["team"]]
  }

  function MountSteps(m: P.Mount): seq<string> { [if m.mode.RW? then "workspace" else "readonly", m.name] }

  predicate DistinctTargets(mounts: seq<P.Mount>) {
    forall i, j | 0 <= i < j < |mounts| :: mounts[i].mode != mounts[j].mode || mounts[i].name != mounts[j].name
  }

  lemma FixedStepsAre()
    ensures |FixedSteps()| == 7 && forall i | 0 <= i < 7 :: AreSteps(FixedSteps()[i]) && FixedSteps()[i] != []
  {
    StateSteps();
    FileSteps();
    HomeSteps();
  }

  lemma DiffersAt(a: seq<string>, b: seq<string>, k: nat)
    requires k < |a| && k < |b| && a[k] != b[k]
    ensures !Mounts.Comparable(a, b)
  {
  }

  lemma FixedApart(i: nat, j: nat)
    requires i < j < 7
    ensures !Mounts.Comparable(["/"] + FixedSteps()[i], ["/"] + FixedSteps()[j])
  {
    var a, b := ["/"] + FixedSteps()[i], ["/"] + FixedSteps()[j];
    if j < 4 {
      assert a[2] == FixedSteps()[i][1] && b[2] == FixedSteps()[j][1];
      DiffersAt(a, b, 2);
    } else {
      assert a[1] == FixedSteps()[i][0] && b[1] == FixedSteps()[j][0];
      DiffersAt(a, b, 1);
    }
  }

  lemma MountStepsAre(m: P.Mount)
    requires P.IsName(m.name)
    ensures AreSteps(MountSteps(m)) && forall i | 0 <= i < 7 :: FixedSteps()[i][0] != MountSteps(m)[0]
  {
    MountRoots();
    forall i | 0 <= i < |m.name|
      ensures !IsSpace(m.name[i]) && !IsControl(m.name[i]) && m.name[i] != '#' && m.name[i] != '/'
    {
      assert P.NameChar(m.name[i]);
    }
    assert m.name != "." && m.name != "..";
  }

  lemma MountsApart(m: P.Mount, n: P.Mount)
    ensures Mounts.Comparable(["/"] + MountSteps(m), ["/"] + MountSteps(n)) <==> m.mode == n.mode && m.name == n.name
  {
    var a, b := ["/"] + MountSteps(m), ["/"] + MountSteps(n);
    assert a[1] == MountSteps(m)[0] && b[1] == MountSteps(n)[0] && a[2] == m.name && b[2] == n.name;
    assert |"workspace"| != |"readonly"|;
  }

  /** The target of the `k`-th bind of a team, as path parts. */
  function TargetParts(mounts: seq<P.Mount>, k: nat): seq<string>
    requires k < 7 + |mounts|
  {
    ["/"] + (if k < 7 then FixedSteps()[k] else MountSteps(mounts[k - 7]))
  }

  lemma TargetsApart(mounts: seq<P.Mount>)
    requires forall k | 0 <= k < |mounts| :: P.IsName(mounts[k].name)
    ensures (forall i, j | 0 <= i < j < 7 + |mounts| ::
               !Mounts.Comparable(TargetParts(mounts, i), TargetParts(mounts, j)))
       <==> DistinctTargets(mounts)
  {
    forall i, j | 0 <= i < j < 7 + |mounts|
      ensures Mounts.Comparable(TargetParts(mounts, i), TargetParts(mounts, j)) <==>
              i >= 7 && mounts[i - 7].mode == mounts[j - 7].mode && mounts[i - 7].name == mounts[j - 7].name
    {
      if j < 7 {
        FixedApart(i, j);
      } else if i < 7 {
        MountStepsAre(mounts[j - 7]);
        DiffersAt(TargetParts(mounts, i), TargetParts(mounts, j), 1);
      } else {
        MountsApart(mounts[i - 7], mounts[j - 7]);
      }
    }
    if !DistinctTargets(mounts) {
      var i, j :| 0 <= i < j < |mounts| && mounts[i].mode == mounts[j].mode && mounts[i].name == mounts[j].name;
      assert Mounts.Comparable(TargetParts(mounts, i + 7), TargetParts(mounts, j + 7));
    }
    if DistinctTargets(mounts) {
      forall i, j | 0 <= i < j < 7 + |mounts|
        ensures !Mounts.Comparable(TargetParts(mounts, i), TargetParts(mounts, j))
      {
        assert i >= 7 ==> mounts[i - 7].mode != mounts[j - 7].mode || mounts[i - 7].name != mounts[j - 7].name;
      }
    }
  }

  function TeamBinds(a: Area, team: Mounts.Path, teamWrite: bool, mounts: seq<P.Mount>): seq<Bind> {
    FixedBinds(a, team, teamWrite) + MountBinds(mounts)
  }

  lemma TeamTarget(a: Area, team: Mounts.Path, teamWrite: bool, mounts: seq<P.Mount>, k: nat)
    requires k < 7 + |mounts| && forall i | 0 <= i < |mounts| :: P.IsName(mounts[i].name)
    ensures |TeamBinds(a, team, teamWrite, mounts)| == 7 + |mounts|
    ensures var target := TeamBinds(a, team, teamWrite, mounts)[k].target;
            IsContainerPath(target) && Parts(target) == TargetParts(mounts, k)
  {
    FixedStepsAre();
    if k < 7 {
      assert FixedBinds(a, team, teamWrite)[k].target == Slashed(FixedSteps()[k]);
      SlashedIsPath(FixedSteps()[k]);
    } else {
      MountStepsAre(mounts[k - 7]);
      assert TeamBinds(a, team, teamWrite, mounts)[k] == MountBind(mounts[k - 7]);
      SlashedIsPath(MountSteps(mounts[k - 7]));
    }
  }

  /** The mount targets of a team component never nest, except that two of its
      project mounts may have the same name and mode. */
  lemma TeamTargetsIff(b: Build, i: Instance)
    requires forall k | 0 <= k < |i.mounts| :: P.IsName(i.mounts[k].name)
    ensures NoneNested(Targets(TeamPart(b, i))) <==> DistinctTargets(i.mounts)
  {
    hide TeamArguments, TeamName, TargetParts, P.IsName, IsContainerPath, DistinctTargets;
    var c := TeamPart(b, i);
    var team := if i.team.Some? then i.team.value else [];
    assert c.binds == TeamBinds(b.area(i.id), team, i.teamWrite, i.mounts) && c.volumes == [];
    forall k | 0 <= k < 7 + |i.mounts| ensures k < |Targets(c)| && Targets(c)[k] == TargetParts(i.mounts, k) {
      TeamTarget(b.area(i.id), team, i.teamWrite, i.mounts, k);
    }
    assert |Targets(c)| == 7 + |i.mounts|;
    TargetsApart(i.mounts);
  }

  // ---- one component each ----

  predicate Canonical(canonical: string -> bool, a: Area, team: Mounts.Path, mounts: seq<P.Mount>) {
    && canonical(a.tasks) && canonical(a.jobs) && canonical(a.agents)
    && canonical(a.project) && canonical(a.settings) && canonical(a.pi)
    && canonical(PathText(team))
    && forall k | 0 <= k < |mounts| :: canonical(PathText(mounts[k].path))
  }

  function BindSources(a: Area, team: Mounts.Path): seq<string> {
    [a.tasks, a.jobs, a.agents, a.project, a.settings, a.pi, PathText(team)]
  }

  lemma TeamSource(a: Area, team: Mounts.Path, teamWrite: bool, mounts: seq<P.Mount>, k: nat)
    requires k < 7 + |mounts|
    ensures TeamBinds(a, team, teamWrite, mounts)[k].source
         == if k < 7 then BindSources(a, team)[k] else PathText(mounts[k - 7].path)
  {
    if k >= 7 {
      assert TeamBinds(a, team, teamWrite, mounts)[k] == MountBind(mounts[k - 7]);
    }
  }

  lemma TeamBindsIff(canonical: string -> bool, a: Area, team: Mounts.Path, teamWrite: bool, mounts: seq<P.Mount>)
    requires forall i | 0 <= i < |mounts| :: P.IsName(mounts[i].name)
    ensures var binds := TeamBinds(a, team, teamWrite, mounts);
            (forall k | 0 <= k < |binds| :: BindOk(canonical, binds[k])) <==> Canonical(canonical, a, team, mounts)
  {
    var binds := TeamBinds(a, team, teamWrite, mounts);
    forall k | 0 <= k < 7 + |mounts|
      ensures BindOk(canonical, binds[k]) <==>
              canonical(if k < 7 then BindSources(a, team)[k] else PathText(mounts[k - 7].path))
    {
      TeamTarget(a, team, teamWrite, mounts, k);
      TeamSource(a, team, teamWrite, mounts, k);
    }
    BindsSources(canonical, binds, BindSources(a, team), mounts);
  }

  lemma BindsSources(canonical: string -> bool, binds: seq<Bind>, sources: seq<string>, mounts: seq<P.Mount>)
    requires |sources| == 7 && |binds| == 7 + |mounts|
    requires forall k | 0 <= k < |binds| ::
               BindOk(canonical, binds[k]) <==> canonical(if k < 7 then sources[k] else PathText(mounts[k - 7].path))
    ensures (forall k | 0 <= k < |binds| :: BindOk(canonical, binds[k])) <==>
            && canonical(sources[0]) && canonical(sources[1]) && canonical(sources[2]) && canonical(sources[3])
            && canonical(sources[4]) && canonical(sources[5]) && canonical(sources[6])
            && forall k | 0 <= k < |mounts| :: canonical(PathText(mounts[k].path))
  {
    if forall k | 0 <= k < |binds| :: BindOk(canonical, binds[k]) {
      forall k | 0 <= k < |mounts| ensures canonical(PathText(mounts[k].path)) {
        assert BindOk(canonical, binds[k + 7]);
      }
    }
  }

  predicate Tokens(words: seq<string>) { forall k | 0 <= k < |words| :: IsToken(words[k]) }

  lemma TokensAppend(a: seq<string>, c: seq<string>)
    ensures Tokens(a + c) <==> Tokens(a) && Tokens(c)
  {
    if Tokens(a + c) {
      forall k | 0 <= k < |a| ensures IsToken(a[k]) {
        assert (a + c)[k] == a[k];
      }
      forall k | 0 <= k < |c| ensures IsToken(c[k]) {
        assert (a + c)[|a| + k] == c[k];
      }
    }
  }

  lemma EightTokens(a: string, c: string, d: string, e: string, f: string, g: string, h: string, i: string)
    ensures Tokens([a, c, d, e, f, g, h, i]) <==>
            IsToken(a) && IsToken(c) && IsToken(d) && IsToken(e) && IsToken(f) && IsToken(g) && IsToken(h) && IsToken(i)
  {
    var all := [a, c, d, e, f, g, h, i];
    if Tokens(all) {
      assert IsToken(all[0]) && IsToken(all[1]) && IsToken(all[2]) && IsToken(all[3]);
      assert IsToken(all[4]) && IsToken(all[5]) && IsToken(all[6]) && IsToken(all[7]);
    }
  }

  lemma ProtocolTokens()
    ensures Tokens(["--team-protocol", Slashed(["team", "AGENTS.md"])]) && Tokens(["--verbose"])
  {
    MoreOptions();
    HomeSteps();
    MountRoots();
    SlashedToken(["team", "AGENTS.md"]);
  }

  lemma TeamArgumentsIff(i: Instance)
    ensures Tokens(TeamArguments(i)) <==>
            IsToken("/team/" + i.roster) && IsToken(i.generation) && IsToken(i.projectGeneration)
  {
    var program := Slashed(["usr", "local", "bin", "cyclo-team-runtime"]);
    Options();
    LongOption();
    assert IsToken(program) by {
      RuntimeSteps();
      SlashedToken(["usr", "local", "bin", "cyclo-team-runtime"]);
    }
    ProtocolTokens();
    var first := ["python3", program, "--roster", "/team/" + i.roster, "--generation", i.generation,
                  "--project-generation", i.projectGeneration];
    var second := if i.protocol then ["--team-protocol", Slashed(["team", "AGENTS.md"])] else [];
    var third := if i.verbose then ["--verbose"] else [];
    EightTokens("python3", program, "--roster", "/team/" + i.roster, "--generation", i.generation,
                "--project-generation", i.projectGeneration);
    assert TeamArguments(i) == first + second + third;
    TokensAppend(first + second, third);
    TokensAppend(first, second);
  }

  /** What a running instance must bring for its component to pass. */
  predicate TeamFits(canonical: string -> bool, b: Build, i: Instance) {
    && IsToken(i.image)
    && Canonical(canonical, b.area(i.id), if i.team.Some? then i.team.value else [], i.mounts)
    && DistinctTargets(i.mounts)
    && IsToken("/team/" + i.roster) && IsToken(i.generation) && IsToken(i.projectGeneration)
    && (i.offline || (IsToken(i.host) && 0 <= i.port <= 65535))
  }

  lemma OneInput(c: Component)
    requires c.inputs == [PROVIDER] && c.outputs == []
    ensures InterfaceOk(c) <==> IsName(c.name) && IsToken(c.image)
  {
    ProviderEndpoint();
  }

  lemma TeamPartIff(canonical: string -> bool, b: Build, i: Instance)
    requires Digests(b.digest) && TeamCompiles(i)
    ensures ComponentOk(canonical, TeamPart(b, i)) <==> TeamFits(canonical, b, i)
  {
    var c := TeamPart(b, i);
    TeamNameIs(b.digest, i.id);
    OneInput(c);
    TeamBindsIff(canonical, b.area(i.id), i.team.value, i.teamWrite, i.mounts);
    TeamTargetsIff(b, i);
    TeamArgumentsIff(i);
    TeamPieces(canonical, b, i, c);
  }

  lemma TeamPieces(canonical: string -> bool, b: Build, i: Instance, c: Component)
    requires c.binds == TeamBinds(b.area(i.id), if i.team.Some? then i.team.value else [], i.teamWrite, i.mounts)
    requires c.volumes == [] && c.arguments == TeamArguments(i) && c.egress == !i.offline
    requires c.ports == if i.offline then [] else [Port(i.host, i.port, 4137, "tcp")]
    requires InterfaceOk(c) <==> IsToken(i.image)
    requires (forall k | 0 <= k < |c.binds| :: BindOk(canonical, c.binds[k])) <==>
             Canonical(canonical, b.area(i.id), if i.team.Some? then i.team.value else [], i.mounts)
    requires NoneNested(Targets(c)) <==> DistinctTargets(i.mounts)
    requires Tokens(c.arguments) <==>
             IsToken("/team/" + i.roster) && IsToken(i.generation) && IsToken(i.projectGeneration)
    ensures ComponentOk(canonical, c) <==> TeamFits(canonical, b, i)
  {
    TeamPorts(i, c);
    ComponentPieces(canonical, c);
  }

  lemma TeamPorts(i: Instance, c: Component)
    requires c.ports == if i.offline then [] else [Port(i.host, i.port, 4137, "tcp")]
    requires c.egress == !i.offline
    ensures PortsOk(c) <==> i.offline || (IsToken(i.host) && 0 <= i.port <= 65535)
  {
    if !i.offline && PortsOk(c) {
      assert PortOk(c.ports[0]);
    }
  }

  predicate PortsOk(c: Component) {
    (forall k | 0 <= k < |c.ports| :: PortOk(c.ports[k])) && (c.ports != [] ==> c.egress)
  }

  lemma OneVolume(canonical: string -> bool, c: Component)
    requires c.binds == [] && |c.volumes| == 1 && VolumeOk(c.volumes[0])
    ensures MountsOk(canonical, c)
  {
    assert |Targets(c)| == 1;
  }

  lemma OneOutput(c: Component)
    requires c.inputs == [] && c.outputs == [PROVIDER]
    ensures InterfaceOk(c) <==> IsName(c.name) && IsToken(c.image)
  {
    ProviderEndpoint();
  }

  lemma CredentialsVolume()
    ensures VolumeOk(Volume("credentials", Slashed(["var", "lib", "cyclo-gateway"]), false))
  {
    GatewaySteps();
    VolumeName();
    SlashedIsPath(["var", "lib", "cyclo-gateway"]);
  }

  lemma ProviderPort(c: Component)
    requires c.ports == [] || (c.ports == [Port("127.0.0.1", 0, 50051, "tcp")] && c.egress)
    ensures PortsOk(c)
  {
    HostNames();
  }

  lemma GatewayIff(canonical: string -> bool, image: string, publish: bool)
    ensures ComponentOk(canonical, Gateway(image, publish)) <==> IsToken(image)
  {
    var c := Gateway(image, publish);
    HostNames();
    OneOutput(c);
    CredentialsVolume();
    OneVolume(canonical, c);
    ProviderPort(c);
    ComponentPieces(canonical, c);
  }

  lemma ComponentPieces(canonical: string -> bool, c: Component)
    ensures ComponentOk(canonical, c) <==>
            InterfaceOk(c) && MountsOk(canonical, c) && Tokens(c.arguments) && PortsOk(c)
  {
  }

  predicate HashFree(arguments: seq<string>) { forall k | 0 <= k < |arguments| :: '#' !in arguments[k] }

  lemma ArgumentsIff(arguments: seq<string>)
    requires HostConfig.ArgumentsOk(arguments)
    ensures Tokens(arguments) <==> HashFree(arguments)
  {
    forall k | 0 <= k < |arguments| ensures IsToken(arguments[k]) <==> '#' !in arguments[k] {
      assert Word(arguments[k]) && NoControl(arguments[k]);
    }
  }

  lemma ProviderPartIff(canonical: string -> bool, p: HostConfig.Provider, image: string, outer: bool)
    requires HostConfig.ProviderOk(p)
    ensures ComponentOk(canonical, ProviderPart(p, image, outer)) <==> IsToken(image) && HashFree(p.arguments)
  {
    var c := ProviderPart(p, image, outer);
    ArgumentsIff(p.arguments);
    ProviderPort(c);
    assert MountsOk(canonical, c);
    ComponentPieces(canonical, c);
  }

  lemma HostPartIff(canonical: string -> bool, c: HostConfig.HostComponent, image: string)
    requires HostConfig.HostComponentOk(c)
    ensures ComponentOk(canonical, HostPart(c, image)) <==> IsToken(image)
  {
    var part := HostPart(c, image);
    OpenaiName();
    OneInput(part);
    assert MountsOk(canonical, part) && PortsOk(part);
  }

  lemma OpenaiName()
    ensures IsName(HostConfig.OPENAI)
  {
  }

  // ---- the whole system ----

  predicate AllOk(canonical: string -> bool, cs: seq<Component>) {
    forall k | 0 <= k < |cs| :: ComponentOk(canonical, cs[k])
  }

  lemma AllOkAppend(canonical: string -> bool, a: seq<Component>, c: seq<Component>)
    ensures AllOk(canonical, a + c) <==> AllOk(canonical, a) && AllOk(canonical, c)
  {
    if AllOk(canonical, a + c) {
      forall k | 0 <= k < |a| ensures ComponentOk(canonical, a[k]) {
        assert (a + c)[k] == a[k];
      }
      forall k | 0 <= k < |c| ensures ComponentOk(canonical, c[k]) {
        assert (a + c)[|a| + k] == c[k];
      }
    }
  }

  /** Items compile to components that pass exactly when the items fit. */
  lemma EachOk<T(!new)>(canonical: string -> bool, xs: seq<T>, make: T -> Component, fits: T -> bool)
    requires forall x | x in xs :: ComponentOk(canonical, make(x)) <==> fits(x)
    ensures AllOk(canonical, Each(xs, make)) <==> forall k | 0 <= k < |xs| :: fits(xs[k])
  {
    var ys := Each(xs, make);
    forall k | 0 <= k < |xs| ensures ComponentOk(canonical, ys[k]) <==> fits(xs[k]) {
      assert ys[k] == make(xs[k]) && xs[k] in xs;
    }
  }

  predicate ProvidersFit(b: Build, h: Host) {
    forall k | 0 <= k < |h.providers| :: IsToken(b.image(h.providers[k].name)) && HashFree(h.providers[k].arguments)
  }

  predicate ClientsFit(canonical: string -> bool, b: Build, h: Host, active: seq<Instance>) {
    && (forall k | 0 <= k < |h.components| :: IsToken(b.image(h.components[k].name)))
    && (forall k | 0 <= k < |active| :: TeamFits(canonical, b, active[k]))
  }

  lemma ProvidersIff(canonical: string -> bool, b: Build, h: Host)
    requires forall k | 0 <= k < |h.providers| :: HostConfig.ProviderOk(h.providers[k])
    ensures AllOk(canonical, Each(h.providers, ProviderMaker(b, h))) <==> ProvidersFit(b, h)
  {
    var make := ProviderMaker(b, h);
    var fits := (p: HostConfig.Provider) => IsToken(b.image(p.name)) && HashFree(p.arguments);
    forall p | p in h.providers ensures ComponentOk(canonical, make(p)) <==> fits(p) {
      var k :| 0 <= k < |h.providers| && h.providers[k] == p;
      assert make(p) == ProviderPart(p, b.image(p.name), p.name == OuterComponent(h));
      ProviderPartIff(canonical, p, b.image(p.name), p.name == OuterComponent(h));
    }
    EachOk(canonical, h.providers, make, fits);
    assert forall k | 0 <= k < |h.providers| ::
        fits(h.providers[k]) <==> IsToken(b.image(h.providers[k].name)) && HashFree(h.providers[k].arguments);
  }

  lemma HostPartsIff(canonical: string -> bool, b: Build, h: Host)
    requires forall k | 0 <= k < |h.components| :: HostConfig.HostComponentOk(h.components[k])
    ensures AllOk(canonical, Each(h.components, HostMaker(b))) <==>
            forall k | 0 <= k < |h.components| :: IsToken(b.image(h.components[k].name))
  {
    var make := HostMaker(b);
    var fits := (c: HostConfig.HostComponent) => IsToken(b.image(c.name));
    forall c | c in h.components ensures ComponentOk(canonical, make(c)) <==> fits(c) {
      var k :| 0 <= k < |h.components| && h.components[k] == c;
      assert make(c) == HostPart(c, b.image(c.name));
      HostPartIff(canonical, c, b.image(c.name));
    }
    EachOk(canonical, h.components, make, fits);
    assert forall k | 0 <= k < |h.components| :: fits(h.components[k]) <==> IsToken(b.image(h.components[k].name));
  }

  lemma TeamPartsIff(canonical: string -> bool, b: Build, active: seq<Instance>)
    requires Digests(b.digest) && forall k | 0 <= k < |active| :: TeamCompiles(active[k])
    ensures AllOk(canonical, Each(active, TeamMaker(b))) <==>
            forall k | 0 <= k < |active| :: TeamFits(canonical, b, active[k])
  {
    var make := TeamMaker(b);
    var fits := (i: Instance) => TeamFits(canonical, b, i);
    forall i | i in active ensures ComponentOk(canonical, make(i)) <==> fits(i) {
      var k :| 0 <= k < |active| && active[k] == i;
      assert make(i) == TeamPart(b, i);
      TeamPartIff(canonical, b, i);
    }
    EachOk(canonical, active, make, fits);
    assert forall k | 0 <= k < |active| :: fits(active[k]) <==> TeamFits(canonical, b, active[k]);
  }

  lemma SystemPieces(canonical: string -> bool, g: Component, parts: seq<Component>, hosts: seq<Component>,
                     teams: seq<Component>)
    ensures AllOk(canonical, [g] + parts + (hosts + teams)) <==>
            ComponentOk(canonical, g) && AllOk(canonical, parts) && AllOk(canonical, hosts) && AllOk(canonical, teams)
  {
    AllOkAppend(canonical, hosts, teams);
    AllOkAppend(canonical, [g], parts);
    AllOkAppend(canonical, [g] + parts, hosts + teams);
    assert AllOk(canonical, [g]) <==> ComponentOk(canonical, [g][0]);
  }

  lemma HostPieces(h: Host)
    requires HostConfig.HostOk(h)
    ensures forall k | 0 <= k < |h.providers| :: HostConfig.ProviderOk(h.providers[k])
    ensures forall k | 0 <= k < |h.components| :: HostConfig.HostComponentOk(h.components[k])
  {
  }

  lemma ComponentsIff(canonical: string -> bool, b: Build, h: Host, active: seq<Instance>)
    requires forall k | 0 <= k < |h.providers| :: HostConfig.ProviderOk(h.providers[k])
    requires forall k | 0 <= k < |h.components| :: HostConfig.HostComponentOk(h.components[k])
    requires Digests(b.digest) && forall k | 0 <= k < |active| :: TeamCompiles(active[k])
    ensures AllOk(canonical, Compiled(b, h, active).components) <==>
            IsToken(b.image(HostConfig.GATEWAY)) && ProvidersFit(b, h) && ClientsFit(canonical, b, h, active)
  {
    GatewayIff(canonical, b.image(HostConfig.GATEWAY), h.providers == []);
    ProvidersIff(canonical, b, h);
    HostPartsIff(canonical, b, h);
    TeamPartsIff(canonical, b, active);
    SystemPieces(canonical, GatewayPart(b, h), Each(h.providers, ProviderMaker(b, h)), Each(h.components, HostMaker(b)),
                 Each(active, TeamMaker(b)));
  }

  // ---- names ----

  predicate Apart(a: seq<Component>, c: seq<Component>) {
    forall i, j | 0 <= i < |a| && 0 <= j < |c| :: a[i].name != c[j].name
  }

  lemma DistinctConcat(a: seq<Component>, c: seq<Component>)
    ensures DistinctComponents(a + c) <==> DistinctComponents(a) && DistinctComponents(c) && Apart(a, c)
  {
    var all := a + c;
    assert forall i | 0 <= i < |a| :: all[i] == a[i];
    assert forall j | 0 <= j < |c| :: all[|a| + j] == c[j];
  }

  lemma ApartConcat(a: seq<Component>, c: seq<Component>, z: seq<Component>)
    ensures Apart(a + c, z) <==> Apart(a, z) && Apart(c, z)
  {
    var all := a + c;
    assert forall i | 0 <= i < |a| :: all[i] == a[i];
    assert forall j | 0 <= j < |c| :: all[|a| + j] == c[j];
  }

  /** Team names differ from one another and from every host-side name. */
  predicate TeamNamesFresh(b: Build, h: Host, active: seq<Instance>) {
    && (forall i, j | 0 <= i < j < |active| :: TeamName(b.digest, active[i].id) != TeamName(b.digest, active[j].id))
    && (forall i | 0 <= i < |active| :: TeamName(b.digest, active[i].id) != HostConfig.GATEWAY)
    && (forall i, k | 0 <= i < |active| && 0 <= k < |h.providers| ::
          h.providers[k].name != TeamName(b.digest, active[i].id))
    && (forall i, k | 0 <= i < |active| && 0 <= k < |h.components| ::
          h.components[k].name != TeamName(b.digest, active[i].id))
  }

  predicate Named(cs: seq<Component>, names: seq<string>) {
    |cs| == |names| && forall k | 0 <= k < |cs| :: cs[k].name == names[k]
  }

  function TeamNames(b: Build, active: seq<Instance>): (r: seq<string>)
    ensures |r| == |active| && forall k | 0 <= k < |r| :: r[k] == TeamName(b.digest, active[k].id)
  {
    if active == [] then [] else [TeamName(b.digest, active[0].id)] + TeamNames(b, active[1..])
  }

  lemma PartNames(b: Build, h: Host, active: seq<Instance>)
    ensures forall k | 0 <= k < |h.providers| :: Each(h.providers, ProviderMaker(b, h))[k].name == h.providers[k].name
    ensures forall k | 0 <= k < |h.components| :: Each(h.components, HostMaker(b))[k].name == h.components[k].name
    ensures Named(Each(active, TeamMaker(b)), TeamNames(b, active))
  {
    ProviderParts(b, h);
    forall k | 0 <= k < |h.components| ensures HostMaker(b)(h.components[k]).name == h.components[k].name {
      assert HostMaker(b)(h.components[k]) == HostPart(h.components[k], b.image(h.components[k].name));
    }
    forall k | 0 <= k < |active| ensures TeamMaker(b)(active[k]).name == TeamNames(b, active)[k] {
      assert TeamMaker(b)(active[k]) == TeamPart(b, active[k]);
    }
  }

  lemma FourDistinct(g: Component, parts: seq<Component>, hosts: seq<Component>, teams: seq<Component>)
    requires DistinctComponents(parts) && DistinctComponents(hosts) && Apart(parts, hosts)
    requires Apart([g], parts) && Apart([g], hosts)
    ensures DistinctComponents([g] + parts + (hosts + teams)) <==>
            DistinctComponents(teams) && Apart([g], teams) && Apart(parts, teams) && Apart(hosts, teams)
  {
    var all := [g] + parts + hosts + teams;
    assert all == [g] + parts + (hosts + teams);
    DistinctConcat([g], parts);
    DistinctConcat([g] + parts, hosts);
    DistinctConcat([g] + parts + hosts, teams);
    ApartConcat([g], parts, hosts);
    ApartConcat([g], parts, teams);
    ApartConcat([g] + parts, hosts, teams);
  }

  lemma HostSideNames(h: Host)
    requires HostConfig.HostOk(h)
    ensures forall i, j | 0 <= i < j < |h.providers| :: h.providers[i].name != h.providers[j].name
    ensures forall i, j | 0 <= i < j < |h.components| :: h.components[i].name != h.components[j].name
    ensures forall i, j | 0 <= i < |h.providers| && 0 <= j < |h.components| ::
              h.providers[i].name != h.components[j].name
    ensures forall i | 0 <= i < |h.providers| :: h.providers[i].name != HostConfig.GATEWAY
    ensures forall i | 0 <= i < |h.components| :: h.components[i].name == HostConfig.OPENAI
  {
    forall i | 0 <= i < |h.providers| ensures h.providers[i].name != HostConfig.GATEWAY {
      assert HostConfig.ProviderOk(h.providers[i]);
    }
    forall i | 0 <= i < |h.components| ensures h.components[i].name == HostConfig.OPENAI {
      assert HostConfig.HostComponentOk(h.components[i]);
    }
  }

  /** Only team names can clash: the loader keeps the host's own names apart. */
  lemma DistinctIff(b: Build, h: Host, active: seq<Instance>)
    requires HostConfig.HostOk(h)
    ensures DistinctComponents(Compiled(b, h, active).components) <==> TeamNamesFresh(b, h, active)
  {
    var g, parts := GatewayPart(b, h), Each(h.providers, ProviderMaker(b, h));
    var hosts, teams := Each(h.components, HostMaker(b)), Each(active, TeamMaker(b));
    hide HostConfig.HostOk, TeamNamesFresh, TeamNames, ProviderMaker, HostMaker, TeamMaker, TeamName;
    PartNames(b, h, active);
    HostSideNames(h);
    assert |HostConfig.OPENAI| != |HostConfig.GATEWAY|;
    FourDistinct(g, parts, hosts, teams);
    NamesMean(b, h, active, g, parts, hosts, teams);
  }

  lemma DistinctTeams(b: Build, active: seq<Instance>, teams: seq<Component>)
    requires Named(teams, TeamNames(b, active))
    ensures DistinctComponents(teams) <==>
            forall i, j | 0 <= i < j < |active| :: TeamName(b.digest, active[i].id) != TeamName(b.digest, active[j].id)
  {
    forall i | 0 <= i < |active| ensures teams[i].name == TeamName(b.digest, active[i].id) {
      assert teams[i].name == TeamNames(b, active)[i];
    }
    if DistinctComponents(teams) {
      forall i, j | 0 <= i < j < |active| ensures TeamName(b.digest, active[i].id) != TeamName(b.digest, active[j].id) {
        assert teams[i].name != teams[j].name;
      }
    }
  }

  lemma ApartFromTeams(b: Build, active: seq<Instance>, cs: seq<Component>, teams: seq<Component>)
    requires Named(teams, TeamNames(b, active))
    ensures Apart(cs, teams) <==>
            forall i, k | 0 <= i < |active| && 0 <= k < |cs| :: cs[k].name != TeamName(b.digest, active[i].id)
  {
    forall i | 0 <= i < |active| ensures teams[i].name == TeamName(b.digest, active[i].id) {
      assert teams[i].name == TeamNames(b, active)[i];
    }
    if Apart(cs, teams) {
      forall i, k | 0 <= i < |active| && 0 <= k < |cs| ensures cs[k].name != TeamName(b.digest, active[i].id) {
        assert cs[k].name != teams[i].name;
      }
    }
  }

  lemma NamesMean(b: Build, h: Host, active: seq<Instance>, g: Component, parts: seq<Component>, hosts: seq<Component>,
                  teams: seq<Component>)
    requires g.name == HostConfig.GATEWAY
    requires |parts| == |h.providers| && forall k | 0 <= k < |parts| :: parts[k].name == h.providers[k].name
    requires |hosts| == |h.components| && forall k | 0 <= k < |hosts| :: hosts[k].name == h.components[k].name
    requires Named(teams, TeamNames(b, active))
    ensures TeamNamesFresh(b, h, active) <==>
            DistinctComponents(teams) && Apart([g], teams) && Apart(parts, teams) && Apart(hosts, teams)
  {
    DistinctTeams(b, active, teams);
    ApartFromTeams(b, active, [g], teams);
    ApartFromTeams(b, active, parts, teams);
    ApartFromTeams(b, active, hosts, teams);
    assert [g][0].name == HostConfig.GATEWAY;
  }

  /** Exactly when `System.validate` accepts what a loaded host and compilable
      instances compile to.  The links are never the reason for a refusal, nor are
      mount targets but for equal mounts of one instance; an argument with a hash,
      which the host loader lets through, always is. */
  lemma CompiledValidIff(canonical: string -> bool, b: Build, h: Host, active: seq<Instance>)
    requires HostConfig.HostOk(h) && Digests(b.digest) && forall k | 0 <= k < |active| :: TeamCompiles(active[k])
    ensures Valid(canonical, Compiled(b, h, active)) <==>
            && IsName(b.realm)
            && IsToken(b.image(HostConfig.GATEWAY)) && ProvidersFit(b, h) && ClientsFit(canonical, b, h, active)
            && TeamNamesFresh(b, h, active)
  {
    HostPieces(h);
    ComponentsIff(canonical, b, h, active);
    DistinctIff(b, h, active);
    if DistinctComponents(Compiled(b, h, active).components) {
      CompiledWires(b, h, active);
    }
  }

  /** Well-formedness carries from the loader to the checker: whatever host file
      loads and whatever instances run, under names of their own, the links wire the
      system, and a team's mounts nest only where two of them are equal. */
  lemma LoadedHostCompiles(w: HostConfig.World, text: string, b: Build, active: seq<Instance>)
    requires HostConfig.Addresses(w) && HostConfig.Load(w, text).Ok?
    requires TeamNamesFresh(b, HostConfig.Load(w, text).value, active)
    requires forall k | 0 <= k < |active| :: ProjectDecodes(active[k])
    ensures var s := Compiled(b, HostConfig.Load(w, text).value, active);
            && DistinctComponents(s.components)
            && (exists wiring :: Wires(s.components, s.links, wiring))
    ensures forall k | 0 <= k < |active| ::
              NoneNested(Targets(TeamPart(b, active[k]))) <==> DistinctTargets(active[k].mounts)
  {
    var h := HostConfig.Load(w, text).value;
    HostConfig.LoadedIsOk(w, text);
    DistinctIff(b, h, active);
    CompiledWires(b, h, active);
    forall k | 0 <= k < |active|
      ensures NoneNested(Targets(TeamPart(b, active[k]))) <==> DistinctTargets(active[k].mounts)
    {
      TeamTargetsIff(b, active[k]);
    }
  }

  // ---- arguments with a hash ----

  /** A host of one provider whose arguments are as given. */
  function OneProvider(contract: Contract, arguments: seq<string>): Host {
    HostConfig.Host([HostConfig.Provider("p", ["p"], ["p"], contract, [], arguments)], [])
  }

  const LONELY := Contract("image", [], [PROVIDER])

  /** Every source is the directory `p`, whose descriptor asks for nothing. */
  function OneSource(): HostConfig.World {
    HostConfig.World((token: string) => Ok((["p"], ["p"], false)),
                     (source: HostConfig.Path) => Ok(Render(LONELY)),
                     (source: HostConfig.Path, token: string) => Err("no other directory"),
                     (text: string) => None,
                     (text: string) => None)
  }

  lemma {:induction false} SizeOf(s: string)
    ensures Utf8Size(s) <= 4 * |s|
  {
    if s != "" {
      SizeOf(s[1..]);
    }
  }

  lemma LonelyLoads(source: HostConfig.Path)
    ensures HostConfig.LoadContract(OneSource(), source) == Ok(LONELY)
  {
    ProviderEndpoint();
    ImageToken();
    assert Printable(LONELY);
    assert Sorted([PROVIDER]) == [PROVIDER] && Sorted([]) == [];
    assert [PROVIDER][1..] == [];
    assert Providing([PROVIDER]) == [PROVIDER];
    RenderLength();
    SizeOf(Render(LONELY));
    RenderParse(LONELY);
  }

  lemma ImageToken()
    ensures IsToken("image")
  {
  }

  lemma LengthOfThree(a: string, c: string, d: string)
    ensures |Spaced([a, c, d])| == |a| + |c| + |d| + 2
    ensures |Spaced([a, c])| == |a| + |c| + 1
  {
    assert [a, c, d][1..] == [c, d] && [c, d][1..] == [d] && [a, c][1..] == [c];
    assert Spaced([c, d]) == c + " " + Spaced([d]);
  }

  lemma RenderLength()
    ensures |Render(LONELY)| <= 100
  {
    var image, output := Spaced(["docker", "image"]), Spaced(["output", PROVIDER_SERVICE, "provider"]);
    LengthOfThree("docker", "image", "");
    LengthOfThree("output", PROVIDER_SERVICE, "provider");
    assert Sorted([]) == [] && Sorted([PROVIDER]) == [PROVIDER] && [PROVIDER][1..] == [];
    assert EndpointLines("output", [PROVIDER]) == [output];
    LengthOfLines(image, output);
    assert Lines(LONELY) == [image, output];
  }

  lemma LengthOfLines(a: string, c: string)
    ensures |Lined([a, c])| == |a| + |c| + 2 && |Lined([a])| == |a| + 1
  {
    assert [a, c][1..] == [c] && [c][1..] == [] && [a][1..] == [];
    assert Lined([c]) == c + "\n" + Lined([]);
  }

  const HASHED := ["provider", "p", "src", "--", "x#y"]

  lemma HashedWords()
    ensures Words(HASHED) && NoneHashed(HASHED) && forall i | 0 <= i < |HASHED| :: NoControl(HASHED[i])
  {
  }

  lemma HashedSlices()
    ensures HostConfig.Position(HASHED, "--") == 3 && HostConfig.Count(HASHED, "--") == 1
    ensures HostConfig.Settings(HASHED) == [] && HostConfig.Arguments(HASHED) == ["x#y"]
  {
    assert HASHED[1..] == ["p", "src", "--", "x#y"] && HASHED[1..][1..] == ["src", "--", "x#y"];
    assert HASHED[1..][1..][1..] == ["--", "x#y"] && HASHED[1..][1..][1..][1..] == ["x#y"];
    assert HASHED[1..][1..][1..][1..][1..] == [];
  }

  lemma HashedProvider()
    ensures HostConfig.ProviderLine(OneSource(), HASHED, {HostConfig.GATEWAY})
         == Ok(HostConfig.Declaration("p", ["p"], ["p"], LONELY, [], ["x#y"]))
  {
    HashedSlices();
    LonelyLoads(["p"]);
    assert IsName("p") && "p" != HostConfig.GATEWAY;
  }

  lemma HashedLine()
    ensures HostConfig.HostLine(OneSource(), HostConfig.Listing([], []), Spaced(HASHED))
         == Ok(HostConfig.Listing([HostConfig.Declaration("p", ["p"], ["p"], LONELY, [], ["x#y"])], []))
  {
    HashedWords();
    ContentOfWords(HASHED);
    HashedProvider();
    var none: seq<HostConfig.Declaration> := [];
    assert HostConfig.Names(HostConfig.Listing([], [])) == {HostConfig.GATEWAY};
    assert forall x: HostConfig.Declaration :: none + [x] == [x];
  }

  lemma LoadOneLine(w: HostConfig.World, line: string, d: HostConfig.Declaration)
    requires Plain([line]) && |line| <= 100 && d.settings == [] && d.contract.inputs == []
    requires HostConfig.HostLine(w, HostConfig.Listing([], []), line) == Ok(HostConfig.Listing([d], []))
    ensures HostConfig.Load(w, Lined([line])) == Ok(HostConfig.Host([HostConfig.Bound(d)], []))
  {
    var lines, text := [line], Lined([line]);
    PlainIsClean(lines);
    UnixAlready(text);
    SplitLined(lines);
    LengthOfLines(line, "");
    SizeOf(text);
    assert lines[1..] == [];
    assert HostConfig.HostLines(w, HostConfig.Listing([], []), lines) == Ok(HostConfig.Listing([d], []));
    assert HostConfig.BoundAll([d], HostConfig.Outputs([d])) == [HostConfig.Bound(d)];
  }

  lemma HashedLoads()
    ensures HostConfig.Load(OneSource(), Lined([Spaced(HASHED)])) == Ok(OneProvider(LONELY, ["x#y"]))
  {
    HashedWords();
    SpacedPlain(HASHED);
    HashedLength();
    HashedLine();
    var d := HostConfig.Declaration("p", ["p"], ["p"], LONELY, [], ["x#y"]);
    LoadOneLine(OneSource(), Spaced(HASHED), d);
    assert HostConfig.Bindings(d.settings) == [];
  }

  lemma HashedLength()
    ensures |Spaced(HASHED)| <= 100
  {
    assert HASHED[1..] == ["p", "src", "--", "x#y"] && HASHED[1..][1..] == ["src", "--", "x#y"];
    LengthOfThree("src", "--", "x#y");
  }

  /** A host file that loads and can never be applied: its provider's argument holds
      a hash that opens no comment, which a DComp file could not keep apart from
      one. */
  lemma HashedArgumentRefused(canonical: string -> bool, b: Build, active: seq<Instance>)
    requires Digests(b.digest) && forall k | 0 <= k < |active| :: TeamCompiles(active[k])
    ensures var loaded := HostConfig.Load(OneSource(), Lined([Spaced(HASHED)]));
            loaded.Ok? && !Valid(canonical, Compiled(b, loaded.value, active))
  {
    HashedLoads();
    HostConfig.LoadedIsOk(OneSource(), Lined([Spaced(HASHED)]));
    var h := OneProvider(LONELY, ["x#y"]);
    CompiledValidIff(canonical, b, h, active);
    assert "x#y"[1] == '#';
    assert !HashFree(h.providers[0].arguments);
  }
}
