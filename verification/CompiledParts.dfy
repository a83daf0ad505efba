/** What a compiled component may reach: the paths it sees and may write, the ports it
    publishes, the network it is on. */
module CompiledParts {
  import opened Outcomes
  import opened Text
  import opened ComponentDescriptor
  import opened DcompSystem
  import opened Compiler
  import HostConfig
  import Mounts
  import P = ProjectText
  import Printer = ProjectPrinter

  lemma TwoSteps(a: string, c: string)
    ensures Slashed([a, c]) == "/" + a + "/" + c
  {
    assert [a, c][1..] == [c];
    assert [c][1..] == [];
    assert Slashed([c]) == "/" + c + "";
  }

  lemma ThreeSteps(a: string, c: string, d: string)
    ensures Slashed([a, c, d]) == "/" + a + "/" + c + "/" + d
  {
    assert [a, c, d][1..] == [c, d];
    TwoSteps(c, d);
  }

  lemma OneStep(a: string)
    ensures Slashed([a]) == "/" + a
  {
    assert Slashed([a]) == "/" + a + "";
  }

  lemma StatePaths()
    ensures Slashed(["agentws", "tasks"]) == "/agentws/tasks" && Slashed(["agentws", "jobs"]) == "/agentws/jobs"
    ensures Slashed(["agentws", "agents"]) == "/agentws/agents"
    ensures Slashed(["agentws", "project.cyclo"]) == "/agentws/project.cyclo"
  {
    TwoSteps("agentws", "tasks");
    TwoSteps("agentws", "jobs");
    TwoSteps("agentws", "agents");
    TwoSteps("agentws", "project.cyclo");
    assert "/" + "agentws" + "/" == "/agentws/";
    assert "/agentws/" + "tasks" == "/agentws/tasks";
    assert "/agentws/" + "jobs" == "/agentws/jobs";
    assert "/agentws/" + "agents" == "/agentws/agents";
    assert "/agentws/" + "project.cyclo" == "/agentws/project.cyclo";
  }

  lemma PiPaths()
    ensures Slashed(["opt", "cyclo", "pi-settings.json"]) == "/opt/cyclo/pi-settings.json"
    ensures Slashed(["home", "cyclo", ".pi"]) == "/home/cyclo/.pi"
  {
    hide Slashed;
    ThreeSteps("opt", "cyclo", "pi-settings.json");
    assert "/" + "opt" + "/" + "cyclo" + "/" == "/opt/cyclo/";
    assert "/opt/cyclo/" + "pi-settings.json" == "/opt/cyclo/pi-settings.json";
    ThreeSteps("home", "cyclo", ".pi");
    assert "/" + "home" + "/" + "cyclo" + "/" == "/home/cyclo/";
    assert "/home/cyclo/" + ".pi" == "/home/cyclo/.pi";
  }

  lemma TeamPaths()
    ensures Slashed(["team"]) == "/team" && Slashed(["team", "AGENTS.md"]) == "/team/AGENTS.md"
  {
    hide Slashed;
    OneStep("team");
    assert "/" + "team" == "/team";
    TwoSteps("team", "AGENTS.md");
    assert "/team" + "/" + "AGENTS.md" == "/team/AGENTS.md";
  }

  lemma GatewayPath()
    ensures Slashed(["var", "lib", "cyclo-gateway"]) == "/var/lib/cyclo-gateway"
  {
    hide Slashed;
    ThreeSteps("var", "lib", "cyclo-gateway");
    assert "/" + "var" + "/" + "lib" + "/" == "/var/lib/";
    assert "/var/lib/" + "cyclo-gateway" == "/var/lib/cyclo-gateway";
  }

  lemma RuntimePath()
    ensures Slashed(["usr", "local", "bin", "cyclo-team-runtime"]) == "/usr/local/bin/cyclo-team-runtime"
  {
    hide Slashed;
    FourSteps("usr", "local", "bin", "cyclo-team-runtime");
    assert "/" + "usr" + "/" + "local" + "/" == "/usr/local/";
    assert "/usr/local/" + "bin" + "/" == "/usr/local/bin/";
    assert "/usr/local/bin/" + "cyclo-team-runtime" == "/usr/local/bin/cyclo-team-runtime";
  }

  lemma FourSteps(a: string, c: string, d: string, e: string)
    ensures Slashed([a, c, d, e]) == "/" + a + "/" + c + "/" + d + "/" + e
  {
    assert [a, c, d, e][1..] == [c, d, e];
    ThreeSteps(c, d, e);
  }

  /** Each project mount is one bind of a team's component, in order after seven fixed
      ones, and read-only exactly when its mode says so. */
  lemma MountBound(b: Build, i: Instance, k: nat)
    requires k < |i.mounts|
    ensures |TeamPart(b, i).binds| == 7 + |i.mounts|
    ensures TeamPart(b, i).binds[7 + k].source == PathText(i.mounts[k].path)
    ensures TeamPart(b, i).binds[7 + k].target
         == (if i.mounts[k].mode.RW? then "/workspace/" else "/readonly/") + i.mounts[k].name
    ensures TeamPart(b, i).binds[7 + k].readOnly <==> i.mounts[k].mode.RO?
  {
    hide Slashed, PathText, TeamArguments, TeamName;
    var m := i.mounts[k];
    var binds := MountBinds(i.mounts);
    assert TeamPart(b, i).binds[7 + k] == binds[k] == MountBind(m);
    TwoSteps(if m.mode.RW? then "workspace" else "readonly", m.name);
    assert "/" + "workspace" + "/" == "/workspace/";
    assert "/" + "readonly" + "/" == "/readonly/";
  }

  lemma TokenIs(m: P.Mount)
    ensures Printer.ContainerToken(m) == (if m.mode.RW? then "/workspace/" else "/readonly/") + m.name
  {
    if m.mode.RW? {
      assert "/" + "workspace" + "/" == "/workspace/";
    } else {
      assert "/" + "readonly" + "/" == "/readonly/";
    }
  }

  /** The paths in the project file a team is given are where its mounts are. */
  lemma PrintedWhereBound(b: Build, i: Instance, k: nat)
    requires k < |i.mounts|
    ensures 7 + k < |TeamPart(b, i).binds|
    ensures Printer.ContainerToken(i.mounts[k]) == TeamPart(b, i).binds[7 + k].target
  {
    hide TeamPart, Printer.ContainerToken;
    MountBound(b, i, k);
    TokenIs(i.mounts[k]);
  }

  /** The fixed binds: the task queue and Pi's directory to write, the project file and
      Pi's settings to read, and the team's own tree to write only where the project
      selects it as writable. */
  lemma FixedBound(b: Build, i: Instance)
    requires i.team.Some?
    ensures |TeamPart(b, i).binds| == 7 + |i.mounts|
    ensures TeamPart(b, i).binds[..7] ==
            [Bind(b.area(i.id).tasks, "/agentws/tasks", false),
             Bind(b.area(i.id).jobs, "/agentws/jobs", false),
             Bind(b.area(i.id).agents, "/agentws/agents", false),
             Bind(b.area(i.id).project, "/agentws/project.cyclo", true),
             Bind(b.area(i.id).settings, "/opt/cyclo/pi-settings.json", true),
             Bind(b.area(i.id).pi, "/home/cyclo/.pi", false),
             Bind(PathText(i.team.value), "/team", !i.teamWrite)]
  {
    hide Slashed, PathText, TeamArguments, TeamName;
    StatePaths();
    PiPaths();
    TeamPaths();
    assert TeamPart(b, i).binds[..7] == FixedBinds(b.area(i.id), i.team.value, i.teamWrite);
  }

  /** A team can write nothing on the host but its own queue and Pi directories, its tree
      if the project lets it, and the projects mounted `rw`; each of these it can. */
  lemma TeamWrites(b: Build, i: Instance, source: string)
    requires i.team.Some?
    ensures (exists x :: x in TeamPart(b, i).binds && x.source == source && !x.readOnly)
       <==> || source in {b.area(i.id).tasks, b.area(i.id).jobs, b.area(i.id).agents, b.area(i.id).pi}
            || (i.teamWrite && source == PathText(i.team.value))
            || exists m :: m in i.mounts && m.mode.RW? && source == PathText(m.path)
  {
    FixedBound(b, i);
    var binds := TeamPart(b, i).binds;
    forall k | 0 <= k < |i.mounts|
      ensures binds[7 + k].source == PathText(i.mounts[k].path) && (binds[7 + k].readOnly <==> i.mounts[k].mode.RO?)
    {
      MountBound(b, i, k);
    }
    hide TeamPart, PathText;
    WritesAre(b.area(i.id), binds, i, source);
  }

  lemma WritesAre(a: Area, binds: seq<Bind>, i: Instance, source: string)
    requires i.team.Some? && |binds| == 7 + |i.mounts|
    requires binds[..7] ==
             [Bind(a.tasks, "/agentws/tasks", false), Bind(a.jobs, "/agentws/jobs", false),
              Bind(a.agents, "/agentws/agents", false), Bind(a.project, "/agentws/project.cyclo", true),
              Bind(a.settings, "/opt/cyclo/pi-settings.json", true), Bind(a.pi, "/home/cyclo/.pi", false),
              Bind(PathText(i.team.value), "/team", !i.teamWrite)]
    requires forall k | 0 <= k < |i.mounts| ::
               && binds[7 + k].source == PathText(i.mounts[k].path)
               && (binds[7 + k].readOnly <==> i.mounts[k].mode.RO?)
    ensures (exists x :: x in binds && x.source == source && !x.readOnly)
       <==> || source in {a.tasks, a.jobs, a.agents, a.pi}
            || (i.teamWrite && source == PathText(i.team.value))
            || exists m :: m in i.mounts && m.mode.RW? && source == PathText(m.path)
  {
    hide PathText;
    assert forall k | 0 <= k < 7 :: binds[k] == binds[..7][k];
    if x :| x in binds && x.source == source && !x.readOnly {
      var k :| 0 <= k < |binds| && binds[k] == x;
      if k >= 7 {
        assert i.mounts[k - 7] in i.mounts && binds[7 + (k - 7)] == x;
      }
    }
    if m :| m in i.mounts && m.mode.RW? && source == PathText(m.path) {
      var k :| 0 <= k < |i.mounts| && i.mounts[k] == m;
      assert binds[7 + k] in binds;
    }
    assert binds[0] in binds && binds[1] in binds && binds[2] in binds && binds[5] in binds && binds[6] in binds;
  }

  /** A team publishes its dashboard and is on the outside network, or neither. */
  lemma TeamNetwork(b: Build, i: Instance)
    ensures var c := TeamPart(b, i);
            && c.image == i.image && c.outputs == [] && c.volumes == []
            && c.inputs == [Endpoint("cyclo.provider.v1.Provider", "provider")]
            && (i.offline ==> c.ports == [] && !c.egress)
            && (!i.offline ==> c.ports == [Port(i.host, i.port, 4137, "tcp")] && c.egress)
  {
    hide FixedBinds, MountBinds, TeamArguments, TeamName;
  }

  /** What the team runtime is started with. */
  lemma TeamStartsWith(b: Build, i: Instance)
    ensures TeamPart(b, i).arguments ==
            ["python3", "/usr/local/bin/cyclo-team-runtime", "--roster", "/team/" + i.roster,
             "--generation", i.generation, "--project-generation", i.projectGeneration]
            + (if i.protocol then ["--team-protocol", "/team/AGENTS.md"] else [])
            + (if i.verbose then ["--verbose"] else [])
  {
    hide FixedBinds, MountBinds, TeamName, Slashed;
    RuntimePath();
    TeamPaths();
  }

  /** The compiled components come in order: the gateway, the providers, the host's own
      components, the teams. */
  lemma Places(b: Build, h: Host, active: seq<Instance>)
    ensures var cs, n, m := Compiled(b, h, active).components, |h.providers|, |h.components|;
            && |cs| == 1 + n + m + |active| && cs[0] == GatewayPart(b, h)
            && cs[1..1 + n] == Each(h.providers, ProviderMaker(b, h))
            && cs[1 + n..1 + n + m] == Each(h.components, HostMaker(b))
            && cs[1 + n + m..] == Each(active, TeamMaker(b))
  {
    hide Each, GatewayPart, ProviderMaker, HostMaker, TeamMaker;
  }

  lemma GatewayIs(b: Build, h: Host, active: seq<Instance>)
    ensures Compiled(b, h, active).components != []
    ensures var c := Compiled(b, h, active).components[0];
            c == Component("gateway", b.image("gateway"), [],
                           [Endpoint("cyclo.provider.v1.Provider", "provider")], [],
                           [Volume("credentials", "/var/lib/cyclo-gateway", false)], [],
                           if h.providers == [] then [Port("127.0.0.1", 0, 50051, "tcp")] else [], true)
  {
    Places(b, h, active);
    GatewayPath();
    hide Compiled, Slashed;
  }

  /** A provider has its contract's interface and nothing of the host, and only the last
      is published and on the outside network. */
  lemma ProviderIs(b: Build, h: Host, active: seq<Instance>, k: nat)
    requires HostConfig.HostOk(h) && k < |h.providers|
    ensures 1 + k < |Compiled(b, h, active).components|
    ensures var p, last := h.providers[k], k == |h.providers| - 1;
            Compiled(b, h, active).components[1 + k] ==
            Component(p.name, b.image(p.name), p.contract.inputs, p.contract.outputs, [], [], p.arguments,
                      if last then [Port("127.0.0.1", 0, 50051, "tcp")] else [], last)
  {
    LastAlone(h, k);
    ProviderMade(b, h, active, k);
    hide HostConfig.HostOk, Compiled, OuterComponent;
  }

  lemma LastAlone(h: Host, k: nat)
    requires HostConfig.HostOk(h) && k < |h.providers|
    ensures h.providers[k].name == OuterComponent(h) <==> k == |h.providers| - 1
  {
    hide HostConfig.ProviderOk, HostConfig.BindingsOk, HostConfig.HostComponentOk;
  }

  lemma ProviderMade(b: Build, h: Host, active: seq<Instance>, k: nat)
    requires k < |h.providers|
    ensures 1 + k < |Compiled(b, h, active).components|
    ensures var p := h.providers[k];
            Compiled(b, h, active).components[1 + k] == ProviderPart(p, b.image(p.name), p.name == OuterComponent(h))
  {
    Places(b, h, active);
    var cs, n := Compiled(b, h, active).components, |h.providers|;
    hide Compiled, ProviderPart, OuterComponent;
    assert cs[1 + k] == cs[1..1 + n][k] == ProviderMaker(b, h)(h.providers[k]);
  }

  lemma HostComponentIs(b: Build, h: Host, active: seq<Instance>, k: nat)
    requires k < |h.components|
    ensures 1 + |h.providers| + k < |Compiled(b, h, active).components|
    ensures var c := h.components[k];
            Compiled(b, h, active).components[1 + |h.providers| + k] ==
            Component(c.name, b.image(c.name), [Endpoint("cyclo.provider.v1.Provider", "provider")], [], [], [], [],
                      [Port(c.bind, c.port, 8080, "tcp")], true)
  {
    Places(b, h, active);
    var cs, n, m := Compiled(b, h, active).components, |h.providers|, |h.components|;
    hide Compiled;
    assert cs[1 + n + k] == cs[1 + n..1 + n + m][k] == HostMaker(b)(h.components[k]);
  }

  lemma TeamIs(b: Build, h: Host, active: seq<Instance>, k: nat)
    requires k < |active|
    ensures 1 + |h.providers| + |h.components| + k < |Compiled(b, h, active).components|
    ensures Compiled(b, h, active).components[1 + |h.providers| + |h.components| + k] == TeamPart(b, active[k])
  {
    Places(b, h, active);
    var cs, n, m := Compiled(b, h, active).components, |h.providers|, |h.components|;
    hide Compiled, TeamPart;
    assert cs[1 + n + m + k] == cs[1 + n + m..][k] == TeamMaker(b)(active[k]);
  }

  /** Of the gateway and the providers, the last, and it alone, publishes the provider
      port, and on the loopback address only. */
  lemma OnePublishes(b: Build, h: Host, active: seq<Instance>, k: nat)
    requires HostConfig.HostOk(h) && k <= |h.providers|
    ensures k < |Compiled(b, h, active).components|
    ensures Compiled(b, h, active).components[k].ports
         == if k == |h.providers| then [Port("127.0.0.1", 0, 50051, "tcp")] else []
  {
    hide Compiled, HostConfig.HostOk;
    if k == 0 {
      GatewayIs(b, h, active);
    } else {
      ProviderIs(b, h, active, k - 1);
    }
  }
}
