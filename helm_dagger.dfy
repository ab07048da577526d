/** The OCI-only publish procedure of helm/dagger/main.go: read the
    chart's version and name, log in, probe the registry, stop if the chart
    is there, otherwise update dependencies, package, list and push, as one
    chain of container steps. */
module HelmDagger {
  import opened Options
  import opened Exec
  import HelmOpts
  import HelmProbe
  import HelmPublish
  import HelmRegistry
  import Text

  /** The publish options of this module: no subpath and no version
      overrides. */
  datatype PushOpts = PushOpts(registry: string, repository: string, oci: bool, username: string)

  /** `getRepoFqdn`: the `oci://` scheme in OCI mode, no scheme at all
      otherwise; so the locator of helm/main.go in OCI mode, and that
      locator without its `https://` in legacy mode. */
  function RepoFqdn(p: PushOpts): (r: string)
    ensures p.oci ==> r == HelmOpts.RepoFqdn(MainOpts(p))
    ensures !p.oci ==> HelmOpts.RepoFqdn(MainOpts(p)) == "https://" + r
  {
    if p.oci then "oci://" + p.registry + "/" + p.repository
    else p.registry + "/" + p.repository
  }

  /** `getChartFqdn`, which formats the whole locator itself: in both modes
      it is the repository locator followed by the chart name. */
  function ChartFqdn(p: PushOpts, name: string): (r: string)
    ensures r == RepoFqdn(p) + "/" + name
  {
    if p.oci then "oci://" + p.registry + "/" + p.repository + "/" + name
    else p.registry + "/" + p.repository + "/" + name
  }

  /** Different chart names have different locators. */
  lemma ChartFqdnInjective(p: PushOpts, a: string, b: string)
    ensures ChartFqdn(p, a) == ChartFqdn(p, b) <==> a == b
  {
    if ChartFqdn(p, a) == ChartFqdn(p, b) {
      var n := |RepoFqdn(p)| + 1;
      assert ChartFqdn(p, a)[n..] == a;
      assert ChartFqdn(p, b)[n..] == b;
    }
  }

  /** The options of helm/main.go with the same registry, repository, mode
      and user, and nothing else set. */
  function MainOpts(p: PushOpts): HelmOpts.PushOpts {
    HelmOpts.PushOpts(p.registry, p.repository, p.oci, "", p.username, "", "")
  }

  /** In OCI mode both modules name the same repository and chart; in legacy
      mode this one lacks the `https://` scheme helm/main.go puts in front. */
  lemma LocatorsAgainstMain(p: PushOpts, name: string)
    ensures p.oci ==> (RepoFqdn(p) == HelmOpts.RepoFqdn(MainOpts(p))
                       && ChartFqdn(p, name) == HelmOpts.ChartFqdn(MainOpts(p), name))
    ensures !p.oci ==> (HelmOpts.RepoFqdn(MainOpts(p)) == "https://" + RepoFqdn(p)
                        && HelmOpts.ChartFqdn(MainOpts(p), name) == "https://" + ChartFqdn(p, name))
  {
  }

  /** Reads the version, then the name, each trimmed. */
  function ReadIdentity(answer: Oracle): (m: HelmPublish.Meta)
    ensures m.result.Ok? <==> HelmPublish.QueryChart(answer, ".version").Ok? && HelmPublish.QueryChart(answer, ".name").Ok?
    ensures m.result.Ok? ==> m.result.value == HelmPublish.ChartId(HelmPublish.QueryChart(answer, ".name").value,
                                                                 HelmPublish.QueryChart(answer, ".version").value)
    ensures m.trace == if HelmPublish.QueryChart(answer, ".version").Ok?
                       then [ShowChartField(".version"), ShowChartField(".name")]
                       else [ShowChartField(".version")]
  {
    var version := HelmPublish.QueryChart(answer, ".version");
    if version.Err? then HelmPublish.Meta(Err(version.failure), [ShowChartField(".version")])
    else
      var name := HelmPublish.QueryChart(answer, ".name");
      var trace := [ShowChartField(".version"), ShowChartField(".name")];
      if name.Err? then HelmPublish.Meta(Err(name.failure), trace)
      else HelmPublish.Meta(Ok(HelmPublish.ChartId(name.value, version.value)), trace)
  }

  /** `helm registry login` to the registry: always the OCI login, whatever
      the options' mode, as the caller. */
  function Login(opts: PushOpts): (r: Cmd)
    ensures r.RegistryLogin? && r.oci
    ensures r.url == opts.registry && r.username == opts.username
  {
    RegistryLogin(opts.registry, opts.username, true)
  }

  /** `helm show chart <chart locator> --version <v>`, answered by `/ec`; in
      OCI mode the same probe as helm/main.go issues. */
  function Probe(opts: PushOpts, id: HelmPublish.ChartId): (r: Cmd)
    ensures r.ShowRemoteChart? && r.ref == ChartFqdn(opts, id.name) && r.version == id.version
    ensures opts.oci ==> r == HelmProbe.ProbeCmd(MainOpts(opts), id.name, id.version)
  {
    ShowRemoteChart(ChartFqdn(opts, id.name), id.version)
  }

  /** The steps that follow a probe that did not find the chart:
      `helm dependency update .`, `helm package .`, `ls` and `helm push` of
      the archive to the repository locator. */
  function BuildCmds(opts: PushOpts, id: HelmPublish.ChartId): (r: seq<Cmd>)
    ensures |r| == 4
    ensures forall i :: 0 <= i < |r| ==> Builds(r[i])
    ensures forall i :: 0 <= i < |r| ==> (r[i].HelmPush? <==> i == |r| - 1)
    ensures r[|r| - 1] == HelmPush(HelmProbe.PkgFile(id.name, id.version), RepoFqdn(opts))
  {
    [DependencyUpdate, Package(["helm", "package", "."]), ListFiles,
     HelmPush(HelmProbe.PkgFile(id.name, id.version), RepoFqdn(opts))]
  }

  /** A chain of container steps synchronised once: they run in order and
      the first that fails ends the chain with its error. */
  function Chain(answer: Oracle, cmds: seq<Cmd>): Steps
    decreases |cmds|
  {
    if cmds == [] then Steps(None, [])
    else if answer(cmds[0]).Failed? then Steps(Some(ErrorOf(answer(cmds[0]))), [cmds[0]])
    else
      var rest := Chain(answer, cmds[1..]);
      Steps(rest.failure, [cmds[0]] + rest.trace)
  }

  predicate AllDone(answer: Oracle, cmds: seq<Cmd>) {
    forall i :: 0 <= i < |cmds| ==> answer(cmds[i]).Done?
  }

  /** A chain succeeds exactly when every step does, and then it runs them
      all. */
  lemma {:induction false} ChainSucceeds(answer: Oracle, cmds: seq<Cmd>)
    ensures Chain(answer, cmds).failure.None? <==> AllDone(answer, cmds)
    ensures Chain(answer, cmds).failure.None? ==> Chain(answer, cmds).trace == cmds
  {
    if cmds != [] {
      ChainSucceeds(answer, cmds[1..]);
      if AllDone(answer, cmds[1..]) {
        assert forall i :: 1 <= i < |cmds| ==> cmds[i] == cmds[1..][i - 1];
      }
      if answer(cmds[0]).Done? && AllDone(answer, cmds) {
        assert forall i :: 0 <= i < |cmds| - 1 ==> cmds[1..][i] == cmds[i + 1];
      }
    }
  }

  /** A failed chain ran a prefix of its steps; all of them succeeded but
      the last, whose error it returns. */
  lemma {:induction false} ChainStopsAtError(answer: Oracle, cmds: seq<Cmd>)
    requires Chain(answer, cmds).failure.Some?
    ensures 0 < |Chain(answer, cmds).trace| <= |cmds|
    ensures Chain(answer, cmds).trace == cmds[..|Chain(answer, cmds).trace|]
    ensures AllDone(answer, Chain(answer, cmds).trace[..|Chain(answer, cmds).trace| - 1])
    ensures answer(Chain(answer, cmds).trace[|Chain(answer, cmds).trace| - 1]).Failed?
    ensures Chain(answer, cmds).failure
         == Some(ErrorOf(answer(Chain(answer, cmds).trace[|Chain(answer, cmds).trace| - 1])))
  {
    if answer(cmds[0]).Done? {
      var rest := Chain(answer, cmds[1..]);
      ChainStopsAtError(answer, cmds[1..]);
      var t := [cmds[0]] + rest.trace;
      assert t == cmds[..|t|];
      assert t[..|t| - 1] == [cmds[0]] + rest.trace[..|rest.trace| - 1];
    }
  }

  /** Login and probe; the build chain only when the exit code the probe
      wrote is not exactly "0". */
  function Deliver(answer: Oracle, opts: PushOpts, id: HelmPublish.ChartId): (r: Run)
    ensures r.pushed ==> r.failure.None?
  {
    var login := Login(opts);
    if answer(login).Failed? then Run(false, Some(ErrorOf(answer(login))), [login])
    else
      var probe := Probe(opts, id);
      if answer(probe).Failed? then Run(false, Some(ErrorOf(answer(probe))), [login, probe])
      else if answer(probe).stdout == "0" then Run(false, None, [login, probe])
      else
        var built := Chain(answer, BuildCmds(opts, id));
        Run(built.failure.None?, built.failure, [login, probe] + built.trace)
  }

  /** The options `PackagePush` publishes with: always OCI. */
  function DaggerOpts(registry: string, repository: string, username: string): (r: PushOpts)
    ensures r.oci
    ensures r.registry == registry && r.repository == repository && r.username == username
  {
    PushOpts(registry, repository, true, username)
  }

  /** What `PackagePush` of helm/dagger/main.go does when the commands
      answer as `answer` says. */
  function Publish(answer: Oracle, registry: string, repository: string, username: string): (r: Run)
    ensures r.pushed ==> r.failure.None?
  {
    var meta := ReadIdentity(answer);
    match meta.result
    case Err(f) => Run(false, Some(f), meta.trace)
    case Ok(id) => HelmPublish.After(meta.trace, Deliver(answer, DaggerOpts(registry, repository, username), id))
  }

  /** The probe's answer, when the run gets that far. */
  function ProbeAnswer(answer: Oracle, registry: string, repository: string, username: string): Option<CmdResult> {
    var opts := DaggerOpts(registry, repository, username);
    var meta := ReadIdentity(answer);
    if meta.result.Err? || answer(Login(opts)).Failed? then None
    else Some(answer(Probe(opts, meta.result.value)))
  }

  /** A call returns "not pushed" without an error exactly when the probe
      wrote the exit code "0", and then it has built nothing: four commands
      were issued, none of them a build step. */
  lemma SkipExactlyOnZero(answer: Oracle, registry: string, repository: string, username: string)
    ensures var r := Publish(answer, registry, repository, username);
            (!r.pushed && r.failure.None?) <==> ProbeAnswer(answer, registry, repository, username) == Some(Done("0"))
    ensures var r := Publish(answer, registry, repository, username);
            !r.pushed && r.failure.None? ==> |r.trace| == 4 && HelmPublish.NoBuilds(r.trace)
  {
    var opts := DaggerOpts(registry, repository, username);
    var meta := ReadIdentity(answer);
    if meta.result.Ok? && answer(Login(opts)).Done? {
      var id := meta.result.value;
      var probe := Probe(opts, id);
      if answer(probe).Done? && answer(probe).stdout != "0" {
        ChainSucceeds(answer, BuildCmds(opts, id));
      }
    }
  }

  /** A call pushes exactly when the probe answered with anything but "0"
      and every build step succeeded; it then issued the reads, the login,
      the probe and the whole chain, ending with the push of
      `<name>-<version>.tgz` to the repository locator. */
  lemma PushesExactly(answer: Oracle, registry: string, repository: string, username: string)
    ensures var r := Publish(answer, registry, repository, username);
            var opts := DaggerOpts(registry, repository, username);
            var meta := ReadIdentity(answer);
            r.pushed <==> (match ProbeAnswer(answer, registry, repository, username)
                           case Some(Done(exitCode)) => exitCode != "0" && AllDone(answer, BuildCmds(opts, meta.result.value))
                           case _ => false)
    ensures var r := Publish(answer, registry, repository, username);
            var opts := DaggerOpts(registry, repository, username);
            var meta := ReadIdentity(answer);
            r.pushed ==> meta.result.Ok?
                         && r.trace == meta.trace + [Login(opts), Probe(opts, meta.result.value)]
                                       + BuildCmds(opts, meta.result.value)
  {
    var opts := DaggerOpts(registry, repository, username);
    var meta := ReadIdentity(answer);
    if meta.result.Ok? && answer(Login(opts)).Done? {
      var id := meta.result.value;
      var probe := Probe(opts, id);
      if answer(probe).Done? && answer(probe).stdout != "0" {
        ChainSucceeds(answer, BuildCmds(opts, id));
        assert meta.trace + ([Login(opts), probe] + BuildCmds(opts, id))
            == meta.trace + [Login(opts), probe] + BuildCmds(opts, id);
      }
    }
  }

  /** Every error is the error of the last command issued, which failed;
      a call that fails has not pushed. */
  lemma StopsAtFirstError(answer: Oracle, registry: string, repository: string, username: string)
    ensures var r := Publish(answer, registry, repository, username);
            r.failure.Some? ==> && !r.pushed && r.trace != []
                                && answer(r.trace[|r.trace| - 1]).Failed?
                                && r.failure == Some(Error(answer(r.trace[|r.trace| - 1]).message))
  {
    var opts := DaggerOpts(registry, repository, username);
    var meta := ReadIdentity(answer);
    if meta.result.Ok? && answer(Login(opts)).Done? {
      var id := meta.result.value;
      var probe := Probe(opts, id);
      if answer(probe).Done? && answer(probe).stdout != "0" {
        var built := Chain(answer, BuildCmds(opts, id));
        if built.failure.Some? {
          ChainStopsAtError(answer, BuildCmds(opts, id));
          var t := meta.trace + ([Login(opts), probe] + built.trace);
          assert t[|t| - 1] == built.trace[|built.trace| - 1];
        }
      }
    }
  }

  /** The version read back from a registry world: the chart's own. */
  lemma WorldIdentity(reg: HelmRegistry.Registry, chart: HelmPublish.ChartId, listing: string)
    requires Text.Trimmed(chart.name) && Text.Trimmed(chart.version)
    ensures ReadIdentity(HelmRegistry.World(reg, chart, listing)).result == Ok(chart)
  {
    var w := HelmRegistry.World(reg, chart, listing);
    assert w(ShowChartField(".name")) == Done([] + chart.name + "\n");
    assert w(ShowChartField(".version")) == Done([] + chart.version + "\n");
    HelmPublish.QueryReadsValue(w, ".name", [], chart.name, "\n");
    HelmPublish.QueryReadsValue(w, ".version", [], chart.version, "\n");
  }

  /** In a registry world the login and probe succeed and the chain runs
      exactly when the registry does not hold `id`, ending with its push. */
  lemma WorldDeliver(reg: HelmRegistry.Registry, chart: HelmPublish.ChartId, listing: string,
                     opts: PushOpts, id: HelmPublish.ChartId)
    ensures var r := Deliver(HelmRegistry.World(reg, chart, listing), opts, id);
            && r.failure.None?
            && (r.pushed <==> (ChartFqdn(opts, id.name), id.version) !in reg.charts)
            && (r.pushed ==> r.trace != []
                             && r.trace[|r.trace| - 1] == HelmPush(HelmProbe.PkgFile(id.name, id.version), RepoFqdn(opts)))
  {
    var w := HelmRegistry.World(reg, chart, listing);
    var cmds := BuildCmds(opts, id);
    assert AllDone(w, cmds) by {
      forall i | 0 <= i < |cmds|
        ensures w(cmds[i]).Done?
      {
      }
    }
    ChainSucceeds(w, cmds);
  }

  /** In a registry world a call never fails, and it pushes exactly when the
      registry does not hold the chart; its push is its last command. */
  lemma PublishesUnlessHeld(reg: HelmRegistry.Registry, chart: HelmPublish.ChartId, listing: string,
                            registry: string, repository: string, username: string)
    requires Text.Trimmed(chart.name) && Text.Trimmed(chart.version)
    ensures var r := Publish(HelmRegistry.World(reg, chart, listing), registry, repository, username);
            var opts := DaggerOpts(registry, repository, username);
            && r.failure.None?
            && (r.pushed <==> (ChartFqdn(opts, chart.name), chart.version) !in reg.charts)
            && (r.pushed ==> r.trace != []
                             && r.trace[|r.trace| - 1] == HelmPush(HelmProbe.PkgFile(chart.name, chart.version), RepoFqdn(opts)))
  {
    var w := HelmRegistry.World(reg, chart, listing);
    var opts := DaggerOpts(registry, repository, username);
    WorldIdentity(reg, chart, listing);
    var d := Deliver(w, opts, chart);
    WorldDeliver(reg, chart, listing, opts, chart);
    assert Publish(w, registry, repository, username) == HelmPublish.After(ReadIdentity(w).trace, d);
    if d.pushed {
      HelmPublish.LastOfAfter(ReadIdentity(w).trace, d);
    }
  }

  /** Publishing twice into a registry world: the second call never pushes,
      whatever the first did. */
  lemma PublishTwice(reg: HelmRegistry.Registry, chart: HelmPublish.ChartId, listing: string,
                     registry: string, repository: string, username: string)
    requires Text.Trimmed(chart.name) && Text.Trimmed(chart.version)
    ensures var first := Publish(HelmRegistry.World(reg, chart, listing), registry, repository, username);
            var reg2 := if first.pushed && first.trace != []
                        then HelmRegistry.Receive(reg, first.trace[|first.trace| - 1], chart) else reg;
            Publish(HelmRegistry.World(reg2, chart, listing), registry, repository, username)
              == Run(false, None, Publish(HelmRegistry.World(reg2, chart, listing), registry, repository, username).trace)
  {
    var first := Publish(HelmRegistry.World(reg, chart, listing), registry, repository, username);
    PublishesUnlessHeld(reg, chart, listing, registry, repository, username);
    var reg2 := if first.pushed && first.trace != []
                then HelmRegistry.Receive(reg, first.trace[|first.trace| - 1], chart) else reg;
    PublishesUnlessHeld(reg2, chart, listing, registry, repository, username);
  }

  /** `PackagePush`, step by step as the Go code runs it. */
  method PackagePush(answer: Oracle, registry: string, repository: string, username: string)
    returns (pushed: bool, failure: Option<Failure>, trace: seq<Cmd>)
    ensures Run(pushed, failure, trace) == Publish(answer, registry, repository, username)
  {
    var opts := PushOpts(registry, repository, true, username);
    trace := [ShowChartField(".version")];
    var version := HelmPublish.QueryChart(answer, ".version");
    if version.Err? {
      return false, Some(version.failure), trace;
    }
    trace := trace + [ShowChartField(".name")];
    var name := HelmPublish.QueryChart(answer, ".name");
    if name.Err? {
      return false, Some(name.failure), trace;
    }
    assert ReadIdentity(answer) == HelmPublish.Meta(Ok(HelmPublish.ChartId(name.value, version.value)), trace);
    pushed, failure, trace := LogInAndProbe(answer, opts, name.value, version.value, trace);
  }

  /** The part of `PackagePush` from the login on, appended to `done`. */
  method LogInAndProbe(answer: Oracle, opts: PushOpts, name: string, version: string, done: seq<Cmd>)
    returns (pushed: bool, failure: Option<Failure>, trace: seq<Cmd>)
    requires opts.oci
    ensures Run(pushed, failure, trace) == HelmPublish.After(done, Deliver(answer, opts, HelmPublish.ChartId(name, version)))
  {
    var login := RegistryLogin(opts.registry, opts.username, true);
    trace := done + [login];
    var loggedIn := answer(login);
    if loggedIn.Failed? {
      return false, Some(ErrorOf(loggedIn)), trace;
    }
    pushed, failure, trace := ProbeAndSync(answer, opts, name, version, done);
  }

  /** The probe, and the build chain when the probe did not find the chart,
      once the login succeeded. */
  method ProbeAndSync(answer: Oracle, opts: PushOpts, name: string, version: string, done: seq<Cmd>)
    returns (pushed: bool, failure: Option<Failure>, trace: seq<Cmd>)
    requires opts.oci && answer(Login(opts)).Done?
    ensures Run(pushed, failure, trace) == HelmPublish.After(done, Deliver(answer, opts, HelmPublish.ChartId(name, version)))
  {
    ghost var id := HelmPublish.ChartId(name, version);
    DeliverAfterLogin(answer, opts, id);
    var login := Login(opts);
    var probe := ShowRemoteChart(ChartFqdn(opts, name), version);
    trace := done + [login, probe];
    var exitCode := answer(probe);
    if exitCode.Failed? {
      return false, Some(ErrorOf(exitCode)), trace;
    }
    if exitCode.stdout == "0" {
      return false, None, trace;
    }

    failure, trace := SyncBuild(answer, opts, name, version, trace);
    pushed := failure.None?;
    SyncedDelivery(answer, opts, id, done, failure, trace);
  }

  /** The run after a probe that did not find the chart, from what the
      build chain returned. */
  lemma SyncedDelivery(answer: Oracle, opts: PushOpts, id: HelmPublish.ChartId, done: seq<Cmd>,
                       failure: Option<Failure>, trace: seq<Cmd>)
    requires answer(Login(opts)).Done? && answer(Probe(opts, id)).Done? && answer(Probe(opts, id)).stdout != "0"
    requires var built := Chain(answer, BuildCmds(opts, id));
             failure == built.failure && trace == done + [Login(opts), Probe(opts, id)] + built.trace
    ensures Run(failure.None?, failure, trace) == HelmPublish.After(done, Deliver(answer, opts, id))
  {
    var built := Chain(answer, BuildCmds(opts, id));
    DeliverAfterLogin(answer, opts, id);
    assert trace == done + ([Login(opts), Probe(opts, id)] + built.trace);
  }

  /** `Deliver` once the login succeeded, case by case on the probe. */
  lemma DeliverAfterLogin(answer: Oracle, opts: PushOpts, id: HelmPublish.ChartId)
    requires answer(Login(opts)).Done?
    ensures var probe := Probe(opts, id);
            answer(probe).Failed? ==> Deliver(answer, opts, id) == Run(false, Some(ErrorOf(answer(probe))), [Login(opts), probe])
    ensures var probe := Probe(opts, id);
            answer(probe) == Done("0") ==> Deliver(answer, opts, id) == Run(false, None, [Login(opts), probe])
    ensures var probe := Probe(opts, id);
            var built := Chain(answer, BuildCmds(opts, id));
            answer(probe).Done? && answer(probe).stdout != "0" ==>
              Deliver(answer, opts, id) == Run(built.failure.None?, built.failure, [Login(opts), probe] + built.trace)
  {
  }

  /** A chain runs its first step, then the rest unless that step failed. */
  lemma ChainFirst(answer: Oracle, c: Cmd, rest: seq<Cmd>)
    ensures answer(c).Failed? ==> Chain(answer, [c] + rest) == Steps(Some(ErrorOf(answer(c))), [c])
    ensures answer(c).Done? ==> Chain(answer, [c] + rest)
                                == Steps(Chain(answer, rest).failure, [c] + Chain(answer, rest).trace)
  {
    assert ([c] + rest)[1..] == rest;
  }

  /** The chain after a negative probe: dependency update, package, `ls` and
      push, synchronised once; appended to `done`. */
  method SyncBuild(answer: Oracle, opts: PushOpts, name: string, version: string, done: seq<Cmd>)
    returns (failure: Option<Failure>, trace: seq<Cmd>)
    ensures var built := Chain(answer, BuildCmds(opts, HelmPublish.ChartId(name, version)));
            failure == built.failure && trace == done + built.trace
  {
    var push := HelmPush(HelmProbe.PkgFile(name, version), RepoFqdn(opts));
    ghost var steps := BuildCmds(opts, HelmPublish.ChartId(name, version));
    ChainFirst(answer, DependencyUpdate, [Package(["helm", "package", "."]), ListFiles, push]);
    ChainFirst(answer, Package(["helm", "package", "."]), [ListFiles, push]);
    ChainFirst(answer, ListFiles, [push]);
    ChainFirst(answer, push, []);
    assert steps == [DependencyUpdate] + [Package(["helm", "package", "."]), ListFiles, push];
    trace := done + [DependencyUpdate];
    var r := answer(DependencyUpdate);
    if r.Failed? {
      return Some(ErrorOf(r)), trace;
    }
    trace := trace + [Package(["helm", "package", "."])];
    r := answer(Package(["helm", "package", "."]));
    if r.Failed? {
      return Some(ErrorOf(r)), trace;
    }
    trace := trace + [ListFiles];
    r := answer(ListFiles);
    if r.Failed? {
      return Some(ErrorOf(r)), trace;
    }
    trace := trace + [push];
    r := answer(push);
    if r.Failed? {
      return Some(ErrorOf(r)), trace;
    }
    return None, trace;
  }
}
