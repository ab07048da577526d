/** The publish decision procedure of helm/main.go (`PackagePush`): read
    the chart's name and version, log in, probe the registry, stop if the
    chart is there, otherwise resolve missing dependencies, package and
    upload. */
module HelmPublish {
  import opened Options
  import opened Text
  import opened Exec
  import opened HelmOpts
  import opened HelmDeps
  import opened HelmProbe

  /** A published chart version: what a registry holds. */
  datatype ChartId = ChartId(name: string, version: string)

  /** `queryChartWithYq`: the trimmed answer of one manifest query, or its
      error. */
  function QueryChart(answer: Oracle, query: string): (r: Result<string>)
    ensures r.Err? <==> answer(ShowChartField(query)).Failed?
    ensures r.Err? ==> r.failure == Error(answer(ShowChartField(query)).message)
  {
    match answer(ShowChartField(query))
    case Failed(message) => Err(Error(message))
    case Done(out) => Ok(TrimSpace(out))
  }

  /** A manifest value printed with white space around it reads back as
      itself. */
  lemma QueryReadsValue(answer: Oracle, query: string, pre: string, value: string, post: string)
    requires AllSpace(pre) && AllSpace(post)
    requires Trimmed(value)
    requires answer(ShowChartField(query)) == Done(pre + value + post)
    ensures QueryChart(answer, query) == Ok(value)
  {
    TrimSpacePadded(pre, value, post);
  }

  /** The outcome of reading the chart's identity, and the queries issued. */
  datatype Meta = Meta(result: Result<ChartId>, trace: seq<Cmd>)

  /** Reads the name, then the version unless the caller overrides it. */
  function ReadMetadata(answer: Oracle, opts: PushOpts): (m: Meta)
    ensures m.result.Ok? ==> QueryChart(answer, ".name") == Ok(m.result.value.name)
    ensures m.result.Ok? && opts.version != "" ==> m.result.value.version == opts.version
    ensures m.result.Ok? && opts.version == "" ==> QueryChart(answer, ".version") == Ok(m.result.value.version)
    ensures m.trace == if opts.version == "" && QueryChart(answer, ".name").Ok?
                       then [ShowChartField(".name"), ShowChartField(".version")]
                       else [ShowChartField(".name")]
  {
    var name := QueryChart(answer, ".name");
    if name.Err? then Meta(Err(name.failure), [ShowChartField(".name")])
    else if opts.version != "" then Meta(Ok(ChartId(name.value, opts.version)), [ShowChartField(".name")])
    else
      var version := QueryChart(answer, ".version");
      var trace := [ShowChartField(".name"), ShowChartField(".version")];
      if version.Err? then Meta(Err(version.failure), trace)
      else Meta(Ok(ChartId(name.value, version.value)), trace)
  }

  /** The login to the target registry, in the repository's mode: the
      registry host alone, not the repository locator, as the caller. */
  function MainLogin(opts: PushOpts): (r: Cmd)
    ensures r.RegistryLogin? && r.url == opts.registry
    ensures r.username == opts.username && r.oci == opts.oci
  {
    RegistryLogin(opts.registry, opts.username, opts.oci)
  }

  /** The upload: `helm push` to the repository locator, or a `curl -T` to
      the repository locator with a trailing '/' (no subpath). */
  function UploadCmd(opts: PushOpts, pkgFile: string): (r: Cmd)
    ensures r.HelmPush? <==> opts.oci
    ensures r.HelmPush? || r.Upload?
    ensures r.pkgFile == pkgFile
    ensures opts.oci ==> r.target == RepoFqdn(opts)
    ensures !opts.oci ==> r.url == RepoFqdn(opts) + "/" && r.username == opts.username
  {
    if opts.oci then HelmPush(pkgFile, RepoFqdn(opts))
    else Upload(pkgFile, RepoFqdn(opts) + "/", opts.username)
  }

  /** `prefix` issued before the run `r`. */
  function After(prefix: seq<Cmd>, r: Run): Run {
    Run(r.pushed, r.failure, prefix + r.trace)
  }

  /** `Publish` as the metadata stage followed by `Deliver`. */
  lemma PublishStages(answer: Oracle, a: PushArgs)
    ensures var opts := NormalizeOpts(a);
            var meta := ReadMetadata(answer, opts);
            Publish(answer, a) == match meta.result
                                  case Err(f) => Run(false, Some(f), meta.trace)
                                  case Ok(id) => After(meta.trace, Deliver(answer, opts, id))
  {
  }

  lemma Regroup(a: seq<Cmd>, b: seq<Cmd>, c: seq<Cmd>, d: seq<Cmd>)
    ensures a + (b + (c + d)) == a + b + c + d
  {
  }

  lemma AfterAfter(first: seq<Cmd>, second: seq<Cmd>, r: Run)
    ensures After(first, After(second, r)) == After(first + second, r)
  {
    assert first + (second + r.trace) == (first + second) + r.trace;
  }

  /** Packaging and uploading. */
  function Ship(answer: Oracle, opts: PushOpts, id: ChartId): (r: Run)
    ensures r.pushed <==> r.failure.None?
  {
    var pkg := Package(PackageArgs(opts));
    if answer(pkg).Failed? then Run(false, Some(ErrorOf(answer(pkg))), [pkg])
    else
      var upload := UploadCmd(opts, PkgFile(id.name, id.version));
      if answer(upload).Failed? then Run(false, Some(ErrorOf(answer(upload))), [pkg, upload])
      else Run(true, None, [pkg, upload])
  }

  /** Dependency resolution: list the dependencies and, when some are
      missing, log into their repositories and update them. */
  function Resolve(answer: Oracle, opts: PushOpts): (r: Steps)
    ensures r.trace != [] && r.trace[0] == DependencyList
  {
    var listing := answer(DependencyList);
    if listing.Failed? then Steps(Some(ErrorOf(listing)), [DependencyList])
    else if !HasMissingDependencies(listing.stdout) then Steps(None, [DependencyList])
    else
      var setup := DependencySetup(answer, opts.username, opts.oci, RepoFqdn(opts));
      var resolved := [DependencyList] + setup.trace;
      if setup.failure.Some? then Steps(setup.failure, resolved)
      else if answer(DependencyUpdate).Failed? then
        Steps(Some(ErrorOf(answer(DependencyUpdate))), resolved + [DependencyUpdate])
      else Steps(None, resolved + [DependencyUpdate])
  }

  /** Dependency resolution, then packaging and uploading. */
  function Build(answer: Oracle, opts: PushOpts, id: ChartId): (r: Run)
    ensures r.pushed <==> r.failure.None?
  {
    var resolved := Resolve(answer, opts);
    if resolved.failure.Some? then Run(false, resolved.failure, resolved.trace)
    else After(resolved.trace, Ship(answer, opts, id))
  }

  /** Login and probe; the build only when the probe says the chart is
      absent. */
  function Deliver(answer: Oracle, opts: PushOpts, id: ChartId): (r: Run)
    ensures r.pushed ==> r.failure.None?
  {
    var login := MainLogin(opts);
    if answer(login).Failed? then Run(false, Some(ErrorOf(answer(login))), [login])
    else
      var probe := ProbeCmd(opts, id.name, id.version);
      match ProbeVerdict(opts.oci, answer(probe))
      case Err(f) => Run(false, Some(f), [login, probe])
      case Ok(present) =>
        if present then Run(false, None, [login, probe])
        else After([login, probe], Build(answer, opts, id))
  }

  /** What `PackagePush` does with the arguments `a` when the commands
      answer as `answer` says. */
  function Publish(answer: Oracle, a: PushArgs): (r: Run)
    ensures r.pushed ==> r.failure.None?
  {
    var opts := NormalizeOpts(a);
    var meta := ReadMetadata(answer, opts);
    match meta.result
    case Err(f) => Run(false, Some(f), meta.trace)
    case Ok(id) => After(meta.trace, Deliver(answer, opts, id))
  }

  /** The probe's reading, once the metadata has been read and the login
      succeeded; `None` when the run stops before the probe. */
  function ProbeOutcome(answer: Oracle, a: PushArgs): Option<Result<bool>> {
    var opts := NormalizeOpts(a);
    var meta := ReadMetadata(answer, opts);
    if meta.result.Err? || answer(MainLogin(opts)).Failed? then None
    else Some(ProbeVerdict(opts.oci, answer(ProbeCmd(opts, meta.result.value.name, meta.result.value.version))))
  }

  predicate NoBuilds(trace: seq<Cmd>) {
    forall c :: c in trace ==> !Builds(c)
  }

  /** The two shapes the metadata queries take. */
  predicate MetaTrace(t: seq<Cmd>) {
    t == [ShowChartField(".name")] || t == [ShowChartField(".name"), ShowChartField(".version")]
  }

  lemma ReadMetadataTrace(answer: Oracle, opts: PushOpts)
    ensures MetaTrace(ReadMetadata(answer, opts).trace)
  {
  }

  /** Metadata queries, a login and a probe build nothing. */
  lemma NoBuildsBeforeDecision(t: seq<Cmd>, rest: seq<Cmd>, opts: PushOpts, id: ChartId)
    requires MetaTrace(t)
    requires rest == [] || rest == [MainLogin(opts)] || rest == [MainLogin(opts), ProbeCmd(opts, id.name, id.version)]
    ensures NoBuilds(t + rest)
  {
  }

  /** A run that ends with neither a push nor an error is one whose probe
      found the chart, and the other way round. */
  lemma SkipExactlyWhenPresent(answer: Oracle, a: PushArgs)
    ensures var r := Publish(answer, a);
            (r.failure.None? && !r.pushed) <==> ProbeOutcome(answer, a) == Some(Ok(true))
  {
  }

  /** When the probe finds the chart the run issues the metadata queries,
      the login and the probe, and nothing else. */
  lemma SkipTrace(answer: Oracle, a: PushArgs)
    requires ProbeOutcome(answer, a) == Some(Ok(true))
    ensures var opts := NormalizeOpts(a);
            var meta := ReadMetadata(answer, opts);
            Publish(answer, a)
              == Run(false, None, meta.trace + [MainLogin(opts), ProbeCmd(opts, meta.result.value.name, meta.result.value.version)])
  {
  }

  /** Nothing is resolved, packaged or uploaded unless the probe reported
      the chart absent. */
  lemma BuildsOnlyWhenAbsent(answer: Oracle, a: PushArgs)
    ensures !NoBuilds(Publish(answer, a).trace) ==> ProbeOutcome(answer, a) == Some(Ok(false))
  {
    var opts := NormalizeOpts(a);
    var meta := ReadMetadata(answer, opts);
    var r := Publish(answer, a);
    ReadMetadataTrace(answer, opts);
    if meta.result.Err? {
      assert r.trace == meta.trace + [];
      NoBuildsBeforeDecision(meta.trace, [], opts, ChartId("", ""));
    } else {
      var id := meta.result.value;
      var login := MainLogin(opts);
      var probe := ProbeCmd(opts, id.name, id.version);
      if answer(login).Failed? {
        assert r.trace == meta.trace + [login];
        NoBuildsBeforeDecision(meta.trace, [login], opts, id);
      } else if ProbeVerdict(opts.oci, answer(probe)) != Ok(false) {
        assert r.trace == meta.trace + [login, probe];
        NoBuildsBeforeDecision(meta.trace, [login, probe], opts, id);
      }
    }
  }

  /** A run that pushes went through every step: the probe found the chart
      absent, dependency resolution succeeded, and the run ends by packaging
      and then uploading `<name>-<version>.tgz`. */
  lemma PushedTrace(answer: Oracle, a: PushArgs)
    requires Publish(answer, a).pushed
    ensures ProbeOutcome(answer, a) == Some(Ok(false))
    ensures var opts := NormalizeOpts(a);
            var meta := ReadMetadata(answer, opts);
            var id := meta.result.value;
            Resolve(answer, opts).failure.None?
            && Publish(answer, a).trace
               == meta.trace + [MainLogin(opts), ProbeCmd(opts, id.name, id.version)] + Resolve(answer, opts).trace
                  + [Package(PackageArgs(opts)), UploadCmd(opts, PkgFile(id.name, id.version))]
  {
    var opts := NormalizeOpts(a);
    var meta := ReadMetadata(answer, opts);
    var id := meta.result.value;
    var login := MainLogin(opts);
    var probe := ProbeCmd(opts, id.name, id.version);
    var r := Publish(answer, a);
    assert meta.result.Ok?;
    var d := Deliver(answer, opts, id);
    assert r == After(meta.trace, d);
    assert answer(login).Done?;
    var verdict := ProbeVerdict(opts.oci, answer(probe));
    assert verdict == Ok(false);
    var b := Build(answer, opts, id);
    assert d == After([login, probe], b);
    var resolved := Resolve(answer, opts);
    assert resolved.failure.None?;
    var ship := Ship(answer, opts, id);
    assert b == After(resolved.trace, ship);
    assert ship.trace == [Package(PackageArgs(opts)), UploadCmd(opts, PkgFile(id.name, id.version))];
    Regroup(meta.trace, [login, probe], resolved.trace, ship.trace);
  }

  /** Whether a successful dependency phase updated dependencies. */
  lemma ResolveUpdatesIffMissing(answer: Oracle, opts: PushOpts)
    requires Resolve(answer, opts).failure.None?
    ensures DependencyUpdate in Resolve(answer, opts).trace <==> HasMissingDependencies(answer(DependencyList).stdout)
  {
    var r := Resolve(answer, opts);
    if HasMissingDependencies(answer(DependencyList).stdout) {
      assert r.trace[|r.trace| - 1] == DependencyUpdate;
    } else {
      assert r.trace == [DependencyList];
    }
  }

  /** `DependencyUpdate` occurs in `t + middle + rest` exactly when it occurs
      in `middle`, for the fixed commands around it. */
  lemma UpdateOnlyInMiddle(t: seq<Cmd>, rest: seq<Cmd>, middle: seq<Cmd>, tail: seq<Cmd>, opts: PushOpts, id: ChartId)
    requires MetaTrace(t)
    requires rest == [MainLogin(opts), ProbeCmd(opts, id.name, id.version)]
    requires tail == [Package(PackageArgs(opts)), UploadCmd(opts, PkgFile(id.name, id.version))]
    ensures DependencyUpdate in t + rest + middle + tail <==> DependencyUpdate in middle
  {
    var whole := t + rest + middle + tail;
    if DependencyUpdate in whole {
      var k :| 0 <= k < |whole| && whole[k] == DependencyUpdate;
      assert whole[k] in middle by {
        assert |t + rest| <= k < |t + rest| + |middle|;
        assert whole[k] == middle[k - |t + rest|];
      }
    }
    if DependencyUpdate in middle {
      var k :| 0 <= k < |middle| && middle[k] == DependencyUpdate;
      assert whole[|t + rest| + k] == DependencyUpdate;
    }
  }

  /** A pushed run ran `helm dependency update` exactly when `helm
      dependency list` reported something missing. */
  lemma DependencyUpdateIffMissing(answer: Oracle, a: PushArgs)
    requires Publish(answer, a).pushed
    ensures DependencyUpdate in Publish(answer, a).trace <==> HasMissingDependencies(answer(DependencyList).stdout)
  {
    var opts := NormalizeOpts(a);
    var meta := ReadMetadata(answer, opts);
    var id := meta.result.value;
    PushedTrace(answer, a);
    ReadMetadataTrace(answer, opts);
    ResolveUpdatesIffMissing(answer, opts);
    UpdateOnlyInMiddle(meta.trace, [MainLogin(opts), ProbeCmd(opts, id.name, id.version)], Resolve(answer, opts).trace,
                       [Package(PackageArgs(opts)), UploadCmd(opts, PkgFile(id.name, id.version))], opts, id);
  }

  /** Once `helm dependency list` answers, the dependency repositories are
      listed (and so logged into) exactly when the listing reports
      something missing, and no update runs otherwise. */
  lemma ResolveSetsUpIffMissing(answer: Oracle, opts: PushOpts)
    requires answer(DependencyList).Done?
    ensures DependencyRepositories in Resolve(answer, opts).trace <==> HasMissingDependencies(answer(DependencyList).stdout)
    ensures DependencyUpdate in Resolve(answer, opts).trace ==> HasMissingDependencies(answer(DependencyList).stdout)
  {
    var r := Resolve(answer, opts);
    if HasMissingDependencies(answer(DependencyList).stdout) {
      assert r.trace[1] == DependencyRepositories;
    } else {
      assert r.trace == [DependencyList];
    }
  }

  /** A run whose probe found the chart absent sets up the dependencies
      (lists their repositories and logs into them) exactly when `helm
      dependency list` reports something missing, and updates them only
      then. */
  lemma DependencySetupIffMissing(answer: Oracle, a: PushArgs)
    requires ProbeOutcome(answer, a) == Some(Ok(false))
    requires answer(DependencyList).Done?
    ensures DependencyRepositories in Publish(answer, a).trace <==> HasMissingDependencies(answer(DependencyList).stdout)
    ensures DependencyUpdate in Publish(answer, a).trace ==> HasMissingDependencies(answer(DependencyList).stdout)
  {
    var opts := NormalizeOpts(a);
    var meta := ReadMetadata(answer, opts);
    var id := meta.result.value;
    var login := MainLogin(opts);
    var probe := ProbeCmd(opts, id.name, id.version);
    var b := Build(answer, opts, id);
    assert meta.result.Ok? && answer(login).Done?;
    assert ProbeVerdict(opts.oci, answer(probe)) == Ok(false);
    assert Deliver(answer, opts, id) == After([login, probe], b);
    PublishStages(answer, a);
    AfterAfter(meta.trace, [login, probe], b);
    ReadMetadataTrace(answer, opts);
    NoBuildsBeforeDecision(meta.trace, [login, probe], opts, id);
    BuildSetsUpIffMissing(answer, opts, id);
  }

  /** The same for the build stage alone. */
  lemma BuildSetsUpIffMissing(answer: Oracle, opts: PushOpts, id: ChartId)
    requires answer(DependencyList).Done?
    ensures DependencyRepositories in Build(answer, opts, id).trace <==> HasMissingDependencies(answer(DependencyList).stdout)
    ensures DependencyUpdate in Build(answer, opts, id).trace ==> HasMissingDependencies(answer(DependencyList).stdout)
  {
    var resolved := Resolve(answer, opts);
    ResolveSetsUpIffMissing(answer, opts);
    if resolved.failure.None? {
      assert Build(answer, opts, id).trace == resolved.trace + Ship(answer, opts, id).trace;
    }
  }

  /** How a command can end a run with the error `message`: it failed with
      that message, or it is a legacy probe whose status was unexpected. */
  predicate FailedWith(answer: Oracle, c: Cmd, message: string) {
    answer(c) == Failed(message)
    || (c.HeadRequest? && answer(c).Done? && message == StatusMessage(TrimSpace(answer(c).stdout)))
  }

  /** Every step stops the run at its first error: the error comes from the
      last command issued. */
  lemma ShipStopsAtError(answer: Oracle, opts: PushOpts, id: ChartId)
    ensures var r := Ship(answer, opts, id);
            r.failure.Some? ==> r.failure.value.Error? && r.trace != [] && FailedWith(answer, r.trace[|r.trace| - 1], r.failure.value.message)
  {
  }

  lemma ResolveStopsAtError(answer: Oracle, opts: PushOpts)
    ensures var r := Resolve(answer, opts);
            r.failure.Some? && r.failure.value.Error? ==> FailedWith(answer, r.trace[|r.trace| - 1], r.failure.value.message)
  {
    var r := Resolve(answer, opts);
    var listing := answer(DependencyList);
    if listing.Done? && HasMissingDependencies(listing.stdout) {
      var setup := DependencySetup(answer, opts.username, opts.oci, RepoFqdn(opts));
      if setup.failure.Some? && setup.failure.value.Error? {
        assert r.trace == [DependencyList, DependencyRepositories];
      }
    }
  }

  lemma LastOfAfter(prefix: seq<Cmd>, r: Run)
    requires r.trace != []
    ensures After(prefix, r).trace[|After(prefix, r).trace| - 1] == r.trace[|r.trace| - 1]
  {
  }

  lemma BuildStopsAtError(answer: Oracle, opts: PushOpts, id: ChartId)
    ensures var r := Build(answer, opts, id);
            r.failure.Some? && r.failure.value.Error? ==> FailedWith(answer, r.trace[|r.trace| - 1], r.failure.value.message)
  {
    var resolved := Resolve(answer, opts);
    if resolved.failure.None? {
      ShipStopsAtError(answer, opts, id);
      var ship := Ship(answer, opts, id);
      assert Build(answer, opts, id) == After(resolved.trace, ship);
      if ship.failure.Some? {
        LastOfAfter(resolved.trace, ship);
      }
    } else {
      ResolveStopsAtError(answer, opts);
      assert Build(answer, opts, id) == Run(false, resolved.failure, resolved.trace);
    }
  }

  lemma DeliverStopsAtError(answer: Oracle, opts: PushOpts, id: ChartId)
    ensures var r := Deliver(answer, opts, id);
            r.failure.Some? && r.failure.value.Error? ==> FailedWith(answer, r.trace[|r.trace| - 1], r.failure.value.message)
  {
    var login := MainLogin(opts);
    var probe := ProbeCmd(opts, id.name, id.version);
    if answer(login).Done? && ProbeVerdict(opts.oci, answer(probe)) == Ok(false) {
      var b := Build(answer, opts, id);
      BuildStopsAtError(answer, opts, id);
      if b.failure.Some? {
        LastOfAfter([login, probe], b);
      }
    }
  }

  /** Any error a publish run returns is the error of the last command it
      issued: nothing runs after a failing step. */
  lemma StopsAtFirstError(answer: Oracle, a: PushArgs)
    ensures var r := Publish(answer, a);
            r.failure.Some? && r.failure.value.Error? ==>
              !r.pushed && r.trace != [] && FailedWith(answer, r.trace[|r.trace| - 1], r.failure.value.message)
  {
    var opts := NormalizeOpts(a);
    var meta := ReadMetadata(answer, opts);
    PublishStages(answer, a);
    if meta.result.Ok? {
      var d := Deliver(answer, opts, meta.result.value);
      DeliverStopsAtError(answer, opts, meta.result.value);
      if d.failure.Some? {
        LastOfAfter(meta.trace, d);
      }
    }
  }

  /** Two worlds that answer every command alike except registry logins
      other than `login`. */
  ghost predicate DifferOnlyInLogins(answer1: Oracle, answer2: Oracle, login: Cmd) {
    forall c :: answer1(c) != answer2(c) ==> c.RegistryLogin? && c != login
  }

  lemma DeliverIgnoresLoginAnswers(answer1: Oracle, answer2: Oracle, opts: PushOpts, id: ChartId)
    requires DifferOnlyInLogins(answer1, answer2, MainLogin(opts))
    ensures Deliver(answer1, opts, id) == Deliver(answer2, opts, id)
  {
    var probe := ProbeCmd(opts, id.name, id.version);
    assert answer1(MainLogin(opts)) == answer2(MainLogin(opts));
    assert answer1(probe) == answer2(probe);
    assert answer1(DependencyList) == answer2(DependencyList);
    assert answer1(DependencyRepositories) == answer2(DependencyRepositories);
    LoginAnswersIgnored(answer1, answer2, opts.username, opts.oci, RepoFqdn(opts));
    assert answer1(DependencyUpdate) == answer2(DependencyUpdate);
    assert Resolve(answer1, opts) == Resolve(answer2, opts);
    var pkg := Package(PackageArgs(opts));
    var upload := UploadCmd(opts, PkgFile(id.name, id.version));
    assert answer1(pkg) == answer2(pkg);
    assert answer1(upload) == answer2(upload);
    assert Ship(answer1, opts, id) == Ship(answer2, opts, id);
  }

  /** The answers to the dependency logins never change a run: two worlds
      that differ only in how those logins go give the same run. (The loop
      drops each login's error and re-checks a stale one.) */
  lemma DependencyLoginAnswersIgnored(answer1: Oracle, answer2: Oracle, a: PushArgs)
    requires DifferOnlyInLogins(answer1, answer2, MainLogin(NormalizeOpts(a)))
    ensures Publish(answer1, a) == Publish(answer2, a)
  {
    var opts := NormalizeOpts(a);
    assert answer1(ShowChartField(".name")) == answer2(ShowChartField(".name"));
    assert answer1(ShowChartField(".version")) == answer2(ShowChartField(".version"));
    assert ReadMetadata(answer1, opts) == ReadMetadata(answer2, opts);
    var meta := ReadMetadata(answer1, opts);
    PublishStages(answer1, a);
    PublishStages(answer2, a);
    if meta.result.Ok? {
      DeliverIgnoresLoginAnswers(answer1, answer2, opts, meta.result.value);
    }
  }

  /** A legacy repository is probed under the subpath but uploaded to
      without it: the two locations agree exactly when there is no
      subpath. */
  lemma UploadIgnoresSubpath(opts: PushOpts, name: string, version: string)
    requires !opts.oci
    ensures var pkgFile := PkgFile(name, version);
            var probe := ProbeCmd(opts, name, version);
            var upload := UploadCmd(opts, pkgFile);
            && probe.url == upload.url + (if opts.nonOciSubpath == "" then "" else opts.nonOciSubpath + "/") + pkgFile
            && (probe.url == upload.url + pkgFile <==> opts.nonOciSubpath == "")
  {
    var pkgFile := PkgFile(name, version);
    var base := RepoFqdn(opts);
    if opts.nonOciSubpath != "" {
      assert ProbeCmd(opts, name, version).url == base + "/" + opts.nonOciSubpath + "/" + pkgFile;
      assert |base + "/" + opts.nonOciSubpath + "/" + pkgFile| > |base + "/" + pkgFile|;
    }
  }

  /** With the target repository as the one already logged into, a
      dependency repository is logged into exactly when the target's
      protocol does not contain the dependency's scheme, lower-cased:
      the hosts play no part. */
  lemma DependencyLoginByScheme(opts: PushOpts, scheme: string, host: string)
    requires scheme != [] && !IsSpace(scheme[0]) && ':' !in scheme
    ensures RepositoriesAreNotEquivalent(RepoFqdn(opts), scheme + "://" + host)
         == Some(!Contains(Protocol(opts), ToLower(scheme)))
  {
    RepoFqdnScheme(opts);
    NormalizeScheme(scheme, host);
  }

  /** So an OCI publish never logs into any `oci://` dependency registry,
      whatever its host. */
  lemma OciPublishSkipsOciDependencies(opts: PushOpts, host: string)
    requires opts.oci
    ensures RepositoriesAreNotEquivalent(RepoFqdn(opts), "oci://" + host) == Some(false)
  {
    var scheme := Protocol(opts);
    assert scheme + "://" + host == "oci://" + host;
    DependencyLoginByScheme(opts, scheme, host);
    ToLowerKeeps(scheme);
    ContainsItself(scheme);
  }

  /** And a legacy (`https`) publish never logs into any `http://`
      dependency repository either, since "https" contains "http". */
  lemma HttpsPublishSkipsHttpDependencies(opts: PushOpts, host: string)
    requires !opts.oci
    ensures RepositoriesAreNotEquivalent(RepoFqdn(opts), "http://" + host) == Some(false)
  {
    var scheme := "http";
    assert scheme + "://" + host == "http://" + host;
    assert ':' !in scheme && !IsSpace(scheme[0]);
    DependencyLoginByScheme(opts, scheme, host);
    HttpsContainsHttp();
  }

  /** "https" contains "http", which lower-cases to itself. */
  lemma HttpsContainsHttp()
    ensures ToLower("http") == "http" && Contains("https", "http")
  {
    ToLowerKeeps("http");
    assert OccursAt("https", "http", 0);
    ContainsOccurs("https", "http");
  }

  /** `PackagePush`, step by step as the Go code runs it. */
  method PackagePush(answer: Oracle, registry: string, repository: string, username: string,
                     useNonOciHelmRepo: bool, nonOciRepoSubpath: string,
                     setVersionTo: string, setAppVersionTo: string)
    returns (pushed: bool, failure: Option<Failure>, trace: seq<Cmd>)
    ensures Run(pushed, failure, trace)
         == Publish(answer, PushArgs(registry, repository, username, useNonOciHelmRepo,
                                     nonOciRepoSubpath, setVersionTo, setAppVersionTo))
  {
    ghost var args := PushArgs(registry, repository, username, useNonOciHelmRepo,
                               nonOciRepoSubpath, setVersionTo, setAppVersionTo);
    var useNonOci := useNonOciHelmRepo;
    var subpath := nonOciRepoSubpath;
    if subpath != "" {
      useNonOci := true;
      if subpath[0] == '/' {
        subpath := subpath[1..];
      }
    }
    var opts := PushOpts(registry, repository, !useNonOci, subpath, username, setVersionTo, setAppVersionTo);
    assert opts == NormalizeOpts(args);
    ghost var meta := ReadMetadata(answer, opts);
    PublishStages(answer, args);

    trace := [ShowChartField(".name")];
    var name := QueryChart(answer, ".name");
    if name.Err? {
      return false, Some(name.failure), trace;
    }
    var version := opts.version;
    if version == "" {
      trace := trace + [ShowChartField(".version")];
      var manifestVersion := QueryChart(answer, ".version");
      if manifestVersion.Err? {
        return false, Some(manifestVersion.failure), trace;
      }
      version := manifestVersion.value;
    }
    assert meta.result == Ok(ChartId(name.value, version));
    assert meta.trace == trace;
    pushed, failure, trace := LogInAndDeliver(answer, opts, name.value, version, useNonOci, trace);
  }

  /** The part of `PackagePush` from the login on, once the chart's name
      and version are known. */
  method LogInAndDeliver(answer: Oracle, opts: PushOpts, name: string, version: string,
                         useNonOci: bool, done: seq<Cmd>)
    returns (pushed: bool, failure: Option<Failure>, trace: seq<Cmd>)
    requires useNonOci == !opts.oci
    ensures Run(pushed, failure, trace) == After(done, Deliver(answer, opts, ChartId(name, version)))
  {
    var login := MainLogin(opts);
    trace := done + [login];
    var loggedIn := answer(login);
    if loggedIn.Failed? {
      assert Deliver(answer, opts, ChartId(name, version)) == Run(false, Some(ErrorOf(loggedIn)), [login]);
      return false, Some(ErrorOf(loggedIn)), trace;
    }

    var chartExists, probeFailure, probe := DoesChartExistOnRepo(answer, opts, name, version);
    ghost var verdict := ProbeVerdict(opts.oci, answer(probe));
    trace := trace + [probe];
    if probeFailure.Some? {
      assert verdict == Err(probeFailure.value);
      return false, probeFailure, trace;
    }
    if chartExists {
      assert verdict == Ok(true);
      return false, None, trace;
    }
    assert verdict == Ok(false);
    assert trace == done + [login, probe];
    assert Deliver(answer, opts, ChartId(name, version)) == After([login, probe], Build(answer, opts, ChartId(name, version)));
    AfterAfter(done, [login, probe], Build(answer, opts, ChartId(name, version)));
    var resolveFailure, resolveTrace := ResolveDependencies(answer, opts, useNonOci);
    trace := trace + resolveTrace;
    if resolveFailure.Some? {
      return false, resolveFailure, trace;
    }
    pushed, failure, trace := ShipChart(answer, opts, name, version, useNonOci, trace);
    AfterAfter(done + [login, probe], resolveTrace, Ship(answer, opts, ChartId(name, version)));
  }

  /** The dependency phase of `PackagePush` (`hasMissingDependencies`,
      `setupContainerForDependentCharts` and `helm dependency update`). */
  method ResolveDependencies(answer: Oracle, opts: PushOpts, useNonOci: bool)
    returns (failure: Option<Failure>, trace: seq<Cmd>)
    requires useNonOci == !opts.oci
    ensures Steps(failure, trace) == Resolve(answer, opts)
  {
    trace := [DependencyList];
    var listing := answer(DependencyList);
    if listing.Failed? {
      return Some(ErrorOf(listing)), trace;
    }
    var missingDependencies := HasMissingDependencies(listing.stdout);
    if missingDependencies {
      var setupFailure, setupTrace := SetupContainerForDependentCharts(answer, opts.username, !useNonOci, RepoFqdn(opts));
      trace := trace + setupTrace;
      if setupFailure.Some? {
        return setupFailure, trace;
      }
      trace := trace + [DependencyUpdate];
      var updated := answer(DependencyUpdate);
      if updated.Failed? {
        return Some(ErrorOf(updated)), trace;
      }
    }
    return None, trace;
  }

  /** The packaging and upload phase of `PackagePush`, appended to `done`. */
  method ShipChart(answer: Oracle, opts: PushOpts, name: string, version: string,
                   useNonOci: bool, done: seq<Cmd>)
    returns (pushed: bool, failure: Option<Failure>, trace: seq<Cmd>)
    requires useNonOci == !opts.oci
    ensures Run(pushed, failure, trace) == After(done, Ship(answer, opts, ChartId(name, version)))
  {
    var pkgCmd := GetHelmPkgCmd(opts);
    trace := done + [Package(pkgCmd)];
    var packaged := answer(Package(pkgCmd));
    if packaged.Failed? {
      return false, Some(ErrorOf(packaged)), trace;
    }

    var pkgFile := PkgFile(name, version);
    var upload;
    if useNonOci {
      upload := Upload(pkgFile, RepoFqdn(opts) + "/", opts.username);
    } else {
      upload := HelmPush(pkgFile, RepoFqdn(opts));
    }
    trace := trace + [upload];
    assert trace == done + [Package(PackageArgs(opts)), UploadCmd(opts, pkgFile)];
    var uploaded := answer(upload);
    if uploaded.Failed? {
      return false, Some(ErrorOf(uploaded)), trace;
    }
    return true, None, trace;
  }
}
