/** Publishing into a registry that answers honestly: the probe of
    helm/main.go sees what earlier uploads stored, so publishing the same
    chart version twice pushes once, except in a legacy repository with a
    subpath, where the upload and the probe use different locations. */
module HelmRegistry {
  import opened Options
  import opened Text
  import opened Exec
  import opened HelmOpts
  import opened HelmDeps
  import opened HelmProbe
  import opened HelmPublish

  /** What a registry holds: OCI charts by reference and version, and the
      files of legacy repositories by URL. */
  datatype Registry = Registry(charts: set<(string, string)>, files: set<string>)

  /** A world in which every command succeeds: the chart directory holds
      `chart` (yq prints each field with a line feed after it), `helm
      dependency list` prints `listing`, the chart names no dependency
      repository, and the probes answer from `reg`. */
  function World(reg: Registry, chart: ChartId, listing: string): Oracle {
    (c: Cmd) => match c
      case ShowChartField(query) =>
        Done((if query == ".name" then chart.name else if query == ".version" then chart.version else "") + "\n")
      case ShowRemoteChart(ref, version) => Done(if (ref, version) in reg.charts then "0" else "1")
      case HeadRequest(url, _) => Done(if url in reg.files then "200" else "404")
      case DependencyList => Done(listing)
      case _ => Done("")
  }

  /** Whether the probe of a publish with `opts` finds `id` in `reg`. */
  predicate Holds(reg: Registry, opts: PushOpts, id: ChartId) {
    if opts.oci then (ChartFqdn(opts, id.name), id.version) in reg.charts
    else ChartFqdn(opts, PkgFile(id.name, id.version)) in reg.files
  }

  /** The registry once the upload `c` of the archive of `id` completed:
      `helm push <archive> <repository>` stores the chart under
      `<repository>/<name>` at its version, and `curl -T <archive> <url>`
      stores the file at `<url><archive>`. */
  function Receive(reg: Registry, c: Cmd, id: ChartId): Registry {
    match c
    case HelmPush(_, target) => reg.(charts := reg.charts + {(target + "/" + id.name, id.version)})
    case Upload(pkgFile, url, _) => reg.(files := reg.files + {url + pkgFile})
    case _ => reg
  }

  /** The chart version a publish call reads: the manifest's name, and the
      override when there is one. */
  function Identity(chart: ChartId, a: PushArgs): ChartId {
    ChartId(chart.name, if a.setVersionTo != "" then a.setVersionTo else chart.version)
  }

  lemma WorldMeta(reg: Registry, chart: ChartId, listing: string, opts: PushOpts)
    requires Trimmed(chart.name) && Trimmed(chart.version)
    ensures ReadMetadata(World(reg, chart, listing), opts).result
         == Ok(ChartId(chart.name, if opts.version != "" then opts.version else chart.version))
  {
    var w := World(reg, chart, listing);
    assert w(ShowChartField(".name")) == Done([] + chart.name + "\n");
    assert w(ShowChartField(".version")) == Done([] + chart.version + "\n");
    QueryReadsValue(w, ".name", [], chart.name, "\n");
    QueryReadsValue(w, ".version", [], chart.version, "\n");
  }

  /** The probe reads what the registry holds. */
  lemma WorldProbe(reg: Registry, chart: ChartId, listing: string, opts: PushOpts, id: ChartId)
    ensures ProbeVerdict(opts.oci, World(reg, chart, listing)(ProbeCmd(opts, id.name, id.version)))
         == Ok(Holds(reg, opts, id))
  {
    var probe := ProbeCmd(opts, id.name, id.version);
    if !opts.oci {
      var code := if ChartFqdn(opts, PkgFile(id.name, id.version)) in reg.files then "200" else "404";
      assert World(reg, chart, listing)(probe) == Done(code);
      StatusOfCode(code);
    }
  }

  lemma WorldBuild(reg: Registry, chart: ChartId, listing: string, opts: PushOpts, id: ChartId)
    ensures Build(World(reg, chart, listing), opts, id).pushed
    ensures Build(World(reg, chart, listing), opts, id).trace[|Build(World(reg, chart, listing), opts, id).trace| - 1]
         == UploadCmd(opts, PkgFile(id.name, id.version))
  {
    var w := World(reg, chart, listing);
    assert Lines("") == [];
    assert DependencySetup(w, opts.username, opts.oci, RepoFqdn(opts)).failure.None?;
    assert Resolve(w, opts).failure.None?;
    var ship := Ship(w, opts, id);
    assert ship.pushed;
    LastOfAfter(Resolve(w, opts).trace, ship);
  }

  /** After the metadata: the login succeeds, and the run builds and pushes
      exactly when the probe does not find `id`. */
  lemma WorldDeliver(reg: Registry, chart: ChartId, listing: string, opts: PushOpts, id: ChartId)
    ensures var r := Deliver(World(reg, chart, listing), opts, id);
            && r.failure.None?
            && (r.pushed <==> !Holds(reg, opts, id))
            && r.trace != []
            && (r.pushed ==> r.trace[|r.trace| - 1] == UploadCmd(opts, PkgFile(id.name, id.version)))
  {
    var w := World(reg, chart, listing);
    WorldProbe(reg, chart, listing, opts, id);
    var login := MainLogin(opts);
    var probe := ProbeCmd(opts, id.name, id.version);
    assert w(login).Done?;
    if Holds(reg, opts, id) {
      assert Deliver(w, opts, id) == Run(false, None, [login, probe]);
    } else {
      WorldBuild(reg, chart, listing, opts, id);
      var b := Build(w, opts, id);
      assert Deliver(w, opts, id) == After([login, probe], b);
      LastOfAfter([login, probe], b);
    }
  }

  /** In an honest world a publish never fails, and it pushes exactly when
      the registry does not hold the chart version it reads; a push ends
      with the upload of that version's archive. */
  lemma PublishesUnlessHeld(reg: Registry, chart: ChartId, listing: string, a: PushArgs)
    requires Trimmed(chart.name) && Trimmed(chart.version)
    ensures var r := Publish(World(reg, chart, listing), a);
            var opts := NormalizeOpts(a);
            var id := Identity(chart, a);
            && r.failure.None?
            && (r.pushed <==> !Holds(reg, opts, id))
            && (r.pushed ==> r.trace != [] && r.trace[|r.trace| - 1] == UploadCmd(opts, PkgFile(id.name, id.version)))
  {
    var w := World(reg, chart, listing);
    var opts := NormalizeOpts(a);
    var id := Identity(chart, a);
    WorldMeta(reg, chart, listing, opts);
    PublishStages(w, a);
    WorldDeliver(reg, chart, listing, opts, id);
    LastOfAfter(ReadMetadata(w, opts).trace, Deliver(w, opts, id));
  }

  /** The registry after a publish call: what its upload stored, if it
      pushed. */
  function Next(reg: Registry, chart: ChartId, listing: string, a: PushArgs): Registry {
    var r := Publish(World(reg, chart, listing), a);
    if r.pushed && r.trace != [] then Receive(reg, r.trace[|r.trace| - 1], Identity(chart, a)) else reg
  }

  /** Uploads only add: whatever the registry held, it still holds. */
  lemma ReceiveKeeps(reg: Registry, c: Cmd, id: ChartId, opts: PushOpts, other: ChartId)
    requires Holds(reg, opts, other)
    ensures Holds(Receive(reg, c, id), opts, other)
  {
  }

  /** After its own upload, a chart version is visible to the probe exactly
      when it already was, or the repository is OCI, or it is a legacy
      repository without a subpath. */
  lemma UploadVisible(reg: Registry, opts: PushOpts, id: ChartId)
    ensures Holds(Receive(reg, UploadCmd(opts, PkgFile(id.name, id.version)), id), opts, id)
        <==> Holds(reg, opts, id) || opts.oci || opts.nonOciSubpath == ""
  {
    var pkgFile := PkgFile(id.name, id.version);
    var base := RepoFqdn(opts);
    if !opts.oci {
      var stored := base + "/" + pkgFile;
      assert UploadCmd(opts, pkgFile).url + pkgFile == stored;
      if opts.nonOciSubpath != "" {
        assert |ChartFqdn(opts, pkgFile)| > |stored|;
      }
    }
  }

  /** Pushing one version of an OCI chart leaves every other version as
      visible, or invisible, as it was. */
  lemma UploadLeavesOthers(reg: Registry, opts: PushOpts, id: ChartId, other: ChartId)
    requires opts.oci && other != id
    ensures Holds(Receive(reg, UploadCmd(opts, PkgFile(id.name, id.version)), id), opts, other)
        <==> Holds(reg, opts, other)
  {
    if (ChartFqdn(opts, other.name), other.version) == (RepoFqdn(opts) + "/" + id.name, id.version) {
      ChartFqdnInjective(opts, other.name, id.name);
    }
  }

  /** Publishing twice: the second call never fails, and it pushes exactly
      when the first pushed into a legacy repository with a subpath, whose
      probe looks where the upload did not store. Otherwise publishing is
      idempotent. */
  lemma PublishTwice(reg: Registry, chart: ChartId, listing: string, a: PushArgs)
    requires Trimmed(chart.name) && Trimmed(chart.version)
    ensures var opts := NormalizeOpts(a);
            var first := Publish(World(reg, chart, listing), a);
            var second := Publish(World(Next(reg, chart, listing, a), chart, listing), a);
            && second.failure.None?
            && (second.pushed <==> first.pushed && !opts.oci && opts.nonOciSubpath != "")
  {
    var opts := NormalizeOpts(a);
    var id := Identity(chart, a);
    PublishesUnlessHeld(reg, chart, listing, a);
    var reg2 := Next(reg, chart, listing, a);
    PublishesUnlessHeld(reg2, chart, listing, a);
    if Publish(World(reg, chart, listing), a).pushed {
      UploadVisible(reg, opts, id);
    }
  }

  /** The arguments of a publish to `ttl.sh`, repository `helm`, as an OCI
      registry. */
  function TtlArgs(username: string, setVersionTo: string): PushArgs {
    PushArgs("ttl.sh", "helm", username, false, "", setVersionTo, "")
  }

  /** `HelmPackagePushWithVersion`: into a registry that holds neither
      version, publishing with the version set to 0.6.7 pushes, publishing
      the manifest's own version then pushes too, and publishing 0.6.7
      again, as another user, pushes nothing. */
  lemma PushWithVersionScenario(reg: Registry, chart: ChartId, listing: string, username: string, otherUser: string)
    requires Trimmed(chart.name) && Trimmed(chart.version) && chart.version != "0.6.7"
    requires !Holds(reg, NormalizeOpts(TtlArgs(username, "0.6.7")), ChartId(chart.name, "0.6.7"))
    requires !Holds(reg, NormalizeOpts(TtlArgs(username, "0.6.7")), chart)
    ensures var a1 := TtlArgs(username, "0.6.7");
            var a2 := TtlArgs(username, "");
            var a3 := TtlArgs(otherUser, "0.6.7");
            var reg1 := Next(reg, chart, listing, a1);
            var reg2 := Next(reg1, chart, listing, a2);
            && Publish(World(reg, chart, listing), a1) == Run(true, None, Publish(World(reg, chart, listing), a1).trace)
            && Publish(World(reg1, chart, listing), a2) == Run(true, None, Publish(World(reg1, chart, listing), a2).trace)
            && Publish(World(reg2, chart, listing), a3) == Run(false, None, Publish(World(reg2, chart, listing), a3).trace)
  {
    var a1 := TtlArgs(username, "0.6.7");
    var a2 := TtlArgs(username, "");
    var a3 := TtlArgs(otherUser, "0.6.7");
    var opts1 := NormalizeOpts(a1);
    var id1 := ChartId(chart.name, "0.6.7");
    var id2 := chart;
    assert Identity(chart, a1) == id1 && Identity(chart, a2) == id2 && Identity(chart, a3) == id1;
    assert forall other :: Holds(reg, NormalizeOpts(a2), other) == Holds(reg, opts1, other);
    PublishesUnlessHeld(reg, chart, listing, a1);
    var reg1 := Next(reg, chart, listing, a1);
    assert reg1 == Receive(reg, UploadCmd(opts1, PkgFile(id1.name, id1.version)), id1);
    UploadVisible(reg, opts1, id1);
    UploadLeavesOthers(reg, opts1, id1, id2);
    PublishesUnlessHeld(reg1, chart, listing, a2);
    var reg2 := Next(reg1, chart, listing, a2);
    ReceiveKeeps(reg1, UploadCmd(NormalizeOpts(a2), PkgFile(id2.name, id2.version)), id2, opts1, id1);
    assert Holds(reg2, NormalizeOpts(a3), id1);
    PublishesUnlessHeld(reg2, chart, listing, a3);
  }

  /** `HelmPackagePushWithExistingChart`: a version the registry does not
      hold is pushed once; publishing it again, as any user, pushes
      nothing. */
  lemma ExistingChartScenario(reg: Registry, chart: ChartId, listing: string, username: string, otherUser: string)
    requires Trimmed(chart.name) && Trimmed(chart.version)
    requires !Holds(reg, NormalizeOpts(TtlArgs(username, "")), chart)
    ensures var a1 := TtlArgs(username, "");
            var a2 := TtlArgs(otherUser, "");
            var reg1 := Next(reg, chart, listing, a1);
            && Publish(World(reg, chart, listing), a1) == Run(true, None, Publish(World(reg, chart, listing), a1).trace)
            && Publish(World(reg1, chart, listing), a2) == Run(false, None, Publish(World(reg1, chart, listing), a2).trace)
  {
    var a1 := TtlArgs(username, "");
    var a2 := TtlArgs(otherUser, "");
    var opts1 := NormalizeOpts(a1);
    PublishesUnlessHeld(reg, chart, listing, a1);
    var reg1 := Next(reg, chart, listing, a1);
    UploadVisible(reg, opts1, chart);
    assert Holds(reg1, NormalizeOpts(a2), chart);
    PublishesUnlessHeld(reg1, chart, listing, a2);
  }
}
