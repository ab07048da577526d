/** The existence probe of helm/main.go (`doesChartExistOnRepo`): how the
    command that asks the registry for a chart is built and how its answer
    is read. */
module HelmProbe {
  import opened Options
  import opened Text
  import opened Exec
  import opened HelmOpts

  /** The archive `helm package` writes: `<name>-<version>.tgz`. */
  function PkgFile(name: string, version: string): (r: string)
    ensures |r| == |name| + |version| + 5
    ensures r[..|name|] == name && r[|name|] == '-'
    ensures r[|name| + 1..|r| - 4] == version && r[|r| - 4..] == ".tgz"
  {
    name + "-" + version + ".tgz"
  }

  /** The command that asks whether `name` at `version` is published: `helm
      show chart` on the chart's OCI reference, or a HEAD request (section
      9.3.2 of RFC 9110) for the archive in a legacy repository. */
  function ProbeCmd(opts: PushOpts, name: string, version: string): (r: Cmd)
    ensures r.ShowRemoteChart? <==> opts.oci
    ensures opts.oci ==> r.ref == ChartFqdn(opts, name) && r.version == version
    ensures !opts.oci ==> r.HeadRequest? && r.username == opts.username
                          && r.url == RepoFqdn(opts) + SubpathSegment(opts) + "/" + PkgFile(name, version)
  {
    if opts.oci then ShowRemoteChart(ChartFqdn(opts, name), version)
    else HeadRequest(ChartFqdn(opts, PkgFile(name, version)), opts.username)
  }

  /** The error a legacy probe returns for an unexpected status code. */
  function StatusMessage(code: string): (r: string)
    ensures OccursAt(r, code, 27)
  {
    "Server returned error code " + code + " checking for chart existence on server."
  }

  /** How a legacy probe reads the status code curl prints: once trimmed,
      200 OK (section 15.3.1 of RFC 9110) means the chart exists, 404 Not
      Found (section 15.5.5) that it does not, and anything else is an error
      that names the code. */
  function StatusVerdict(status: string): (r: Result<bool>)
    ensures r == Ok(true) <==> TrimSpace(status) == "200"
    ensures r == Ok(false) <==> TrimSpace(status) == "404"
    ensures r.Err? <==> TrimSpace(status) != "200" && TrimSpace(status) != "404"
    ensures r.Err? ==> r.failure == Error(StatusMessage(TrimSpace(status)))
  {
    var code := TrimSpace(status);
    if code == "200" then Ok(true)
    else if code == "404" then Ok(false)
    else Err(Error(StatusMessage(code)))
  }

  /** The error for an unexpected status names the code it got. */
  lemma StatusErrorNamesCode(status: string)
    requires StatusVerdict(status).Err?
    ensures Contains(StatusVerdict(status).failure.message, TrimSpace(status))
  {
    var code := TrimSpace(status);
    var message := StatusMessage(code);
    assert message[27..27 + |code|] == code;
    assert OccursAt(message, code, 27);
    ContainsOccurs(message, code);
  }

  /** A bare 200 or 404 reads as present or absent. */
  lemma StatusOfCode(code: string)
    requires code == "200" || code == "404"
    ensures StatusVerdict(code) == Ok(code == "200")
  {
    assert [] + code + [] == code;
    TrimSpacePadded([], code, []);
  }

  /** What a probe's answer means. A failed command is returned as its own
      error; an OCI probe reports the chart present exactly when the exit
      code it wrote is the text "0", untrimmed, and never fails once it has
      an answer; a legacy probe reads the status code. */
  function ProbeVerdict(oci: bool, answer: CmdResult): (r: Result<bool>)
    ensures answer.Failed? ==> r == Err(Error(answer.message))
    ensures answer.Done? && oci ==> r.Ok? && (r.value <==> answer.stdout == "0")
    ensures answer.Done? && !oci ==> r == StatusVerdict(answer.stdout)
  {
    match answer
    case Failed(message) => Err(Error(message))
    case Done(out) => if oci then Ok(out == "0") else StatusVerdict(out)
  }

  /** `doesChartExistOnRepo`: issues the probe and interprets its answer; a
      failure always comes with `false`. */
  method DoesChartExistOnRepo(answer: Oracle, opts: PushOpts, name: string, version: string)
    returns (chartExists: bool, failure: Option<Failure>, probe: Cmd)
    ensures probe == ProbeCmd(opts, name, version)
    ensures failure.None? <==> ProbeVerdict(opts.oci, answer(probe)).Ok?
    ensures failure.Some? ==> !chartExists && Some(ProbeVerdict(opts.oci, answer(probe)).failure) == failure
    ensures failure.None? ==> chartExists == ProbeVerdict(opts.oci, answer(probe)).value
  {
    if opts.oci {
      probe := ShowRemoteChart(ChartFqdn(opts, name), version);
      var ec := answer(probe);
      if ec.Failed? {
        return false, Some(ErrorOf(ec)), probe;
      }
      if ec.stdout == "0" {
        return true, None, probe;
      }
      return false, None, probe;
    }
    var pkgFile := PkgFile(name, version);
    probe := HeadRequest(ChartFqdn(opts, pkgFile), opts.username);
    var response := answer(probe);
    if response.Failed? {
      return false, Some(ErrorOf(response)), probe;
    }
    var httpCode := TrimSpace(response.stdout);
    if httpCode == "200" {
      return true, None, probe;
    }
    if httpCode == "404" {
      return false, None, probe;
    }
    return false, Some(Error(StatusMessage(httpCode))), probe;
  }
}
