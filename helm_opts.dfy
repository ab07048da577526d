/** The options of a publish call in helm/main.go (`PushOpts`) and the
    locators and argument lists derived from them. */
module HelmOpts {
  import opened Options
  import opened Text

  /** Go's `PushOpts`, without the password (an opaque secret handle). */
  datatype PushOpts = PushOpts(
    registry: string,
    repository: string,
    oci: bool,
    nonOciSubpath: string,
    username: string,
    version: string,
    appVersion: string)

  /** The arguments of `PackagePush` as the caller passes them. */
  datatype PushArgs = PushArgs(
    registry: string,
    repository: string,
    username: string,
    useNonOciHelmRepo: bool,
    nonOciRepoSubpath: string,
    setVersionTo: string,
    setAppVersionTo: string)

  function Protocol(p: PushOpts): (r: string)
    ensures r == "oci" <==> p.oci
    ensures r == "https" <==> !p.oci
  {
    if p.oci then "oci" else "https"
  }

  /** `getRepoFqdn`: `<protocol>://<registry>/<repository>`. The protocol is
      the locator's scheme and the repository its last path element. */
  function RepoFqdn(p: PushOpts): string {
    Protocol(p) + "://" + p.registry + "/" + p.repository
  }

  /** The `/<subpath>` segment that `getChartFqdn` inserts: only for a legacy
      repository with a non-empty subpath. */
  function SubpathSegment(p: PushOpts): (r: string)
    ensures r == [] <==> p.oci || p.nonOciSubpath == ""
  {
    if !p.oci && p.nonOciSubpath != "" then "/" + p.nonOciSubpath else ""
  }

  /** `getChartFqdn`: the repository locator, the subpath segment, then
      `/<name>`. */
  function ChartFqdn(p: PushOpts, name: string): (r: string)
    ensures r == RepoFqdn(p) + SubpathSegment(p) + "/" + name
  {
    if !p.oci && p.nonOciSubpath != "" then
      RepoFqdn(p) + "/" + p.nonOciSubpath + "/" + name
    else
      RepoFqdn(p) + "/" + name
  }

  /** Two names give the same chart locator only when they are equal. */
  lemma ChartFqdnInjective(p: PushOpts, a: string, b: string)
    requires ChartFqdn(p, a) == ChartFqdn(p, b)
    ensures a == b
  {
    var prefix := RepoFqdn(p) + SubpathSegment(p) + "/";
    assert ChartFqdn(p, a) == prefix + a && ChartFqdn(p, b) == prefix + b;
    assert a == (prefix + a)[|prefix|..];
  }

  /** The `helm package` argument list that `getHelmPkgCmd` builds. */
  function PackageArgs(p: PushOpts): seq<string> {
    ["helm", "package", "."]
    + (if p.version != "" then ["--version", p.version] else [])
    + (if p.appVersion != "" then ["--app-version", p.appVersion] else [])
  }

  /** Reads the version and appVersion overrides back from a `helm package`
      argument list (an empty string where a flag is absent). */
  function ParsePackageArgs(args: seq<string>): Option<(string, string)> {
    if |args| < 3 || args[..3] != ["helm", "package", "."] then None
    else
      var rest := args[3..];
      var (version, rest') :=
        if |rest| >= 2 && rest[0] == "--version" then (rest[1], rest[2..]) else ("", rest);
      var (appVersion, rest'') :=
        if |rest'| >= 2 && rest'[0] == "--app-version" then (rest'[1], rest'[2..]) else ("", rest');
      if rest'' == [] then Some((version, appVersion)) else None
  }

  /** `getHelmPkgCmd`: starts from `helm package .` and appends each flag
      whose value is set, the version first. */
  method GetHelmPkgCmd(p: PushOpts) returns (cmd: seq<string>)
    ensures cmd == PackageArgs(p)
    ensures cmd[..3] == ["helm", "package", "."]
    ensures |cmd| == 3 + (if p.version != "" then 2 else 0) + (if p.appVersion != "" then 2 else 0)
    ensures ParsePackageArgs(cmd) == Some((p.version, p.appVersion))
  {
    cmd := ["helm", "package", "."];
    if p.version != "" {
      cmd := cmd + ["--version", p.version];
    }
    if p.appVersion != "" {
      cmd := cmd + ["--app-version", p.appVersion];
    }
  }

  /** The option handling at the top of `PackagePush`: a subpath forces a
      legacy repository and loses one leading '/'; everything else is passed
      through. */
  function NormalizeOpts(a: PushArgs): (p: PushOpts)
    ensures a.nonOciRepoSubpath != "" ==> !p.oci
    ensures a.nonOciRepoSubpath == "" ==> p.oci == !a.useNonOciHelmRepo
    ensures if StartsWith(a.nonOciRepoSubpath, "/") then "/" + p.nonOciSubpath == a.nonOciRepoSubpath
            else p.nonOciSubpath == a.nonOciRepoSubpath
    ensures p.registry == a.registry && p.repository == a.repository && p.username == a.username
    ensures p.version == a.setVersionTo && p.appVersion == a.setAppVersionTo
  {
    var subpath := a.nonOciRepoSubpath;
    var useNonOci := a.useNonOciHelmRepo || subpath != "";
    var trimmed := if subpath != "" && subpath[0] == '/' then subpath[1..] else subpath;
    assert StartsWith(subpath, "/") <==> subpath != "" && subpath[0] == '/';
    PushOpts(a.registry, a.repository, !useNonOci, trimmed, a.username, a.setVersionTo, a.setAppVersionTo)
  }
}
