/** The external commands the helm module runs inside its containers.
    Nothing is executed: what each command answers is an input of the model
    (an oracle), and a run records the commands it issued, in order. */
module Exec {
  import opened Options

  datatype Cmd =
      /** `helm show chart . | yq eval '<query>' -` on the chart directory */
    | ShowChartField(query: string)
      /** `helm registry login <url>` (OCI) or `helm repo add <hash> <url>` (legacy),
          with the password on standard input */
    | RegistryLogin(url: string, username: string, oci: bool)
      /** `helm show chart <ref> --version <v>; echo -n $? > /ec`; its answer is
          the content of `/ec` */
    | ShowRemoteChart(ref: string, version: string)
      /** `curl -I -w '%{http_code}' <url>` with basic authentication; its answer
          is the status code */
    | HeadRequest(url: string, username: string)
      /** `helm dependency list` */
    | DependencyList
      /** `helm show chart . | yq '[.dependencies[].repository] | unique | sort | .[]'` */
    | DependencyRepositories
      /** `helm dependency update .` */
    | DependencyUpdate
      /** `helm package ...` with the given argument list */
    | Package(args: seq<string>)
      /** `ls` */
    | ListFiles
      /** `helm push <pkgFile> <target>` */
    | HelmPush(pkgFile: string, target: string)
      /** `curl -T <pkgFile> <url>` with basic authentication */
    | Upload(pkgFile: string, url: string, username: string)

  /** A command either completes, with its standard output, or fails. */
  datatype CmdResult = Done(stdout: string) | Failed(message: string)

  /** What every command would answer. */
  type Oracle = Cmd -> CmdResult

  /** The outcome of one publish call: Go's `(bool, error)` return (or a
      panic) and the commands issued, in order. */
  datatype Run = Run(pushed: bool, failure: Option<Failure>, trace: seq<Cmd>)

  /** The outcome of a step that returns only an error. */
  datatype Steps = Steps(failure: Option<Failure>, trace: seq<Cmd>)

  /** The steps that resolve dependencies, package or upload a chart. */
  predicate Builds(c: Cmd) {
    c.DependencyList? || c.DependencyRepositories? || c.DependencyUpdate? || c.Package?
    || c.ListFiles? || c.HelmPush? || c.Upload?
  }

  /** The failure a failed command turns into: its error, returned verbatim. */
  function ErrorOf(r: CmdResult): Failure
    requires r.Failed?
  {
    Error(r.message)
  }
}
