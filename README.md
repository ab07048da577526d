# dagger-module-helm, modelled in Dafny

This project models the decision logic of the Dagger Helm module. It publishes
a Helm chart version to a registry: OCI by default, or a legacy HTTPS chart
repository.

- **helm/main.go.** `PackagePush` reads the chart's name and version. The
  version may be overridden. It logs into the target registry and probes
  whether that chart version is already published. If it is, the call returns
  `false` and builds nothing. Otherwise it resolves missing dependencies and
  logs into their repositories, then packages and uploads, and returns
  `true`. Any step's error ends the call.
- **helm/dagger/main.go.** The OCI-only variant of the same procedure.
- **tests/charts.go.** The test-fixture charts the module's tests publish.

Every external command is a `Cmd` value. Nothing is executed: what each
command answers is an input, an `Oracle` (`Cmd -> CmdResult`). This covers
`helm show chart`, `helm registry login`, `curl`, `helm dependency ...`,
`helm package` and `helm push`. A call is modelled as a pure function
(`HelmPublish.Publish`, `HelmDagger.Publish`). It returns the Go result, as
"pushed" plus an optional failure, and the commands issued, in order. A Go
panic is the failure `Panic`.

The Go functions that work step by step are methods that mirror the code:
`PackagePush`, `doesChartExistOnRepo`, `setupContainerForDependentCharts`
with its loop, `getRepoURLs` and `getHelmPkgCmd`. Each is proved equal to its
specification function. The properties are lemmas about those functions.

`HelmRegistry` adds a registry that answers probes from what it holds, and
stores what uploads send. Idempotence is proved there, along with the two
publish scenarios of the module's tests. The test charts of tests/charts.go
form a class whose setters update its fields in place. Their randomness
(`crypto/rand`) is an input byte sequence.

Modules:
- `Options`: Option, Result and Failure.
- `Text`: the Go string functions the code relies on.
- `Exec`: commands, answers and runs.
- `HelmOpts`, `HelmDeps`, `HelmProbe` and `HelmPublish`: helm/main.go.
- `HelmRegistry`: a registry that answers honestly.
- `HelmDagger`: helm/dagger/main.go.
- `TestCharts`: tests/charts.go.

The model follows the code. Some of what the code does is worth stating
outright:
- **Login in both modes.** The target registry is logged into in both modes:
  `helm registry login` for an OCI registry, `helm repo add` for a legacy
  repository (helm/main.go:208, 374-383).
- **Deduplicating dependency logins.** The comment on `PackagePush`
  (helm/main.go:105-107) says a dependency's registry is logged into when it
  differs from the target registry, and the loop's comment (helm/main.go:421)
  says the check avoids logging into the same repository twice. But
  `repositoriesAreNotEquivalent` keeps the part of each URL before `://`, the
  scheme, not the host after it (helm/main.go:441). So a dependency is logged
  into exactly when the target protocol does not contain its lower-cased
  scheme, whatever the hosts (`HelmDeps.ComparesSchemesOnly`,
  `HelmPublish.DependencyLoginByScheme`). An OCI publish therefore skips every
  `oci://` dependency (`HelmPublish.OciPublishSkipsOciDependencies`), and an
  https publish skips every `https://` and `http://` dependency
  (`HelmPublish.HttpsPublishSkipsHttpDependencies`).
- **Panics on a URL without `://`.** Such a URL makes the check panic
  (`HelmDeps.NormalizePanics`).
- **Failed dependency logins are ignored.** Their errors are discarded. The
  loop tests an `err` that no login assigns (helm/main.go:422-425), so a
  failed dependency login never stops a publish
  (`HelmPublish.DependencyLoginAnswersIgnored`).
- **The subpath in legacy mode.** The comment on `PackagePush`
  (helm/main.go:120) says the subpath option pushes the chart into that
  subpath. The probe does look for the archive under the subpath, but the
  upload, `curl -T <archive> <repository>/`, does not use it
  (helm/main.go:251, 483). With a subpath, a second publish of the same
  version therefore pushes again (`HelmPublish.UploadIgnoresSubpath`,
  `HelmRegistry.PublishTwice`).

## Model

| member | source | states |
|---|---|---|
| Text.TrimSpace | helm/main.go:526 | trimming never lengthens the text |
| Text.TrimLeftDropsSpace | helm/main.go:440 | TrimLeft drops exactly a prefix of white space and stops at the first other character |
| Text.TrimRightDropsSpace | helm/main.go:440 | TrimRight drops exactly a suffix of white space and stops at the last other character |
| Text.TrimSpaceTrimmed | helm/main.go:526 | a trimmed answer neither starts nor ends with white space |
| Text.TrimSpaceEmpty | helm/main.go:499 | the text trims to empty exactly when it is all white space |
| Text.TrimLeftPadded | helm/main.go:440 | leading white space before a non-space start is removed and nothing else |
| Text.TrimRightPadded | helm/main.go:440 | trailing white space after a non-space end is removed and nothing else |
| Text.TrimSpacePadded | helm/main.go:526 | a value printed with white space around it trims back to exactly the value |
| Text.IndexOf | helm/main.go:441 | a found index is an occurrence of the separator |
| Text.IndexOfFirst | helm/main.go:441 | the index found is the first occurrence, and none is found exactly when there is no occurrence |
| Text.Contains | helm/main.go:539 | containment implies an occurrence |
| Text.ContainsOccurs | helm/main.go:445 | containment holds if and only if the text occurs at some position |
| Text.ToLower | helm/main.go:442 | lower-casing keeps the length |
| Text.ToLowerLowers | helm/main.go:442 | no upper-case ASCII letter survives, and every other character is kept |
| Text.ToLowerKeeps | helm/main.go:442 | text without upper-case letters is unchanged |
| Text.FirstLine | helm/main.go:569-572 | the first line is a feed-free prefix ended by the first line feed or by the end of the text |
| Text.Lines | helm/main.go:569-572 | the scanner yields no token exactly for empty input |
| Text.LinesHaveNoFeed | helm/main.go:569-572 | no token contains a line feed |
| Text.LinesUnlines | helm/main.go:569-572 | scanning lines joined with feeds gives back those lines |
| Text.UnlinesLines | helm/main.go:569-572 | joining the tokens gives back the text, with a final feed added if it lacked one |
| HelmOpts.Protocol | helm/main.go:34-40 | the protocol is "oci" exactly in OCI mode and "https" exactly otherwise |
| HelmOpts.RepoFqdn | helm/main.go:42-44 | the repository locator is the protocol, "://", the registry, "/" and the repository |
| HelmOpts.SubpathSegment | helm/main.go:46-51 | the subpath segment is empty exactly in OCI mode or without a subpath |
| HelmOpts.ChartFqdn | helm/main.go:42-51 | the chart locator is the repository locator, the subpath segment, "/" and the name |
| HelmOpts.ChartFqdnInjective | helm/main.go:46-51 | different names give different chart locators |
| HelmOpts.GetHelmPkgCmd | helm/main.go:53-62 | the command starts with helm package ., has 3, 5 or 7 words, and parses back to exactly the version and appVersion overrides |
| HelmOpts.NormalizeOpts | helm/main.go:170-185 | a subpath forces legacy mode and loses one leading "/"; all other options are passed through |
| HelmDeps.Normalize | helm/main.go:439-444 | a normalised URL is the lower-cased text before the first "://" of the trimmed URL |
| HelmDeps.NormalizePanics | helm/main.go:441 | normalisation panics exactly when the trimmed URL has no "://" |
| HelmDeps.RepositoriesAreNotEquivalent | helm/main.go:432-446 | an empty first URL always differs; otherwise the check panics exactly when either URL has no "://" |
| HelmDeps.TrimSchemeUrl | helm/main.go:440 | trimming a scheme URL only trims its end |
| HelmDeps.FirstSeparator | helm/main.go:441 | the first "://" of a scheme URL ends the scheme |
| HelmDeps.NormalizeScheme | helm/main.go:439-444 | a scheme URL normalises to its lower-cased scheme |
| HelmDeps.ComparesSchemesOnly | helm/main.go:432-446 | two scheme URLs differ exactly when the first scheme does not contain the second; the hosts play no part |
| HelmDeps.RepoFqdnScheme | helm/main.go:439-444 | the target repository locator normalises to its protocol |
| HelmDeps.GetRepoURLs | helm/main.go:564-574 | the loop collects exactly the scanner's lines, none holding a feed, and none for empty output |
| HelmDeps.HasMissingDependencies | helm/main.go:529-543 | dependencies are missing exactly when the word "missing" occurs somewhere in the listing |
| HelmDeps.DependencyLogins | helm/main.go:419-427 | the loop issues no more logins than there are listed URLs |
| HelmDeps.LoginsAsUser | helm/main.go:422 | every dependency login uses the caller's user name and the publish's mode |
| HelmDeps.PanicsOnUndecided | helm/main.go:420-427 | the loop panics exactly when some URL makes the check panic |
| HelmDeps.LoginPanics | helm/main.go:421 | with a well-formed target locator, the loop panics exactly when some dependency URL has no "://" |
| HelmDeps.LoginTargets | helm/main.go:420-427 | a URL is logged into exactly when it is listed and the check says it differs |
| HelmDeps.LoginsWithoutTarget | helm/main.go:436-438 | with no target locator, every listed URL is logged into, in order |
| HelmDeps.DependencySetup | helm/main.go:402-430 | the repository query comes first, and its failure is returned alone and verbatim |
| HelmDeps.SetupIssuesOnlyLogins | helm/main.go:410-427 | after the query, setup issues only logins as the caller |
| HelmDeps.LoginAnswersIgnored | helm/main.go:422-425 | setup does not depend on what the logins answer |
| HelmDeps.LogIntoDependencies | helm/main.go:419-427 | the loop's logins and panic are those of the loop's specification |
| HelmDeps.SetupContainerForDependentCharts | helm/main.go:402-430 | the method's error and commands are those of its specification |
| HelmProbe.PkgFile | helm/main.go:206 | the archive name (also built at helm/main.go:477) is the chart name, "-", the version and ".tgz", each readable back from it |
| HelmProbe.ProbeCmd | helm/main.go:457-486 | an OCI probe is helm show chart of the chart locator at the version; a legacy probe is a HEAD request as the user for the archive under the subpath |
| HelmProbe.StatusMessage | helm/main.go:510 | the error message holds the code after "Server returned error code " |
| HelmProbe.StatusVerdict | helm/main.go:499-510 | the trimmed code 200 means present, 404 absent, and anything else is an error naming the code |
| HelmProbe.StatusErrorNamesCode | helm/main.go:510 | the error message contains the code |
| HelmProbe.StatusOfCode | helm/main.go:501-508 | the codes 200 and 404 read as present and absent |
| HelmProbe.ProbeVerdict | helm/main.go:457-510 | a failed probe returns its error; an OCI probe finds the chart exactly when the exit code is "0"; a legacy probe reads the status |
| HelmProbe.DoesChartExistOnRepo | helm/main.go:450-511 | the method issues the probe for the mode and returns the verdict; a failure always comes with false |
| HelmPublish.QueryChart | helm/main.go:513-527 | a query fails exactly when its command does, with that command's error |
| HelmPublish.QueryReadsValue | helm/main.go:526 | a manifest value printed with white space around it reads back as itself |
| HelmPublish.ReadMetadata | helm/main.go:193-204 | the name is read first; the version is read only without an override, which is used verbatim |
| HelmPublish.ReadMetadataTrace | helm/main.go:193-204 | the metadata queries are the name, or the name and then the version |
| HelmPublish.MainLogin | helm/main.go:208 | the target login is to the registry host, not the repository locator, as the caller, in the repository's mode |
| HelmPublish.UploadCmd | helm/main.go:244-264 | an OCI upload is helm push of the archive to the repository locator; a legacy upload is curl -T as the user to the repository locator plus "/" |
| HelmPublish.Ship | helm/main.go:239-268 | packaging and upload push exactly when neither fails |
| HelmPublish.Resolve | helm/main.go:222-237 | dependency resolution always starts with helm dependency list |
| HelmPublish.Build | helm/main.go:222-270 | the build pushes exactly when nothing fails |
| HelmPublish.Deliver | helm/main.go:208-270 | a push implies no failure |
| HelmPublish.Publish | helm/main.go:140-271 | a push implies no failure |
| HelmPublish.SkipExactlyWhenPresent | helm/main.go:213-220 | the call returns false without error exactly when the probe says the chart is present |
| HelmPublish.SkipTrace | helm/main.go:193-220 | a skipped call issued the metadata reads, the login and the probe, and nothing else |
| HelmPublish.BuildsOnlyWhenAbsent | helm/main.go:213-237 | a dependency, package or upload step is issued only after the probe said absent |
| HelmPublish.PushedTrace | helm/main.go:193-270 | a push issued the reads, login, probe, dependency steps, package and upload, in that order |
| HelmPublish.ResolveUpdatesIffMissing | helm/main.go:222-237 | a successful resolution runs helm dependency update exactly when the listing says missing |
| HelmPublish.DependencyUpdateIffMissing | helm/main.go:222-237 | a pushing call ran helm dependency update exactly when dependencies were missing |
| HelmPublish.ResolveSetsUpIffMissing | helm/main.go:222-230 | once the listing answers, the dependency phase lists the dependency repositories exactly when it reports "missing", and updates only then |
| HelmPublish.BuildSetsUpIffMissing | helm/main.go:222-230 | the same for the build stage |
| HelmPublish.DependencySetupIffMissing | helm/main.go:213-237 | a call whose probe said absent sets up dependencies (repository listing and logins) exactly when the listing reports "missing", and updates them only then |
| HelmPublish.ShipStopsAtError | helm/main.go:239-268 | a packaging or upload error is the error of the last command issued |
| HelmPublish.ResolveStopsAtError | helm/main.go:222-237 | a resolution error is the error of the last command issued |
| HelmPublish.BuildStopsAtError | helm/main.go:222-268 | a build error is the error of the last command issued |
| HelmPublish.DeliverStopsAtError | helm/main.go:208-237 | from the login on, an error is the error of the last command issued |
| HelmPublish.StopsAtFirstError | helm/main.go:193-268 | an error ends the call unpushed, and comes from the last command issued (a failed command or an unexpected status) |
| HelmPublish.DeliverIgnoresLoginAnswers | helm/main.go:420-426 | from the login on, the call does not depend on how dependency logins answer |
| HelmPublish.DependencyLoginAnswersIgnored | helm/main.go:227-230 | a publish does not depend on how dependency logins answer |
| HelmPublish.UploadIgnoresSubpath | helm/main.go:244-252 | the legacy probe URL is the upload URL with the subpath inserted, and they agree exactly without a subpath |
| HelmPublish.DependencyLoginByScheme | helm/main.go:421 | a dependency is logged into exactly when the target protocol does not contain its scheme |
| HelmPublish.OciPublishSkipsOciDependencies | helm/main.go:227 | an OCI publish never logs into an oci:// dependency, whatever its host |
| HelmPublish.HttpsPublishSkipsHttpDependencies | helm/main.go:227 | a legacy publish never logs into an http:// dependency, whatever its host |
| HelmPublish.PackagePush | helm/main.go:140-271 | the method's result and commands are those of Publish |
| HelmPublish.LogInAndDeliver | helm/main.go:208-270 | from the login on, the method follows Deliver |
| HelmPublish.ResolveDependencies | helm/main.go:222-237 | the dependency phase follows Resolve |
| HelmPublish.ShipChart | helm/main.go:239-270 | packaging and upload follow Ship |
| HelmRegistry.WorldMeta | helm/main.go:193-204 | a registry world reads back the chart's own name, and the override or the manifest version |
| HelmRegistry.WorldProbe | helm/main.go:450-511 | the probe finds the chart exactly when the registry holds it |
| HelmRegistry.WorldBuild | helm/main.go:222-270 | in a registry world the build pushes, and the upload is its last command |
| HelmRegistry.WorldDeliver | helm/main.go:208-270 | in a registry world delivery never fails, and pushes exactly when the chart is not held |
| HelmRegistry.PublishesUnlessHeld | helm/main.go:140-271 | a publish never fails and pushes exactly when the registry does not hold the chart version; it ends with the upload |
| HelmRegistry.UploadVisible | helm/main.go:244-263 | after its upload a version is visible exactly in OCI mode, or in legacy mode without a subpath, or if it was already held |
| HelmRegistry.UploadLeavesOthers | helm/main.go:261-263 | an OCI push changes the visibility of no other version |
| HelmRegistry.PublishTwice | helm/main.go:213-270 | a second publish never fails, and pushes exactly when the first pushed to a legacy repository with a subpath |
| HelmRegistry.PushWithVersionScenario | tests/main.go:156-203 | with version 0.6.7 the chart is pushed; its own version is then pushed too; 0.6.7 again, as another user, is not |
| HelmRegistry.ExistingChartScenario | tests/main.go:205-235 | the first publish pushes; publishing again, as any user, does not |
| HelmDagger.RepoFqdn | helm/dagger/main.go:37-42 | the repository locator is that of helm/main.go in OCI mode, and that locator without "https://" in legacy mode |
| HelmDagger.ChartFqdn | helm/dagger/main.go:30-42 | in both modes the chart locator is the repository locator, "/" and the name |
| HelmDagger.ChartFqdnInjective | helm/dagger/main.go:30-35 | different names give different locators |
| HelmDagger.LocatorsAgainstMain | helm/dagger/main.go:30-42 | OCI locators match helm/main.go's; legacy locators lack its https:// scheme |
| HelmDagger.ReadIdentity | helm/dagger/main.go:105-117 | the version is read before the name, both trimmed, and the first failure ends the reading |
| HelmDagger.Login | helm/dagger/main.go:119-124 | the login is always the OCI registry login, to the registry host, as the caller |
| HelmDagger.Probe | helm/dagger/main.go:130 | the probe is helm show chart of the chart locator at the version, the same command helm/main.go issues in OCI mode |
| HelmDagger.DaggerOpts | helm/dagger/main.go:92-98 | the publish options are always OCI, with the given registry, repository and user |
| HelmDagger.BuildCmds | helm/dagger/main.go:145-148 | four build steps, of which only the last pushes: the archive named after the chart, to the repository locator |
| HelmDagger.Chain | helm/dagger/main.go:145-152 | the steps run in order and the first failing one ends the chain with its error; its meaning is proved in ChainSucceeds and ChainStopsAtError |
| HelmDagger.ChainSucceeds | helm/dagger/main.go:145-149 | the chain succeeds exactly when every step does, and then runs all of them |
| HelmDagger.ChainStopsAtError | helm/dagger/main.go:145-152 | a failed chain ran a prefix of its steps, all succeeding but the last, whose error it returns |
| HelmDagger.Deliver | helm/dagger/main.go:119-154 | a push implies no failure |
| HelmDagger.Publish | helm/dagger/main.go:78-155 | a push implies no failure |
| HelmDagger.SkipExactlyOnZero | helm/dagger/main.go:130-143 | the call returns false without error exactly when the exit code is "0"; then it issued four commands and no build step |
| HelmDagger.PushesExactly | helm/dagger/main.go:105-154 | a push happens exactly when the probe's code is not "0" and every build step succeeds; the trace is then reads, login, probe, update, package, ls and push |
| HelmDagger.StopsAtFirstError | helm/dagger/main.go:105-152 | an error ends the call unpushed and is the error of the last command issued |
| HelmDagger.WorldIdentity | helm/dagger/main.go:105-117 | a registry world reads back the chart's own version and name |
| HelmDagger.WorldDeliver | helm/dagger/main.go:119-154 | in a registry world the login and probe succeed, and the chain runs and pushes exactly when the chart is not held |
| HelmDagger.PublishesUnlessHeld | helm/dagger/main.go:78-155 | a publish never fails and pushes exactly when the registry lacks the chart; it ends with the push |
| HelmDagger.PublishTwice | helm/dagger/main.go:130-154 | publishing twice pushes at most once |
| HelmDagger.PackagePush | helm/dagger/main.go:78-155 | the method's result and commands are those of Publish |
| HelmDagger.LogInAndProbe | helm/dagger/main.go:119-154 | from the login on, the method follows Deliver |
| HelmDagger.ProbeAndSync | helm/dagger/main.go:130-154 | after a successful login, the method follows Deliver |
| HelmDagger.SyncBuild | helm/dagger/main.go:145-154 | the build chain's error and commands are those of Chain |
| TestCharts.Hex | tests/charts.go:194 | hex encoding has two digits per byte |
| TestCharts.HexIsLowerHex | tests/charts.go:194 | hex encoding uses only lowercase hex digits |
| TestCharts.UnhexHex | tests/charts.go:194 | hex encoding decodes back to the bytes |
| TestCharts.RandomString | tests/charts.go:191-195 | the result has exactly the requested length; a negative length panics |
| TestCharts.RandomStringDigits | tests/charts.go:191-195 | the result is the hex of the bytes after the first, cut to length, all lowercase hex digits; for an even length it decodes to exactly bytes 1 to length/2 |
| TestCharts.SessionKeyOf | tests/charts.go:137-140 | a given key is kept verbatim; without one the key is ten random hex digits, never equal to the empty input |
| TestCharts.SessionName | tests/charts.go:141 | the chart name starts with the base name and is one dash and the key longer |
| TestCharts.SessionNameInjective | tests/charts.go:141 | two keys give the same chart name exactly when they are equal |
| TestCharts.Chart.constructor | tests/charts.go:128-153 | the chart takes the session key, the base name with the key appended, and the given version, appVersion, directory and template |
| TestCharts.Chart.GetName | tests/charts.go:48-51 | returns exactly the name |
| TestCharts.Chart.GetVersion | tests/charts.go:54-57 | returns exactly the version |
| TestCharts.Chart.GetAppVersion | tests/charts.go:60-63 | returns exactly the appVersion |
| TestCharts.Chart.WithVersion | tests/charts.go:66-71 | sets the version, changes nothing else, and returns the same chart |
| TestCharts.Chart.WithAppVersion | tests/charts.go:74-79 | sets the appVersion, changes nothing else, and returns the same chart |
| TestCharts.Chart.WithOriginalVersionSuffix | tests/charts.go:88-93 | sets the version to "0.1.1-" and the suffix, and nothing else |
| TestCharts.Chart.WithRandomOriginalVersionSuffix | tests/charts.go:82-85 | sets the version to "0.1.1-" and eight random hex digits, and nothing else |
| TestCharts.RandomVersionShape | tests/charts.go:82-93 | a random-suffix version is fourteen characters: "0.1.1-" and eight lowercase hex digits |
| TestCharts.NewMyChart | tests/charts.go:155-159 | a fresh chart named after its new random ten-digit key, at version 0.1.1 and appVersion 1.16.0 |
| TestCharts.NewMyChartInSession | tests/charts.go:162-167 | a fresh chart in the given session, or in a new one if none is given |
| TestCharts.NewMyDependentChart | tests/charts.go:169-173 | a fresh dependent chart named after its new random ten-digit key, at the original versions |
| TestCharts.NewMyDependentChartInSession | tests/charts.go:175-180 | a fresh dependent chart in the given session, or in a new one if none is given |
| TestCharts.NewChartSession | tests/charts.go:183-189 | two distinct fresh charts share one random session key, have different names, and start at the original versions |

## Left out

- **Dagger plumbing.** Containers, directories, environment and secret
  variables, `Sync`, `Stdout` and `File().Contents` are left out. Each command
  is an oracle answer, so the model does not track container state. For
  example, `registryLogin` returns no container, so later commands in Go do
  not see the login's container changes. The model records only the login
  command.
- **Shell quoting.** The probes and uploads are shell strings run
  with `sh -c`, with the registry, repository, chart name and version put in
  unquoted (helm/main.go:245-257, 459, 479-491; helm/dagger/main.go:130).
  The model's commands (`HelmProbe.ProbeCmd`, `HelmPublish.UploadCmd`,
  `HelmDagger.Probe`) are structured values, so word splitting and shell
  metacharacters are not captured: a value holding white space or a
  character such as `;` runs a different command in Go than the model
  records. Values without white space or shell metacharacters are
  unaffected.
- **The OCI probe.** Its `Sync` error and its read of `/ec` are merged into
  one answer of the `ShowRemoteChart` command.
- **The legacy login's repository name.** It is the CRC-32 hash of the
  registry URL (helm/main.go:377-378), a library call; `RegistryLogin`
  carries the URL, the user and the mode.
- **What helm, yq and curl do.** A registry world (`HelmRegistry.World`)
  stands in for them. `helm push <archive> <repo>` stores the chart under
  `<repo>/<name>`, and `curl -T <archive> <url>` stores `<url><archive>`. The
  world's answers are one choice of oracle; every other lemma holds for all
  oracles.
- **Logging.** The banner both `PackagePush` functions print to standard
  output (helm/main.go:187, helm/dagger/main.go:100) is not modelled; no
  result depends on it.
- **Commands that only relay external output.** `Lint` in helm/main.go and
  `Test` in both files. `Name`, `Version` and `AppVersion` in helm/main.go and `Version` in
  helm/dagger/main.go are one query each; `HelmPublish.QueryChart` models
  that query. `dependencyUpdate` is not called by the publish path.
  `createContainer` (helm/main.go:520) is reached through `Name` and
  `Version`; the container it builds is part of the Dagger plumbing above.
- Text.ToLower: lower-cases ASCII letters only. Go's `strings.ToLower` also
  maps other Unicode upper-case letters, which do not occur in the URL schemes
  compared here.
- **`bufio.Scanner` in `getRepoURLs`.** The token-size limit is not
  modelled. `Text.Lines` follows `ScanLines`, including dropping one carriage
  return at a line end. `Text.UnlinesLines` assumes text without carriage
  returns.
- **Randomness.** `crypto/rand` is an input byte sequence of the length Go
  asks for. An error from `rand.Read` is ignored by the code and not modelled.
- **Template rendering and directory writes.** `Chart.Sync` and
  `Chart.Reset` are left out, as are the `DaggerDirectory` and
  `originalContent` fields. The parsed template is kept as its text.
- **Concurrency and the other tests.** The concurrent test runners and the
  other tests in tests/main.go are left out.
- **Method structure.** `PackagePush` in both files is one Go function. Here
  it is split into phase methods (`LogInAndDeliver`, `ResolveDependencies`,
  `ShipChart`, `LogInAndProbe`, `ProbeAndSync`, `SyncBuild`), each proved
  against its stage of the specification function.
- **The equivalence check in the loop.** It is passed to
  `HelmDeps.DependencyLogins` as a function value (`NotEquivalentTo`). The
  loop calls the same pure function, so nothing is lost.
