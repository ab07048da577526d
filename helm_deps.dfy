/** Dependency handling in helm/main.go: which dependency repositories a
    publish call logs into (`setupContainerForDependentCharts`,
    `repositoriesAreNotEquivalent`, `getRepoURLs`) and when it resolves
    dependencies at all (`hasMissingDependencies`). */
module HelmDeps {
  import opened Options
  import opened Text
  import opened Exec
  import opened HelmOpts

  /** The `normalize` closure of `repositoriesAreNotEquivalent`: the trimmed
      URL up to its first "://", lower-cased. `None` stands for the panic of
      Go's slice `result[:-1]` when there is no "://". A result is the
      lower-cased text before the first "://". */
  function Normalize(url: string): (r: Option<string>)
    ensures r.Some? ==> OccursAt(TrimSpace(url), "://", |r.value|)
    ensures r.Some? ==> forall j: nat :: j < |r.value| ==> !OccursAt(TrimSpace(url), "://", j)
    ensures r.Some? ==> r.value == ToLower(TrimSpace(url)[..|r.value|])
  {
    var t := TrimSpace(url);
    IndexOfFirst(t, "://");
    match IndexOf(t, "://")
    case None => None
    case Some(k) => Some(ToLower(t[..k]))
  }

  /** Normalising panics exactly when the trimmed URL holds no "://". */
  lemma NormalizePanics(url: string)
    ensures Normalize(url).None? <==> forall i: nat :: !OccursAt(TrimSpace(url), "://", i)
  {
    IndexOfFirst(TrimSpace(url), "://");
  }

  /** `repositoriesAreNotEquivalent(one, two)`: true for an empty `one`,
      otherwise whether the normalised `one` does not contain the normalised
      `two`. `None` when normalising panics. */
  function RepositoriesAreNotEquivalent(one: string, two: string): (r: Option<bool>)
    ensures one == "" ==> r == Some(true)
    ensures one != "" ==> (r.None? <==> Normalize(one).None? || Normalize(two).None?)
  {
    if one == "" then Some(true)
    else match (Normalize(one), Normalize(two))
      case (Some(a), Some(b)) => Some(!Contains(a, b))
      case _ => None
  }

  /** Trimming a URL that starts with a scheme only drops trailing space. */
  lemma TrimSchemeUrl(scheme: string, rest: string)
    requires scheme != [] && !IsSpace(scheme[0])
    ensures TrimSpace(scheme + "://" + rest) == scheme + "://" + TrimRight(rest)
  {
    var body := TrimRight(rest);
    var post := rest[|body|..];
    var x := scheme + "://" + body;
    TrimRightDropsSpace(rest);
    assert rest == body + post;
    assert scheme + "://" + rest == [] + x + post;
    assert x[0] == scheme[0];
    assert x[|x| - 1] == (if body == [] then '/' else body[|body| - 1]);
    TrimSpacePadded([], x, post);
  }

  /** In `scheme + "://" + body` with no ':' in the scheme, the first "://"
      follows the scheme. */
  lemma FirstSeparator(scheme: string, body: string)
    requires ':' !in scheme
    ensures IndexOf(scheme + "://" + body, "://") == Some(|scheme|)
  {
    var x := scheme + "://" + body;
    assert x[|scheme|..|scheme| + 3] == "://";
    assert OccursAt(x, "://", |scheme|);
    forall j: nat | j < |scheme|
      ensures !OccursAt(x, "://", j)
    {
      if j + 3 <= |x| {
        assert x[j..j + 3][0] == x[j] == scheme[j];
      }
    }
    IndexOfFirst(x, "://");
  }

  /** A URL made of a scheme (no ':' in it, no white space in front), "://"
      and anything at all normalises to the lower-cased scheme. */
  lemma NormalizeScheme(scheme: string, rest: string)
    requires scheme != [] && !IsSpace(scheme[0]) && ':' !in scheme
    ensures Normalize(scheme + "://" + rest) == Some(ToLower(scheme))
  {
    TrimSchemeUrl(scheme, rest);
    var x := scheme + "://" + TrimRight(rest);
    FirstSeparator(scheme, TrimRight(rest));
    assert x[..|scheme|] == scheme;
  }

  /** Whatever the hosts, two URLs are "equivalent" exactly when the first
      scheme, lower-cased, contains the second: the check compares schemes
      (section 3.1 of RFC 3986), never hosts. */
  lemma ComparesSchemesOnly(scheme1: string, host1: string, scheme2: string, host2: string)
    requires scheme1 != [] && !IsSpace(scheme1[0]) && ':' !in scheme1
    requires scheme2 != [] && !IsSpace(scheme2[0]) && ':' !in scheme2
    ensures RepositoriesAreNotEquivalent(scheme1 + "://" + host1, scheme2 + "://" + host2)
         == Some(!Contains(ToLower(scheme1), ToLower(scheme2)))
  {
    NormalizeScheme(scheme1, host1);
    NormalizeScheme(scheme2, host2);
  }

  /** The target repository locator normalises to its protocol. */
  lemma RepoFqdnScheme(p: PushOpts)
    ensures Normalize(RepoFqdn(p)) == Some(Protocol(p))
  {
    var rest := p.registry + "/" + p.repository;
    var proto := Protocol(p);
    assert RepoFqdn(p) == proto + "://" + rest;
    assert proto[0] == 'o' || proto[0] == 'h';
    assert forall i :: 0 <= i < |proto| ==> 'a' <= proto[i] <= 'z';
    NormalizeScheme(proto, rest);
    ToLowerKeeps(proto);
  }

  /** `getRepoURLs`: the lines of the listing, in order, as a
      `bufio.Scanner` yields them. */
  method GetRepoURLs(values: string) returns (urls: seq<string>)
    ensures urls == Lines(values)
    ensures forall k :: 0 <= k < |urls| ==> '\n' !in urls[k]
    ensures values == "" <==> urls == []
  {
    LinesHaveNoFeed(values);
    urls := [];
    var rest := values;
    while rest != []
      invariant urls + Lines(rest) == Lines(values)
      decreases |rest|
    {
      var line := FirstLine(rest);
      urls := urls + [DropCR(line)];
      rest := if |line| < |rest| then rest[|line| + 1..] else [];
    }
  }

  /** `hasMissingDependencies`: whether `helm dependency list` reports the
      word "missing" anywhere. */
  function HasMissingDependencies(listing: string): (r: bool)
    ensures r <==> exists i: nat :: OccursAt(listing, "missing", i)
  {
    ContainsOccurs(listing, "missing");
    Contains(listing, "missing")
  }

  /** What the loop of `setupContainerForDependentCharts` issues. */
  datatype LoginPlan = LoginPlan(logins: seq<Cmd>, panicked: bool)

  /** The check the loop applies to each listed URL: whether it is not
      equivalent to the repository already logged into. */
  function NotEquivalentTo(already: string): string -> Option<bool> {
    u => RepositoriesAreNotEquivalent(already, u)
  }

  /** The loop over the dependency repositories: a login for each URL the
      check `differs` accepts, in order, stopping where the check panics. */
  function DependencyLogins(differs: string -> Option<bool>, urls: seq<string>, username: string, oci: bool): (r: LoginPlan)
    ensures |r.logins| <= |urls|
  {
    if urls == [] then LoginPlan([], false)
    else match differs(urls[0])
      case None => LoginPlan([], true)
      case Some(d) =>
        var rest := DependencyLogins(differs, urls[1..], username, oci);
        if d then LoginPlan([RegistryLogin(urls[0], username, oci)] + rest.logins, rest.panicked)
        else rest
  }

  /** `c` is a registry login as `username` over the given protocol. */
  predicate LoginAs(c: Cmd, username: string, oci: bool) {
    c.RegistryLogin? && c.username == username && c.oci == oci
  }

  /** Every command of `cs` is such a login. */
  predicate AllLoginsAs(cs: seq<Cmd>, username: string, oci: bool) {
    forall k :: 0 <= k < |cs| ==> LoginAs(cs[k], username, oci)
  }

  /** Every login of the loop uses the caller's user name and protocol. */
  lemma {:induction false} LoginsAsUser(differs: string -> Option<bool>, urls: seq<string>, username: string, oci: bool)
    ensures AllLoginsAs(DependencyLogins(differs, urls, username, oci).logins, username, oci)
  {
    if urls != [] {
      LoginsAsUser(differs, urls[1..], username, oci);
      var logins := DependencyLogins(differs, urls, username, oci).logins;
      var rest := DependencyLogins(differs, urls[1..], username, oci).logins;
      if differs(urls[0]) == Some(true) {
        assert logins == [RegistryLogin(urls[0], username, oci)] + rest;
        assert forall k :: 0 < k < |logins| ==> logins[k] == rest[k - 1];
      } else {
        assert logins == if differs(urls[0]).None? then [] else rest;
      }
    }
  }

  /** The loop panics exactly when the check panics on some listed URL. */
  lemma {:induction false} PanicsOnUndecided(differs: string -> Option<bool>, urls: seq<string>, username: string, oci: bool)
    ensures DependencyLogins(differs, urls, username, oci).panicked
        <==> exists u :: u in urls && differs(u).None?
  {
    if urls != [] {
      PanicsOnUndecided(differs, urls[1..], username, oci);
      if differs(urls[0]).None? {
        assert urls[0] in urls;
      } else {
        assert forall u :: u in urls <==> u == urls[0] || u in urls[1..];
      }
    }
  }

  /** Against a target that normalises, the loop panics exactly when some
      listed URL cannot be normalised. */
  lemma LoginPanics(already: string, urls: seq<string>, username: string, oci: bool)
    requires Normalize(already).Some?
    ensures DependencyLogins(NotEquivalentTo(already), urls, username, oci).panicked
        <==> exists u :: u in urls && Normalize(u).None?
  {
    PanicsOnUndecided(NotEquivalentTo(already), urls, username, oci);
    assert already != "";
    assert forall u :: NotEquivalentTo(already)(u).None? <==> Normalize(u).None?;
  }

  /** Unless it panics, the loop logs into exactly the listed URLs that the
      check accepts. */
  lemma {:induction false} LoginTargets(differs: string -> Option<bool>, urls: seq<string>, username: string, oci: bool, u: string)
    requires !DependencyLogins(differs, urls, username, oci).panicked
    ensures RegistryLogin(u, username, oci) in DependencyLogins(differs, urls, username, oci).logins
        <==> u in urls && differs(u) == Some(true)
  {
    if urls != [] {
      assert differs(urls[0]).Some?;
      LoginTargets(differs, urls[1..], username, oci, u);
      assert u in urls <==> u == urls[0] || u in urls[1..];
    }
  }

  /** With nothing logged into yet (`already` empty) the loop logs into
      every listed URL, in order. */
  lemma {:induction false} LoginsWithoutTarget(urls: seq<string>, username: string, oci: bool)
    ensures DependencyLogins(NotEquivalentTo(""), urls, username, oci)
         == LoginPlan(seq(|urls|, k requires 0 <= k < |urls| => RegistryLogin(urls[k], username, oci)), false)
  {
    if urls != [] {
      LoginsWithoutTarget(urls[1..], username, oci);
      assert NotEquivalentTo("")(urls[0]) == Some(true);
    }
  }

  /** `setupContainerForDependentCharts`: list the dependency repositories,
      then run the login loop. The loop's login results are dropped: Go
      calls `registryLogin` without keeping its error and re-checks the
      listing step's `err`, which is nil there. */
  function DependencySetup(answer: Oracle, username: string, oci: bool, already: string): (r: Steps)
    ensures r.failure.Some? && r.failure.value.Error? ==>
              r.trace == [DependencyRepositories] && answer(DependencyRepositories) == Failed(r.failure.value.message)
    ensures |r.trace| > 0 && r.trace[0] == DependencyRepositories
  {
    var listing := answer(DependencyRepositories);
    if listing.Failed? then Steps(Some(ErrorOf(listing)), [DependencyRepositories])
    else
      var plan := DependencyLogins(NotEquivalentTo(already), Lines(listing.stdout), username, oci);
      Steps(if plan.panicked then Some(Panic) else None, [DependencyRepositories] + plan.logins)
  }

  /** After the listing, the setup issues nothing but logins. */
  lemma SetupIssuesOnlyLogins(answer: Oracle, username: string, oci: bool, already: string)
    ensures AllLoginsAs(DependencySetup(answer, username, oci, already).trace[1..], username, oci)
  {
    var r := DependencySetup(answer, username, oci, already);
    var listing := answer(DependencyRepositories);
    if listing.Done? {
      var plan := DependencyLogins(NotEquivalentTo(already), Lines(listing.stdout), username, oci);
      LoginsAsUser(NotEquivalentTo(already), Lines(listing.stdout), username, oci);
      assert r.trace[1..] == plan.logins;
    }
  }

  /** The answers to the logins never matter: two oracles that agree on the
      repository listing give the same outcome. */
  lemma LoginAnswersIgnored(answer1: Oracle, answer2: Oracle, username: string, oci: bool, already: string)
    requires answer1(DependencyRepositories) == answer2(DependencyRepositories)
    ensures DependencySetup(answer1, username, oci, already) == DependencySetup(answer2, username, oci, already)
  {
  }

  /** One turn of the login loop: how the plan for the URLs from `i` on
      follows from the check on `urls[i]` and the plan from `i + 1` on,
      stated for a loop that has issued `logins` so far towards `target`. */
  lemma LoginTurn(differs: string -> Option<bool>, urls: seq<string>, i: nat, username: string, oci: bool,
                  logins: seq<Cmd>, target: LoginPlan)
    requires i < |urls|
    requires logins + DependencyLogins(differs, urls[i..], username, oci).logins == target.logins
    requires DependencyLogins(differs, urls[i..], username, oci).panicked == target.panicked
    ensures differs(urls[i]).None? ==> LoginPlan(logins, true) == target
    ensures differs(urls[i]) == Some(true) ==>
              && (logins + [RegistryLogin(urls[i], username, oci)]) + DependencyLogins(differs, urls[i + 1..], username, oci).logins == target.logins
              && DependencyLogins(differs, urls[i + 1..], username, oci).panicked == target.panicked
    ensures differs(urls[i]) == Some(false) ==>
              && logins + DependencyLogins(differs, urls[i + 1..], username, oci).logins == target.logins
              && DependencyLogins(differs, urls[i + 1..], username, oci).panicked == target.panicked
  {
    assert urls[i..][1..] == urls[i + 1..];
    var tail := DependencyLogins(differs, urls[i + 1..], username, oci).logins;
    if differs(urls[i]) == Some(true) {
      assert logins + ([RegistryLogin(urls[i], username, oci)] + tail) == (logins + [RegistryLogin(urls[i], username, oci)]) + tail;
    }
  }

  /** The `for` loop of `setupContainerForDependentCharts`: one login per
      URL not equivalent to `already`; the login's own error is dropped. */
  method LogIntoDependencies(answer: Oracle, username: string, oci: bool, already: string, urls: seq<string>)
    returns (logins: seq<Cmd>, panicked: bool)
    ensures LoginPlan(logins, panicked) == DependencyLogins(NotEquivalentTo(already), urls, username, oci)
  {
    var differs := NotEquivalentTo(already);
    ghost var plan := DependencyLogins(differs, urls, username, oci);
    logins := [];
    var i := 0;
    while i < |urls|
      invariant 0 <= i <= |urls|
      invariant logins + DependencyLogins(differs, urls[i..], username, oci).logins == plan.logins
      invariant DependencyLogins(differs, urls[i..], username, oci).panicked == plan.panicked
    {
      LoginTurn(differs, urls, i, username, oci, logins, plan);
      var notEquivalent := differs(urls[i]);
      if notEquivalent.None? {
        return logins, true;
      }
      if notEquivalent.value {
        var login := RegistryLogin(urls[i], username, oci);
        logins := logins + [login];
        var ignored := answer(login);
      }
      i := i + 1;
    }
    assert urls[i..] == [];
    assert logins == plan.logins;
    return logins, false;
  }

  /** `setupContainerForDependentCharts`. */
  method SetupContainerForDependentCharts(answer: Oracle, username: string, oci: bool, already: string)
    returns (failure: Option<Failure>, trace: seq<Cmd>)
    ensures Steps(failure, trace) == DependencySetup(answer, username, oci, already)
  {
    trace := [DependencyRepositories];
    var listing := answer(DependencyRepositories);
    if listing.Failed? {
      return Some(ErrorOf(listing)), trace;
    }
    var urls := GetRepoURLs(listing.stdout);
    var logins, panicked := LogIntoDependencies(answer, username, oci, already, urls);
    trace := trace + logins;
    if panicked {
      return Some(Panic), trace;
    }
    return None, trace;
  }
}
