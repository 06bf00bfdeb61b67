/** `TestMain` and the active test `TestSonobuoyVersion`: resolve the binary,
    take the commit SHA and the version from flags or the environment, abort
    with status 1 when any of these is missing, otherwise run the test and
    exit with its result. */
module Suite {
  import opened Wrappers
  import opened Lines
  import opened Resolver
  import opened Verification

  /** The environment variables the harness reads. `KUBECONFIG` is passed
      to the binary as an argument and not interpreted. */
  datatype Environment = Environment(sonobuoyCLI: string, gitSHA: string, gitVersion: string, kubeconfig: string)

  /** The `--git-sha` and `--git-version` flags, `None` when not given on the
      command line. */
  datatype Flags = Flags(gitSHA: Option<string>, gitVersion: Option<string>)

  /** One execution of the binary: its path and its argument list. */
  datatype Invocation = Invocation(binary: string, args: seq<string>)

  /** Why the suite stopped before running any test. */
  datatype AbortReason = CLINotFound(path: string) | MissingGitSHA | MissingGitVersion

  /** The suite either stopped during bootstrap or ran the test. */
  datatype SuiteOutcome = Aborted(reason: AbortReason) | Completed(verdict: VersionVerdict)

  /** A flag given on the command line wins over the environment default,
      even when it is given as the empty string. */
  function Effective(flag: Option<string>, envDefault: string): (value: string)
    ensures flag.Some? ==> value == flag.value
    ensures flag.None? ==> value == envDefault
    ensures flag == Some([]) ==> value == []
  {
    match flag
    case Some(v) => v
    case None => envDefault
  }

  /** `sonobuoy version2 --kubeconfig $KUBECONFIG`. */
  function VersionInvocation(binary: string, kubeconfig: string): (inv: Invocation)
    ensures inv.binary == binary
    ensures |inv.args| == 3 && inv.args[0] == "version2" && inv.args[1] == "--kubeconfig"
    ensures inv.args[2] == kubeconfig
  {
    Invocation(binary, ["version2", "--kubeconfig", kubeconfig])
  }

  /** The decision `TestMain` takes, as a function of its inputs: the stat
      oracle stands for the filesystem and `invoke` for running a process. */
  function Bootstrap(env: Environment, flags: Flags, stat: string -> StatResult, invoke: Invocation -> RunOutcome): (o: SuiteOutcome)
    // resolution comes first, whatever the metadata
    ensures o == Aborted(CLINotFound(CandidatePath(env.sonobuoyCLI))) <==> stat(CandidatePath(env.sonobuoyCLI)) == NotExist
    // then the SHA, before the version
    ensures o == Aborted(MissingGitSHA) <==>
      stat(CandidatePath(env.sonobuoyCLI)) != NotExist && Effective(flags.gitSHA, env.gitSHA) == []
    ensures o == Aborted(MissingGitVersion) <==>
      stat(CandidatePath(env.sonobuoyCLI)) != NotExist && Effective(flags.gitSHA, env.gitSHA) != []
      && Effective(flags.gitVersion, env.gitVersion) == []
    // the test runs only with a resolved binary and both metadata strings
    ensures o.Completed? <==>
      stat(CandidatePath(env.sonobuoyCLI)) != NotExist
      && Effective(flags.gitSHA, env.gitSHA) != [] && Effective(flags.gitVersion, env.gitVersion) != []
    ensures o.Completed? ==>
      o.verdict == VersionTest(invoke(VersionInvocation(CandidatePath(env.sonobuoyCLI), env.kubeconfig)),
                               Effective(flags.gitVersion, env.gitVersion), Effective(flags.gitSHA, env.gitSHA))
  {
    match FindSonobuoyCLI(env.sonobuoyCLI, stat)
    case Err(NotFound(path)) => Aborted(CLINotFound(path))
    case Ok(binary) =>
      var sha := Effective(flags.gitSHA, env.gitSHA);
      var version := Effective(flags.gitVersion, env.gitVersion);
      if sha == [] then Aborted(MissingGitSHA)
      else if version == [] then Aborted(MissingGitVersion)
      else Completed(VersionTest(invoke(VersionInvocation(binary, env.kubeconfig)), version, sha))
  }

  /** The status passed to `os.Exit`: 1 for every abort, otherwise the
      result of `m.Run()`, which is 0 exactly when the test passed. */
  function ExitCode(o: SuiteOutcome): (code: int)
    ensures code == 0 || code == 1
    ensures code == 0 <==> o.Completed? && o.verdict.Passed()
  {
    match o
    case Aborted(_) => 1
    case Completed(v) => if v.Passed() then 0 else 1
  }

  /** A found binary that prints exactly the expected lines, run with both
      metadata strings present, makes the whole suite exit 0. */
  lemma HealthySuiteExitsZero(env: Environment, flags: Flags, stat: string -> StatResult, invoke: Invocation -> RunOutcome, trailer: string)
    requires stat(CandidatePath(env.sonobuoyCLI)) != NotExist
    requires Effective(flags.gitSHA, env.gitSHA) != [] && NoNewline(Effective(flags.gitSHA, env.gitSHA))
    requires Effective(flags.gitVersion, env.gitVersion) != [] && NoNewline(Effective(flags.gitVersion, env.gitVersion))
    requires invoke(VersionInvocation(CandidatePath(env.sonobuoyCLI), env.kubeconfig))
      == RunSucceeded(Join(ExpectedOutput(Effective(flags.gitVersion, env.gitVersion), Effective(flags.gitSHA, env.gitSHA))) + [Newline] + trailer)
    ensures ExitCode(Bootstrap(env, flags, stat, invoke)) == 0
  {
    RenderedOutputPasses(Effective(flags.gitVersion, env.gitVersion), Effective(flags.gitSHA, env.gitSHA), trailer);
  }

  /** The package-level state `TestMain` fills in: the resolved binary and
      the two metadata strings, read by the test afterwards. */
  class Harness {
    var sonobuoy: string
    var gitSHA: string
    var gitVersion: string

    /** The run context is ready for tests: all three values are set. */
    predicate Ready()
      reads this
    {
      sonobuoy != [] && gitSHA != [] && gitVersion != []
    }

    constructor ()
      ensures sonobuoy == [] && gitSHA == [] && gitVersion == []
    {
      sonobuoy, gitSHA, gitVersion := [], [], [];
    }

    /** Runs the binary and checks its output against the expected lines
        built from the current metadata. */
    method TestSonobuoyVersion(kubeconfig: string, invoke: Invocation -> RunOutcome) returns (v: VersionVerdict)
      ensures v == VersionTest(invoke(VersionInvocation(sonobuoy, kubeconfig)), gitVersion, gitSHA)
    {
      var run := invoke(VersionInvocation(sonobuoy, kubeconfig));
      if run.RunFailed? {
        return RunError(run.stderr);
      }
      var expected := ExpectedOutput(gitVersion, gitSHA);
      var lines := Split(run.stdout);
      var reports := CompareLines(expected, lines);
      v := Compared(reports);
    }

    /** Bootstrap, step by step: each check either stops with status 1 or
        fills in more of the run context; the test runs only once the
        context is ready. */
    method TestMain(env: Environment, flags: Flags, stat: string -> StatResult, invoke: Invocation -> RunOutcome)
      returns (outcome: SuiteOutcome, code: int)
      modifies this
      ensures outcome == Bootstrap(env, flags, stat, invoke)
      ensures code == ExitCode(outcome)
      ensures outcome.Completed? ==>
        Ready() && sonobuoy == CandidatePath(env.sonobuoyCLI)
        && gitSHA == Effective(flags.gitSHA, env.gitSHA) && gitVersion == Effective(flags.gitVersion, env.gitVersion)
    {
      var resolved := FindSonobuoyCLI(env.sonobuoyCLI, stat);
      sonobuoy := if resolved.Ok? then resolved.value else [];
      if resolved.Err? {
        outcome := Aborted(CLINotFound(resolved.error.path));
        code := 1;
        return;
      }
      gitSHA := Effective(flags.gitSHA, env.gitSHA);
      gitVersion := Effective(flags.gitVersion, env.gitVersion);
      if gitSHA == [] {
        outcome := Aborted(MissingGitSHA);
        code := 1;
        return;
      }
      if gitVersion == [] {
        outcome := Aborted(MissingGitVersion);
        code := 1;
        return;
      }
      var verdict := TestSonobuoyVersion(env.kubeconfig, invoke);
      outcome := Completed(verdict);
      code := if verdict.Passed() then 0 else 1;
    }
  }
}
