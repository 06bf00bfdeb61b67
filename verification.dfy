/** The comparison half of `TestSonobuoyVersion`: the four expected lines of
    `sonobuoy version2`, the positional comparison of captured standard output
    against them, and the verdict of the test. */
module Verification {
  import opened Lines

  /** One failed comparison: the line index, the expected line and the line
      the binary printed there. */
  datatype Mismatch = Mismatch(index: nat, expected: string, actual: string)

  /** The outcome of running the binary: either it could not start or exited
      non-zero (with the captured standard error), or it exited zero with
      the captured standard output. */
  datatype RunOutcome = RunFailed(stderr: string) | RunSucceeded(stdout: string)

  /** The test either stops on a run error before comparing anything, or
      reports every mismatched line. */
  datatype VersionVerdict = RunError(stderr: string) | Compared(mismatches: seq<Mismatch>)
  {
    predicate Passed()
    {
      Compared? && mismatches == []
    }
  }

  const VersionPrefix: string := "Sonobuoy Version: "
  const MinimumKubeLine: string := "MinimumKubeVersion: 1.13.0"
  const MaximumKubeLine: string := "MaximumKubeVersion: 1.15.99"
  const ShaPrefix: string := "GitSHA: "

  /** The expected output: four lines whose first and last carry the version
      and the SHA behind fixed labels, so both can be read back. */
  function ExpectedOutput(gitVersion: string, gitSHA: string): (e: seq<string>)
    ensures |e| == 4
    ensures |e[0]| >= |VersionPrefix| && e[0][..|VersionPrefix|] == VersionPrefix && e[0][|VersionPrefix|..] == gitVersion
    ensures e[1] == MinimumKubeLine && e[2] == MaximumKubeLine
    ensures |e[3]| >= |ShaPrefix| && e[3][..|ShaPrefix|] == ShaPrefix && e[3][|ShaPrefix|..] == gitSHA
  {
    [VersionPrefix + gitVersion, MinimumKubeLine, MaximumKubeLine, ShaPrefix + gitSHA]
  }

  /** Line i is compared, and differs from what was expected. */
  predicate Differs(expected: seq<string>, lines: seq<string>, i: nat)
  {
    i < |expected| && i < |lines| && lines[i] != expected[i]
  }

  /** Some report names index i. */
  predicate Reported(ms: seq<Mismatch>, i: nat)
  {
    exists k :: 0 <= k < |ms| && ms[k].index == i
  }

  /** The reports produced after the loop has visited the first n actual
      lines. */
  function MismatchesUpTo(expected: seq<string>, lines: seq<string>, n: nat): seq<Mismatch>
    requires n <= |lines|
  {
    if n == 0 then []
    else
      MismatchesUpTo(expected, lines, n - 1)
      + (if Differs(expected, lines, n - 1) then [Mismatch(n - 1, expected[n - 1], lines[n - 1])] else [])
  }

  /** The reports for the whole of the actual output. */
  function Mismatches(expected: seq<string>, lines: seq<string>): seq<Mismatch>
  {
    MismatchesUpTo(expected, lines, |lines|)
  }

  /** The loop over the actual lines: every line with an expected
      counterpart is compared, and each difference is recorded without
      stopping. */
  method CompareLines(expected: seq<string>, lines: seq<string>) returns (reports: seq<Mismatch>)
    ensures reports == Mismatches(expected, lines)
  {
    reports := [];
    for i := 0 to |lines|
      invariant reports == MismatchesUpTo(expected, lines, i)
    {
      var line := lines[i];
      if i < |expected| {
        if expected[i] != line {
          reports := reports + [Mismatch(i, expected[i], line)];
        }
      }
    }
  }

  /** Every report names a compared line that differs, and carries the
      expected and the actual line. */
  predicate ReportsSound(expected: seq<string>, lines: seq<string>, ms: seq<Mismatch>)
  {
    forall k :: 0 <= k < |ms| ==>
      Differs(expected, lines, ms[k].index)
      && ms[k].expected == expected[ms[k].index] && ms[k].actual == lines[ms[k].index]
  }

  /** Reports come in strictly increasing index order. */
  predicate InIndexOrder(ms: seq<Mismatch>)
  {
    forall k, j :: 0 <= k < j < |ms| ==> ms[k].index < ms[j].index
  }

  /** Every differing line below n is reported. */
  predicate ReportsComplete(expected: seq<string>, lines: seq<string>, ms: seq<Mismatch>, n: nat)
  {
    forall i: nat :: i < n && Differs(expected, lines, i) ==> Reported(ms, i)
  }

  /** After n lines: every report is a genuine difference at an index below
      n, indices strictly increase, and every difference below n is
      reported. */
  lemma {:induction false} MismatchesUpToSpec(expected: seq<string>, lines: seq<string>, n: nat)
    requires n <= |lines|
    ensures ReportsSound(expected, lines, MismatchesUpTo(expected, lines, n))
    ensures forall k :: 0 <= k < |MismatchesUpTo(expected, lines, n)| ==> MismatchesUpTo(expected, lines, n)[k].index < n
    ensures InIndexOrder(MismatchesUpTo(expected, lines, n))
    ensures ReportsComplete(expected, lines, MismatchesUpTo(expected, lines, n), n)
  {
    if n > 0 {
      MismatchesUpToSpec(expected, lines, n - 1);
      var prev := MismatchesUpTo(expected, lines, n - 1);
      var ms := MismatchesUpTo(expected, lines, n);
      assert ms[..|prev|] == prev;
      forall i: nat | i < n && Differs(expected, lines, i)
        ensures Reported(ms, i)
      {
        if i < n - 1 {
          var k :| 0 <= k < |prev| && prev[k].index == i;
          assert ms[k] == prev[k];
        } else {
          assert ms[|prev|].index == i;
        }
      }
    }
  }

  /** An index is reported exactly when that line is compared and differs;
      reports come in increasing index order, so each index at most once,
      and carry the expected and the actual line. */
  lemma MismatchesExactly(expected: seq<string>, lines: seq<string>)
    ensures forall i: nat :: Reported(Mismatches(expected, lines), i) <==> Differs(expected, lines, i)
    ensures InIndexOrder(Mismatches(expected, lines))
    ensures ReportsSound(expected, lines, Mismatches(expected, lines))
  {
    var ms := Mismatches(expected, lines);
    MismatchesUpToSpec(expected, lines, |lines|);
    forall i: nat | Reported(ms, i)
      ensures Differs(expected, lines, i)
    {
      var k :| 0 <= k < |ms| && ms[k].index == i;
    }
  }

  /** Nothing is reported exactly when every compared line matches. */
  lemma NoMismatchesIff(expected: seq<string>, lines: seq<string>)
    ensures Mismatches(expected, lines) == []
        <==> forall i :: 0 <= i < |expected| && i < |lines| ==> lines[i] == expected[i]
  {
    var ms := Mismatches(expected, lines);
    MismatchesExactly(expected, lines);
    if ms != [] {
      assert Differs(expected, lines, ms[0].index);
    } else {
      forall i | 0 <= i < |expected| && i < |lines|
        ensures lines[i] == expected[i]
      {
        assert Differs(expected, lines, i) ==> Reported(ms, i);
      }
    }
  }

  /** Extra actual lines beyond the expected ones are never flagged. */
  lemma {:induction false} ExtraLinesIgnored(expected: seq<string>, lines: seq<string>, extra: seq<string>, n: nat)
    requires |expected| <= |lines| && n <= |lines| + |extra|
    ensures n <= |lines| ==> MismatchesUpTo(expected, lines + extra, n) == MismatchesUpTo(expected, lines, n)
    ensures |lines| <= n ==> MismatchesUpTo(expected, lines + extra, n) == Mismatches(expected, lines)
  {
    if n > 0 {
      ExtraLinesIgnored(expected, lines, extra, n - 1);
    }
  }

  /** Expected lines beyond the actual output are never compared: a longer
      expectation over the same output gives the same reports. */
  lemma {:induction false} MissingLinesIgnored(expected: seq<string>, more: seq<string>, lines: seq<string>, n: nat)
    requires |lines| <= |expected| && n <= |lines|
    ensures MismatchesUpTo(expected + more, lines, n) == MismatchesUpTo(expected, lines, n)
  {
    if n > 0 {
      MissingLinesIgnored(expected, more, lines, n - 1);
      assert (expected + more)[n - 1] == expected[n - 1];
    }
  }

  /** The verdict of `TestSonobuoyVersion` for one run of the binary. */
  function VersionTest(run: RunOutcome, gitVersion: string, gitSHA: string): (v: VersionVerdict)
    ensures run.RunFailed? <==> v.RunError?
    ensures run.RunFailed? ==> v.stderr == run.stderr
    ensures v.Compared? ==> v.mismatches == Mismatches(ExpectedOutput(gitVersion, gitSHA), Split(run.stdout))
    ensures v.Passed() <==>
      run.RunSucceeded? &&
      var lines := Split(run.stdout);
      forall i :: 0 <= i < 4 && i < |lines| ==> lines[i] == ExpectedOutput(gitVersion, gitSHA)[i]
  {
    match run
    case RunFailed(stderr) => RunError(stderr)
    case RunSucceeded(stdout) =>
      NoMismatchesIff(ExpectedOutput(gitVersion, gitSHA), Split(stdout));
      Compared(Mismatches(ExpectedOutput(gitVersion, gitSHA), Split(stdout)))
  }

  /** A binary that prints exactly the expected lines, with or without
      anything after a further newline, passes. */
  lemma RenderedOutputPasses(gitVersion: string, gitSHA: string, trailer: string)
    requires NoNewline(gitVersion) && NoNewline(gitSHA)
    ensures VersionTest(RunSucceeded(Join(ExpectedOutput(gitVersion, gitSHA))), gitVersion, gitSHA).Passed()
    ensures VersionTest(RunSucceeded(Join(ExpectedOutput(gitVersion, gitSHA)) + [Newline] + trailer), gitVersion, gitSHA).Passed()
  {
    var e := ExpectedOutput(gitVersion, gitSHA);
    NoNewlineConcat(VersionPrefix, gitVersion);
    NoNewlineConcat(ShaPrefix, gitSHA);
    SplitJoin(e);
    SplitAround(Join(e), trailer);
    ExtraLinesIgnored(e, e, Split(trailer), |e + Split(trailer)|);
    NoMismatchesIff(e, e);
  }

  /** Concatenating two newline-free strings gives a newline-free string. */
  lemma NoNewlineConcat(a: string, b: string)
    requires NoNewline(a) && NoNewline(b)
    ensures NoNewline(a + b)
  {
  }

  /** The asymmetry left open by the positional comparison: output that
      stops after the first expected line still passes, because the three
      missing lines are never compared. */
  lemma TruncatedOutputPasses(gitVersion: string, gitSHA: string)
    requires NoNewline(gitVersion)
    ensures VersionTest(RunSucceeded(ExpectedOutput(gitVersion, gitSHA)[0]), gitVersion, gitSHA).Passed()
  {
    var first := ExpectedOutput(gitVersion, gitSHA)[0];
    NoNewlineConcat(VersionPrefix, gitVersion);
    SplitSingle(first);
  }

  /** A trailing newline right after the first line yields an empty second
      line, which is compared and reported. */
  lemma TrailingEmptyLineCompared(gitVersion: string, gitSHA: string)
    requires NoNewline(gitVersion)
    ensures var e := ExpectedOutput(gitVersion, gitSHA);
      VersionTest(RunSucceeded(e[0] + [Newline]), gitVersion, gitSHA)
        == Compared([Mismatch(1, MinimumKubeLine, [])])
  {
    var e := ExpectedOutput(gitVersion, gitSHA);
    NoNewlineConcat(VersionPrefix, gitVersion);
    SplitSingle(e[0]);
    TrailingNewline(e[0]);
    assert Split(e[0] + [Newline]) == [e[0], []];
    assert e[1] != [] by { assert |e[1]| > 0; }
    assert MismatchesUpTo(e, [e[0], []], 1) == [];
  }

  /** The matching scenario: version v0.15.0 and SHA abc123, printed as
      four lines ending in a newline, give no mismatch. */
  lemma MatchingScenario()
    ensures VersionTest(
      RunSucceeded(Join(["Sonobuoy Version: v0.15.0", "MinimumKubeVersion: 1.13.0",
                         "MaximumKubeVersion: 1.15.99", "GitSHA: abc123"]) + "\n"),
      "v0.15.0", "abc123") == Compared([])
  {
    assert VersionPrefix + "v0.15.0" == "Sonobuoy Version: v0.15.0";
    assert ShaPrefix + "abc123" == "GitSHA: abc123";
    RenderedOutputPasses("v0.15.0", "abc123", []);
    assert Join(ExpectedOutput("v0.15.0", "abc123")) + [Newline] + [] == Join(ExpectedOutput("v0.15.0", "abc123")) + "\n";
  }

  /** The mismatching scenario: the binary reports v0.14.0 where v0.15.0
      is expected; exactly one mismatch, at index 0. */
  lemma VersionMismatchScenario()
    ensures VersionTest(
      RunSucceeded(Join(["Sonobuoy Version: v0.14.0", "MinimumKubeVersion: 1.13.0",
                         "MaximumKubeVersion: 1.15.99", "GitSHA: abc123"])),
      "v0.15.0", "abc123")
      == Compared([Mismatch(0, "Sonobuoy Version: v0.15.0", "Sonobuoy Version: v0.14.0")])
  {
    var actual := ["Sonobuoy Version: v0.14.0", MinimumKubeLine, MaximumKubeLine, "GitSHA: abc123"];
    var e := ExpectedOutput("v0.15.0", "abc123");
    assert e[0] == "Sonobuoy Version: v0.15.0";
    assert e[3] == actual[3] == "GitSHA: abc123";
    assert forall i :: 0 <= i < 4 ==> NoNewline(actual[i]);
    SplitJoin(actual);
    assert actual[0] != e[0] by { assert actual[0][22] != e[0][22]; }
    assert MismatchesUpTo(e, actual, 1) == [Mismatch(0, e[0], actual[0])];
    assert MismatchesUpTo(e, actual, 2) == MismatchesUpTo(e, actual, 1);
    assert MismatchesUpTo(e, actual, 3) == MismatchesUpTo(e, actual, 1);
    assert MismatchesUpTo(e, actual, 4) == MismatchesUpTo(e, actual, 1);
  }
}
