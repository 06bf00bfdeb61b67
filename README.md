# Sonobuoy integration-test harness, modelled in Dafny

This project models the decision logic of Sonobuoy's integration-test driver,
`test/integration/sonobuoy_integration_test.go`. The driver checks a built
`sonobuoy` binary from the outside. It contains four small procedures:

- **Fixture naming.** `stringWithCharset` fills a byte buffer from a random
  source. `randomNamespace` puts `integration-` in front of five random
  lower-case letters.
- **Binary resolution.** `findSonobuoyCLI` uses the `SONOBUOY_CLI` override
  when it is non-empty and `../../sonobuoy` otherwise. It fails only when
  `os.Stat` says the path does not exist.
- **Output verification.** `TestSonobuoyVersion` runs
  `sonobuoy version2 --kubeconfig $KUBECONFIG` and builds four expected
  lines. It splits standard output with `strings.Split(…, "\n")` and reports
  every position where a compared line differs.
- **Suite bootstrap.** `TestMain` resolves the binary, then reads the SHA and
  the version from flags, with environment defaults. It exits 1 at the first
  missing item. Otherwise it exits with the test run's result.

All I/O is replaced by inputs and oracles:

- The random source becomes a sequence of picks, each below the charset length.
- `os.Stat` becomes an oracle from path to `Found`, `NotExist` or `StatFailed`.
- Running the binary becomes an oracle from an invocation (path and arguments)
  to `RunFailed(stderr)` or `RunSucceeded(stdout)`.
- Environment variables and flags become plain values. A flag is `Some(value)`
  when it is given on the command line.

Modules, one per component of the source file:

- `Wrappers`: Option and Result.
- `Fixtures`: the charset generator, as a loop that fills an array, and the namespace builder, which puts the prefix in front of the generator's result.
- `Lines`: `strings.Split` and `strings.Join` on `"\n"`.
- `Verification`: the expected output, the comparison loop and its specification, and the test verdict.
- `Resolver`: `findSonobuoyCLI`.
- `Suite`: `TestMain` as a pure decision function. It also has a class `Harness`. The class holds the package globals `sonobuoy`, `gitSHA` and `gitVersion`, and its methods assign them step by step.

The model follows the code as written; in particular:

- `findSonobuoyCLI` (lines 36-46) examines only one path: the `SONOBUOY_CLI`
  value when it is non-empty, otherwise `../../sonobuoy`. When an override is
  set but missing, it returns the error and does not try `../../sonobuoy`.
- It returns an error only when `os.IsNotExist` holds of the stat error
  (line 41); any other stat error returns the path with a nil error.
- `TestMain` checks the SHA before the version and exits at the first empty
  one (lines 116-123), so with both missing only the SHA message is printed.

## Model

| member | source | states |
|---|---|---|
| Fixtures.StringWithCharset | test/integration/sonobuoy_integration_test.go:23-29 | the result has exactly `length` characters; position i holds the charset character picked by the i-th draw, so every character is in the charset |
| Fixtures.RandomNamespace | test/integration/sonobuoy_integration_test.go:31-34 | the name is 17 characters long, starts with `integration-`, and its last five characters are the picked letters, each in `a`–`z` |
| Lines.Split | test/integration/sonobuoy_integration_test.go:73 | `strings.Split` on `"\n"`: the number of pieces is the newline count plus one, and no piece contains a newline |
| Lines.JoinSplit | test/integration/sonobuoy_integration_test.go:73 | joining the pieces of a split with `"\n"` gives back the captured output |
| Lines.SplitAround | test/integration/sonobuoy_integration_test.go:73 | the pieces of `a + "\n" + b` are the pieces of `a` followed by the pieces of `b` |
| Lines.SplitSingle | test/integration/sonobuoy_integration_test.go:73 | text without a newline splits into exactly itself |
| Lines.SplitJoin | test/integration/sonobuoy_integration_test.go:73 | splitting undoes joining when no piece holds a newline |
| Lines.TrailingNewline | test/integration/sonobuoy_integration_test.go:73 | a trailing newline adds one empty final piece |
| Verification.ExpectedOutput | test/integration/sonobuoy_integration_test.go:66-71 | four lines: the version behind `Sonobuoy Version: `, the two fixed Kubernetes-version lines, and the SHA behind `GitSHA: `; version and SHA can be read back |
| Verification.CompareLines | test/integration/sonobuoy_integration_test.go:74-80 | the loop over the actual lines records exactly the reports of the specification `Mismatches`, in order, without stopping at the first one |
| Verification.MismatchesUpToSpec | test/integration/sonobuoy_integration_test.go:74-80 | after n lines, every report is a real difference below n with both lines attached, indices strictly increase, and every difference below n is reported |
| Verification.MismatchesExactly | test/integration/sonobuoy_integration_test.go:74-80 | index i is reported if and only if `i < |expected|`, `i < |lines|` and the lines differ; one report per index, in increasing order |
| Verification.NoMismatchesIff | test/integration/sonobuoy_integration_test.go:74-80 | nothing is reported if and only if every compared line equals its expected line |
| Verification.ExtraLinesIgnored | test/integration/sonobuoy_integration_test.go:75 | actual lines at indices at or beyond the expected length never change the reports |
| Verification.MissingLinesIgnored | test/integration/sonobuoy_integration_test.go:74-75 | expected lines beyond the actual output are never compared |
| Verification.VersionTest | test/integration/sonobuoy_integration_test.go:55-80 | a run error ends the test with the captured stderr and no comparison; otherwise the test passes if and only if every compared line of the split output matches |
| Verification.RenderedOutputPasses | test/integration/sonobuoy_integration_test.go:66-80 | output that is exactly the expected lines joined by newlines passes, also when followed by a newline and any further text |
| Verification.TruncatedOutputPasses | test/integration/sonobuoy_integration_test.go:74-79 | output holding only the first expected line passes, because the three missing lines are never compared |
| Verification.TrailingEmptyLineCompared | test/integration/sonobuoy_integration_test.go:73-79 | a newline straight after the first line yields an empty second line, which is compared and reported |
| Verification.MatchingScenario | test/integration/sonobuoy_integration_test.go:66-80 | version `v0.15.0` and SHA `abc123`, printed as four lines with a final newline, give zero mismatches |
| Verification.VersionMismatchScenario | test/integration/sonobuoy_integration_test.go:66-80 | printing `v0.14.0` where `v0.15.0` is expected gives exactly one mismatch, at index 0, with both lines |
| Resolver.CandidatePath | test/integration/sonobuoy_integration_test.go:37-40 | the candidate is the override when it is non-empty, otherwise `../../sonobuoy` |
| Resolver.FindSonobuoyCLI | test/integration/sonobuoy_integration_test.go:36-46 | an error exactly when stat reports not-exist for the candidate; otherwise the candidate itself, which is non-empty, whatever else stat reported |
| Suite.Effective | test/integration/sonobuoy_integration_test.go:112-114 | the effective value is the flag's value when the flag is given, otherwise the environment default; a flag given as the empty string wins over a non-empty environment value |
| Suite.VersionInvocation | test/integration/sonobuoy_integration_test.go:51 | the invocation runs the given binary with exactly the arguments `version2`, `--kubeconfig` and the `KUBECONFIG` value |
| Suite.Bootstrap | test/integration/sonobuoy_integration_test.go:104-127 | resolution failure aborts first, even with metadata missing; then an empty effective SHA; then an empty effective version; otherwise the test runs against the resolved binary with the effective values, where a given flag wins over the environment |
| Suite.ExitCode | test/integration/sonobuoy_integration_test.go:107-126 | the exit status is 0 or 1, and 0 exactly when the test ran and passed |
| Suite.HealthySuiteExitsZero | test/integration/sonobuoy_integration_test.go:104-127 | with the binary found, both metadata values present, and the binary printing the expected lines, the suite exits 0 |
| Suite.Harness.constructor | test/integration/sonobuoy_integration_test.go:19-21 | the three package globals start as empty strings |
| Suite.Harness.TestSonobuoyVersion | test/integration/sonobuoy_integration_test.go:48-81 | runs `version2 --kubeconfig <value>` on the stored binary and returns the verdict of `VersionTest` for the stored version and SHA |
| Suite.Harness.TestMain | test/integration/sonobuoy_integration_test.go:104-127 | returns the outcome `Bootstrap` specifies and its exit status; when the test ran, the globals hold the resolved path and the non-empty effective SHA and version |

## Left out

- Process execution (`exec.Command`, output buffering, the exit code read from `syscall.WaitStatus`) is an oracle from invocation to outcome. The exit code that is logged and the log text are not modelled.
- `os.Getenv` and `os.Stat` are inputs. The real filesystem is not modelled, nor can it change between resolution and use.
- The time-seeded `math/rand` source is replaced by the sequence of picks it returns. Uniformity and independence are not modelled.
- Fixtures.StringWithCharset: a negative length makes Go's `make([]byte, length)` panic (line 24); the length is a `nat`, so that panic is not modelled. An empty charset with a positive length makes Go's `Intn` panic (line 26); the picks requirement excludes that input, so that panic is not modelled either. Bytes are modelled as characters, which agree for the ASCII charset used.
- The mechanics of the `flag` package are not modelled: parse errors, exit status 2, and `-test.*` flags. Only the precedence of a given flag over the environment default is modelled.
- `m.Run()` is modelled as running the one active test, giving 0 when it passes and 1 otherwise. Test filtering, parallelism and other runner options are not modelled.
- The messages printed by `fmt.Printf`, `t.Errorf` and `t.Logf` are not modelled. Each mismatch is a record of its index, expected line and actual line, and each abort is a reason.
- The commented-out `TestSonobuoyRunQuick` (lines 83-102) is excluded. It is inactive code.
