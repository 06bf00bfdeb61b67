/** `findSonobuoyCLI`: choose the binary under test from an override, falling
    back to a conventional relative path, and fail only if that path does
    not exist. */
module Resolver {
  import opened Wrappers

  /** What `os.Stat` reports about a path: it exists, it does not exist
      (`os.IsNotExist` holds of the error), or some other error occurred
      (permission denied, for one). */
  datatype StatResult = Found | NotExist | StatFailed

  /** The error returned when the chosen path does not exist. */
  datatype ResolveError = NotFound(path: string)

  /** The path used when no override is given. */
  const FallbackPath: string := "../../sonobuoy"

  /** The path to examine: the override when it is non-empty, otherwise the
      fallback. An empty override is the same as none. */
  function CandidatePath(override: string): (p: string)
    ensures p != []
    ensures p == override || (override == [] && p == FallbackPath)
  {
    if override == [] then FallbackPath else override
  }

  /** Resolves the binary from the `SONOBUOY_CLI` value and the stat oracle.
      It fails exactly when the candidate does not exist; any other stat
      outcome, including an error other than not-exist, yields the
      candidate. */
  function FindSonobuoyCLI(override: string, stat: string -> StatResult): (r: Result<string, ResolveError>)
    ensures r.Err? <==> stat(CandidatePath(override)) == NotExist
    ensures r.Err? ==> r.error == NotFound(CandidatePath(override))
    ensures r.Ok? ==> r.value != [] && stat(r.value) != NotExist
    ensures r.Ok? && override != [] ==> r.value == override
    ensures r.Ok? && override == [] ==> r.value == FallbackPath
  {
    var path := CandidatePath(override);
    if stat(path) == NotExist then Err(NotFound(path)) else Ok(path)
  }
}
