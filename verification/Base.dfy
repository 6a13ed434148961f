/** Shared result types and the stable error classes of the bot. */
module Base {

  datatype Option<+T> = None | Some(value: T)

  datatype Result<+T, +E> = Ok(value: T) | Err(error: E)

  /** Instants, as an integer number of clock units. */
  type Time = int

  datatype ErrorClass =
    | Validation | NotFound | Conflict | Forbidden | ConsentRequired | QuotaExceeded
    | Unsupported | Duplicate | Auth | RateLimited | Timeout | ProviderError
    | ProviderAmbiguous | Transient | KillSwitch | Internal | Config | Dependency
    | Migration | Permission | CancelledClass | PreflightFailed | HealthFailed

  /** The classes for which a failed job gets another attempt. */
  predicate IsRetryable(errorClass: ErrorClass) {
    errorClass in {Transient, Timeout, RateLimited, Dependency, ProviderError}
  }

  function Min(a: int, b: int): int { if a <= b then a else b }

  function Max(a: int, b: int): int { if a >= b then a else b }

  // ----- text -----

  predicate IsSpace(c: char) { c == ' ' || c == '\t' || c == '\n' || c == '\r' }

  function TrimStart(s: string): (r: string)
    ensures |r| <= |s|
    ensures s != "" && !IsSpace(s[0]) ==> r == s
  {
    if s != "" && IsSpace(s[0]) then TrimStart(s[1..]) else s
  }

  function TrimEnd(s: string): (r: string)
    ensures |r| <= |s|
    ensures s != "" && !IsSpace(s[|s| - 1]) ==> r == s
  {
    if s != "" && IsSpace(s[|s| - 1]) then TrimEnd(s[..|s| - 1]) else s
  }

  function Trim(s: string): (r: string)
    ensures |r| <= |s|
    ensures s != "" && !IsSpace(s[0]) && !IsSpace(s[|s| - 1]) ==> r == s
  {
    TrimEnd(TrimStart(s))
  }

  /** Where a run has got to. */
  function End<S>(states: seq<S>): S
    requires states != []
  {
    states[|states| - 1]
  }
}
