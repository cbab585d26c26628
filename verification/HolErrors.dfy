/**
 * Errors of the HOL broker client (shared/hol_client.py) and the two readings
 * the rest of the system takes of their text.
 */
module HolErrors {
  import opened Text

  const TRANSIENT_MARKERS: seq<string> := [
    "timed out",
    "timeout",
    "failed to connect to hol registry",
    "connect error",
    "502 bad gateway",
    "503 service unavailable",
    "504 gateway timeout",
    "upstream hol registry error page",
    "registry broker request failed",
    "temporary"
  ]

  const HARD_FAILURE_PATTERNS: seq<string> := [
    "currently unreachable from the broker",
    "agent card or endpoint check failed",
    "endpoint check failed",
    "cannot be reached from the public broker",
    "configured with a localhost endpoint",
    "localhost endpoint"
  ]

  predicate IsTransient(text: string) {
    ContainsAny(Lower(text), TRANSIENT_MARKERS)
  }

  predicate IsHardAvailabilityFailure(text: string) {
    ContainsAny(Lower(Strip(text)), HARD_FAILURE_PATTERNS)
  }

  /** A raised HolClientError, or its configuration subclass. */
  datatype CallError = CallError(text: string, configuration: bool)

  predicate ShouldUseDirectFallback(e: CallError) {
    !e.configuration && IsTransient(e.text)
  }

  datatype Outcome<+T> = Answer(value: T) | Failure(error: CallError)

  /** Text added to a message, as the credit diagnostics are, never hides a marker. */
  lemma AddedTextKeepsTransient(text: string, added: string)
    requires IsTransient(text)
    ensures IsTransient(text + added)
  {
    var k :| 0 <= k < |TRANSIENT_MARKERS| && Contains(Lower(text), TRANSIENT_MARKERS[k]);
    var marker := TRANSIENT_MARKERS[k];
    var i :| 0 <= i <= |text| - |marker| && OccursAt(Lower(text), marker, i);
    assert Lower(text + added)[i..i + |marker|] == Lower(text)[i..i + |marker|];
    assert OccursAt(Lower(text + added), marker, i);
    assert Contains(Lower(text + added), marker);
  }
}
