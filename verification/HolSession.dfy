/**
 * Opening a chat session with bounded retries (shared/hol_client.py,
 * create_session). Delays are `real`: rounding is not modelled.
 */
module HolSession {
  import opened Options

  /** The outcome of one POST; a connect timeout is a Timeout, not a ConnectError. */
  datatype Post =
    | Accepted(sessionId: Option<string>)
    | Timeout
    | ConnectError
    | BadStatus(status: int)
    | OtherHttpError

  datatype Result =
    | Session(id: string)
    | ClientError(cause: Post)
    | ConfigurationError
    | UnexpectedPayload
    | NoResponse

  const MAX_DELAY := 15.0

  function Pow2(n: nat): (r: nat)
    ensures r >= 1
  {
    if n == 0 then 1 else 2 * Pow2(n - 1)
  }

  /** `_retry_backoff_delay_seconds(attempt)` for attempts counted from one. */
  function Delay(base: real, attempt: nat): (d: real)
    ensures 0.0 <= d <= MAX_DELAY
    ensures d == 0.0 <==> base <= 0.0
  {
    if base <= 0.0 then 0.0
    else
      var raw := base * Pow2(if attempt >= 1 then attempt - 1 else 0) as real;
      assert raw > 0.0;
      if raw <= MAX_DELAY then raw else MAX_DELAY
  }

  /** Timeouts and transient upstream statuses are worth another attempt. */
  predicate Retryable(p: Post) {
    p.Timeout? || (p.BadStatus? && p.status in {502, 503, 504})
  }

  /** A timeout, or one of three upstream statuses. */
  predicate WorthRetrying(p: Post) {
    p == Timeout || p == BadStatus(502) || p == BadStatus(503) || p == BadStatus(504)
  }

  /** The error branches that end the loop. */
  function Final(p: Post): Result {
    match p
    case Accepted(id) => if Truthy(id) then Session(id.value) else UnexpectedPayload
    case ConnectError => ConfigurationError
    case _ => ClientError(p)
  }

  /** The sleeps before attempts 2 .. n; a zero delay does not sleep. */
  function Sleeps(base: real, n: nat): seq<real> {
    if n <= 1 || base <= 0.0 then [] else Sleeps(base, n - 1) + [Delay(base, n - 1)]
  }

  function Total(s: seq<real>): real {
    if s == [] then 0.0 else Total(s[..|s| - 1]) + s[|s| - 1]
  }

  /** The number of the last attempt, when attempt `i` is about to be made. */
  function LastAttempt(retries: nat, posts: nat -> Post, i: nat): (n: nat)
    requires i <= retries + 1
    ensures i <= n <= retries + 1
    decreases retries + 1 - i
  {
    if i == retries + 1 || !Retryable(posts(i)) then i else LastAttempt(retries, posts, i + 1)
  }

  /**
   * Posts until one outcome is not worth retrying or the attempts run out.
   * `posts(i)` is what attempt `i` would meet. The result is decided by the
   * last attempt alone and every attempt before it was retryable.
   */
  method CreateSession(retries: nat, base: real, posts: nat -> Post)
    returns (r: Result, made: nat, slept: seq<real>)
    ensures 1 <= made <= retries + 1
    ensures forall i | 1 <= i < made :: Retryable(posts(i))
    ensures made <= retries ==> !Retryable(posts(made))
    ensures made == LastAttempt(retries, posts, 1)
    ensures r == Final(posts(made)) && r != NoResponse
    ensures forall i | 1 <= i < made :: WorthRetrying(posts(i))
    ensures made <= retries ==> !WorthRetrying(posts(made))
    ensures match posts(made)
      case Accepted(Some(id)) => r == if id != "" then Session(id) else UnexpectedPayload
      case Accepted(None) => r == UnexpectedPayload
      case ConnectError => r == ConfigurationError
      case other => r == ClientError(other)
    ensures slept == Sleeps(base, made)
  {
    var attempts := retries + 1;
    var response: Option<Post> := None;
    slept := [];
    made := 0;
    var attempt := 1;
    while attempt <= attempts
      invariant 1 <= attempt <= attempts + 1
      invariant made == attempt - 1
      invariant forall i | 1 <= i < attempt :: Retryable(posts(i))
      invariant made > 0 ==> attempt <= attempts
      invariant attempt <= attempts ==> LastAttempt(retries, posts, attempt) == LastAttempt(retries, posts, 1)
      invariant slept == Sleeps(base, attempt)
    {
      var post := posts(attempt);
      made := attempt;
      match post {
        case Accepted(_) =>
          response := Some(post);
          break;
        case Timeout =>
          if attempt < attempts {
            var delay := Delay(base, attempt);
            if delay > 0.0 {
              slept := slept + [delay];
            }
          } else {
            return ClientError(post), made, slept;
          }
        case ConnectError =>
          return ConfigurationError, made, slept;
        case BadStatus(status) =>
          response := Some(post);
          if status in {502, 503, 504} && attempt < attempts {
            var delay := Delay(base, attempt);
            if delay > 0.0 {
              slept := slept + [delay];
            }
          } else {
            return ClientError(post), made, slept;
          }
        case OtherHttpError =>
          return ClientError(post), made, slept;
      }
      attempt := attempt + 1;
    }
    if response.None? {
      return NoResponse, made, slept;
    }
    r := if Truthy(response.value.sessionId) then Session(response.value.sessionId.value) else UnexpectedPayload;
  }

  /** Delays never shrink from one attempt to the next. */
  lemma DelaysNeverShrink(base: real, attempt: nat)
    ensures Delay(base, attempt) <= Delay(base, attempt + 1)
  {
    if base > 0.0 && attempt >= 1 {
      var p := Pow2(attempt - 1) as real;
      assert Pow2(attempt) as real == 2.0 * p;
      assert base * (2.0 * p) == 2.0 * (base * p);
      assert base * p > 0.0;
    }
  }

  /** However the broker behaves, the retries sleep at most 15 seconds each. */
  lemma {:induction false} TotalSleepBounded(base: real, made: nat, retries: nat)
    requires made <= retries + 1
    ensures |Sleeps(base, made)| <= retries
    ensures 0.0 <= Total(Sleeps(base, made)) <= 15.0 * retries as real
  {
    if made <= 1 || base <= 0.0 {
      assert Sleeps(base, made) == [];
    } else {
      TotalSleepBounded(base, made - 1, retries - 1);
      var init := Sleeps(base, made - 1);
      assert (init + [Delay(base, made - 1)])[..|init|] == init;
    }
  }

  lemma DoublingStaysUnder(base: real, n: nat)
    requires base > 0.0
    ensures base * Pow2(n) as real <= base * Pow2(n + 1) as real
    ensures base * (Pow2(n) - 1) as real + base * Pow2(n) as real == base * (Pow2(n + 1) - 1) as real
  {
    var p := Pow2(n) as real;
    assert Pow2(n + 1) as real == 2.0 * p;
    assert base * p > 0.0;
    assert base * (2.0 * p) == 2.0 * (base * p);
    assert base * (p - 1.0) == base * p - base;
    assert base * (2.0 * p - 1.0) == 2.0 * (base * p) - base;
  }

  lemma SleepStep(base: real, n: nat)
    requires base > 0.0 && n >= 1
    ensures Total(Sleeps(base, n + 1)) == Total(Sleeps(base, n)) + Delay(base, n)
  {
    var init := Sleeps(base, n);
    assert (init + [Delay(base, n)])[..|init|] == init;
  }

  /** base * 2^n and base * (2^n - 1), named to keep products out of the induction. */
  function Doubled(base: real, n: nat): real {
    base * Pow2(n) as real
  }

  function SleptInAll(base: real, n: nat): real {
    base * (Pow2(n) - 1) as real
  }

  lemma DoublingStep(base: real, n: nat)
    requires base > 0.0
    ensures Doubled(base, n) <= Doubled(base, n + 1)
    ensures SleptInAll(base, n) + Doubled(base, n) == SleptInAll(base, n + 1)
    ensures SleptInAll(base, 0) == 0.0
  {
    DoublingStaysUnder(base, n);
  }

  lemma {:induction false} UncappedTotal(base: real, n: nat)
    requires base > 0.0 && n >= 1 && Doubled(base, n - 1) <= MAX_DELAY
    ensures Total(Sleeps(base, n + 1)) == SleptInAll(base, n)
  {
    assert Total(Sleeps(base, 1)) == 0.0;
    assert Doubled(base, n - 1) == base * Pow2(n - 1) as real;
    UncappedDelay(base, n);
    hide Delay, Sleeps, Total, Pow2, Doubled, SleptInAll;
    SleepStep(base, n);
    DoublingStep(base, n - 1);
    if n > 1 {
      DoublingStep(base, n - 2);
      UncappedTotal(base, n - 1);
    }
  }

  /** Until the cap is met the total sleep is the closed form base * (2^n - 1) after n retries. */
  lemma UncappedSleep(base: real, n: nat)
    requires base > 0.0 && n >= 1 && base * Pow2(n - 1) as real <= MAX_DELAY
    ensures Total(Sleeps(base, n + 1)) == base * (Pow2(n) - 1) as real
  {
    UncappedTotal(base, n);
  }

  lemma UncappedDelay(base: real, n: nat)
    requires base > 0.0 && n >= 1 && base * Pow2(n - 1) as real <= MAX_DELAY
    ensures Delay(base, n) == base * Pow2(n - 1) as real
  {
  }

  /**
   * A connection error that is met ends the attempts with the configuration
   * error; it is met exactly when every attempt before it was retryable, and
   * the configuration error has no other cause.
   */
  lemma {:induction false} ConnectErrorsAreFinal(retries: nat, posts: nat -> Post, i: nat, k: nat)
    requires i <= k <= retries + 1 && posts(k).ConnectError?
    ensures var last := LastAttempt(retries, posts, i);
      && last <= k
      && (last == k <==> forall j | i <= j < k :: Retryable(posts(j)))
      && (Final(posts(last)) == ConfigurationError <==> posts(last).ConnectError?)
    decreases k - i
  {
    if i < k && Retryable(posts(i)) {
      ConnectErrorsAreFinal(retries, posts, i + 1, k);
    }
  }

  /** The sleep after attempt `k` is the base doubled k - 1 times, or 15 seconds if that is less. */
  lemma SleepIs(base: real, k: nat)
    requires k >= 1 && base > 0.0
    ensures Delay(base, k) == if base * Pow2(k - 1) as real <= 15.0 then base * Pow2(k - 1) as real else 15.0
    ensures Pow2(0) == 1 && Pow2(k) == 2 * Pow2(k - 1)
  {
  }
}
