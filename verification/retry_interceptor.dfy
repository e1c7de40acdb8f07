/** The crew service's `RetryClientHttpRequestInterceptor`: it re-executes an outgoing request
    after connection failures, waiting an exponentially growing, capped delay between
    attempts. */
module RetryInterceptor {
  import opened Wrappers
  import opened JavaText

  /** An exception thrown by `execution.execute(request, body)`. */
  datatype Failure =
    /** Spring's `ResourceAccessException`, an unchecked exception. */
    | ResourceAccess(message: Option<string>)
    /** `java.net.ConnectException`, an `IOException`. */
    | Connect(message: Option<string>)
    /** Any other `IOException`; `causeIsConnect` says whether `getCause()` is a `ConnectException`. */
    | Io(message: Option<string>, causeIsConnect: bool)
    /** Any other unchecked exception; the interceptor does not catch it. */
    | Unchecked(message: Option<string>)

  /** What one call of `execution.execute` does. */
  datatype Attempt<+R> = Response(response: R) | Threw(failure: Failure)

  /** How `intercept` ends. */
  datatype Outcome<+R> =
    /** It returns this response. */
    | Returned(response: R)
    /** It lets this exception of `execute` escape. */
    | Propagated(failure: Failure)
    /** It throws a new `IOException` with this message and cause. */
    | NewIOException(message: string, cause: Option<Failure>)

  predicate IsIOException(f: Failure) {
    f.Connect? || f.Io?
  }

  const ConnectionRefused: string := "Connection refused"
  const ConnectionReset: string := "Connection reset"
  const ConnectionTimedOut: string := "Connection timed out"

  /** `isRetryableException`: an `IOException` caused by a `ConnectException`, or whose
      message mentions a refused, reset or timed-out connection. */
  function IsRetryableException(message: Option<string>, causeIsConnect: bool): (r: bool)
    ensures r <==>
      (causeIsConnect ||
       (message.Some? &&
        ((exists i :: OccursAt(message.value, ConnectionRefused, i)) ||
         (exists i :: OccursAt(message.value, ConnectionReset, i)) ||
         (exists i :: OccursAt(message.value, ConnectionTimedOut, i)))))
  {
    assert message.Some? ==>
      (Contains(message.value, ConnectionRefused) <==> exists i :: OccursAt(message.value, ConnectionRefused, i)) &&
      (Contains(message.value, ConnectionReset) <==> exists i :: OccursAt(message.value, ConnectionReset, i)) &&
      (Contains(message.value, ConnectionTimedOut) <==> exists i :: OccursAt(message.value, ConnectionTimedOut, i))
    by {
      if message.Some? {
        ContainsIsOccurrence(message.value, ConnectionRefused);
        ContainsIsOccurrence(message.value, ConnectionReset);
        ContainsIsOccurrence(message.value, ConnectionTimedOut);
      }
    }
    causeIsConnect ||
    (message.Some? &&
     (Contains(message.value, ConnectionRefused) ||
      Contains(message.value, ConnectionReset) ||
      Contains(message.value, ConnectionTimedOut)))
  }

  /** Whether the loop counts this failure and tries again: the first catch clause takes every
      `ResourceAccessException` and `ConnectException`, the second the retryable `IOException`s. */
  predicate IsRetried(f: Failure) {
    match f
    case ResourceAccess(_) => true
    case Connect(_) => true
    case Io(message, causeIsConnect) => IsRetryableException(message, causeIsConnect)
    case Unchecked(_) => false
  }

  predicate IsRetriedFailure<R>(a: Attempt<R>) {
    a.Threw? && IsRetried(a.failure)
  }

  function Min(a: nat, b: nat): nat {
    if a <= b then a else b
  }

  /** `"Request failed after " + attempts + " attempts"`. */
  function FailedAfter(attempts: nat): string {
    "Request failed after " + NatToString(attempts) + " attempts"
  }

  /** The interceptor's settings, fixed at construction. Delays are whole milliseconds and the
      multiplier a whole number. */
  datatype RetryClientHttpRequestInterceptor = RetryClientHttpRequestInterceptor(
    maxRetries: int, initialDelayMs: nat, multiplier: nat, maxDelayMs: nat)
  {
    /** How many times `execute` can run: `attempts` goes from 0 while `attempts <= maxRetries`. */
    function MaxAttempts(): (n: nat)
      ensures maxRetries < 0 ==> n == 0
      ensures maxRetries >= 0 ==> n == maxRetries + 1
    {
      if maxRetries < 0 then 0 else maxRetries + 1
    }

    /** The value of `delay` after `k` retried failures. */
    function DelayAt(k: nat): (d: nat)
      ensures k > 0 ==> d <= maxDelayMs
    {
      if k == 0 then initialDelayMs else Min(DelayAt(k - 1) * multiplier, maxDelayMs)
    }

    /** The first `n` waits: the delays in force after each of the first `n` retried failures. */
    function Backoff(n: nat): (waits: seq<nat>)
      ensures |waits| == n
      ensures forall k :: 0 <= k < n ==> waits[k] == DelayAt(k)
    {
      if n == 0 then [] else Backoff(n - 1) + [DelayAt(n - 1)]
    }

    /** `intercept`. `execute(k)` is what the `k`-th call of `execution.execute` (from 0) does;
        `calls` is how many calls were made and `waits` the planned `Thread.sleep` durations,
        in order. */
    method Intercept<R>(execute: nat -> Attempt<R>) returns (outcome: Outcome<R>, calls: nat, waits: seq<nat>)
      ensures calls <= MaxAttempts()
      // every call but the last ended in a retried failure, so a response is returned the
      // first time one arrives
      ensures forall k :: 0 <= k < calls - 1 ==> IsRetriedFailure(execute(k))
      // one wait after every retried failure except a final one
      ensures waits == Backoff(if calls == 0 then 0 else calls - 1)
      ensures calls > 0 && execute(calls - 1).Response? ==> outcome == Returned(execute(calls - 1).response)
      ensures calls > 0 && execute(calls - 1).Threw? && !IsRetried(execute(calls - 1).failure) ==>
        outcome == Propagated(execute(calls - 1).failure)
      // otherwise the retries ran out
      ensures calls == 0 || IsRetriedFailure(execute(calls - 1)) ==> calls == MaxAttempts()
      ensures calls == 0 ==> outcome == NewIOException(FailedAfter(0), None)
      ensures calls > 0 && IsRetriedFailure(execute(calls - 1)) && IsIOException(execute(calls - 1).failure) ==>
        outcome == Propagated(execute(calls - 1).failure)
      ensures calls > 0 && IsRetriedFailure(execute(calls - 1)) && !IsIOException(execute(calls - 1).failure) ==>
        outcome == NewIOException(FailedAfter(calls), Some(execute(calls - 1).failure))
    {
      var attempts: nat := 0;
      var delay: nat := initialDelayMs;
      var lastException: Option<Failure> := None;
      waits := [];
      while attempts <= maxRetries
        invariant maxRetries >= 0 ==> attempts <= maxRetries
        invariant maxRetries < 0 ==> attempts == 0
        invariant forall k :: 0 <= k < attempts ==> IsRetriedFailure(execute(k))
        invariant delay == DelayAt(attempts)
        invariant waits == Backoff(attempts)
        invariant lastException == if attempts == 0 then None else Some(execute(attempts - 1).failure)
        decreases maxRetries - attempts
      {
        match execute(attempts)
        case Response(response) =>
          outcome, calls := Returned(response), attempts + 1;
          return;
        case Threw(e) =>
          if IsRetried(e) {
            lastException := Some(e);
            attempts := attempts + 1;
            if attempts > maxRetries {
              break;
            }
            waits := waits + [delay];
            delay := Min(delay * multiplier, maxDelayMs);
          } else {
            outcome, calls := Propagated(e), attempts + 1;
            return;
          }
      }
      calls := attempts;
      match lastException
      case Some(e) =>
        if IsIOException(e) {
          outcome := Propagated(e);
        } else {
          outcome := NewIOException(FailedAfter(attempts), Some(e));
        }
      case None =>
        outcome := NewIOException(FailedAfter(attempts), None);
    }
  }

  /** `new RetryClientHttpRequestInterceptor()`. */
  const Default: RetryClientHttpRequestInterceptor := RetryClientHttpRequestInterceptor(5, 1000, 2, 16000)

  /** The default interceptor makes up to six calls and waits 1, 2, 4, 8 and 16 seconds between
      them. */
  lemma DefaultBackoff()
    ensures Default.MaxAttempts() == 6
    ensures Default.Backoff(Default.MaxAttempts() - 1) == [1000, 2000, 4000, 8000, 16000]
  {
    assert Default.DelayAt(4) == 16000 by {
      assert Default.DelayAt(1) == 2000;
      assert Default.DelayAt(2) == 4000;
      assert Default.DelayAt(3) == 8000;
    }
  }

  function Pow(b: nat, k: nat): nat {
    if k == 0 then 1 else b * Pow(b, k - 1)
  }

  /** Closed form of the delay: the initial delay, then the initial delay times
      multiplier^k capped at the maximum. The first wait is never capped. */
  lemma {:induction false} DelayClosedForm(r: RetryClientHttpRequestInterceptor, k: nat)
    ensures r.DelayAt(k) == if k == 0 then r.initialDelayMs else Min(r.initialDelayMs * Pow(r.multiplier, k), r.maxDelayMs)
  {
    if k > 1 {
      DelayClosedForm(r, k - 1);
      var x, m, cap := r.initialDelayMs * Pow(r.multiplier, k - 1), r.multiplier, r.maxDelayMs;
      assert r.initialDelayMs * Pow(r.multiplier, k) == x * m by {
        MulAssoc(r.initialDelayMs, Pow(r.multiplier, k - 1), m);
      }
      MinTimes(x, cap, m);
    }
  }

  lemma MulAssoc(a: nat, b: nat, c: nat)
    ensures a * (c * b) == (a * b) * c
  {
  }

  /** Capping before or after multiplying agrees once the result is capped again. */
  lemma MinTimes(x: nat, cap: nat, m: nat)
    ensures Min(Min(x, cap) * m, cap) == Min(x * m, cap)
  {
    if x > cap && m >= 1 {
      MulMonotone(cap, x, m);
      MulMonotone(1, m, cap);
    }
  }

  lemma {:induction false} MulMonotone(a: nat, b: nat, m: nat)
    requires a <= b
    ensures a * m <= b * m
  {
    if m > 0 {
      MulMonotone(a, b, m - 1);
      assert a * m == a * (m - 1) + a;
      assert b * m == b * (m - 1) + b;
    }
  }

  /** With a multiplier of at least 1 and an initial delay within the cap, the waits never
      shrink. */
  lemma {:induction false} WaitsNondecreasing(r: RetryClientHttpRequestInterceptor, n: nat)
    requires r.multiplier >= 1 && r.initialDelayMs <= r.maxDelayMs
    ensures forall i, j :: 0 <= i <= j < n ==> r.Backoff(n)[i] <= r.Backoff(n)[j]
  {
    forall i, j | 0 <= i <= j < n ensures r.DelayAt(i) <= r.DelayAt(j) {
      DelayMonotone(r, i, j);
    }
  }

  lemma {:induction false} DelayMonotone(r: RetryClientHttpRequestInterceptor, i: nat, j: nat)
    requires r.multiplier >= 1 && r.initialDelayMs <= r.maxDelayMs
    requires i <= j
    ensures r.DelayAt(i) <= r.DelayAt(j) <= r.maxDelayMs
  {
    if j > 0 {
      DelayMonotone(r, if i == j then j - 1 else i, j - 1);
      MulMonotone(1, r.multiplier, r.DelayAt(j - 1));
    }
  }
}
