/**
 * Retry and fallback handling around upstream calls: which errors are retried, the
 * capped exponential delay between attempts, the bounded retry loop with its
 * per-operation failure counters, the mapping of errors to user-facing kinds, and
 * the fallback response returned once retries are exhausted.
 *
 * An upstream call is a script of per-attempt outcomes; the random jitter draw and
 * the clock reading of each attempt are part of that script.
 */
module ErrorHandling {
  import opened Common
  import opened Tally

  /**
   * The exception classes the handler distinguishes: the httpx timeout and network
   * families, httpx's status error, the builtin ConnectionError family, and any other class.
   */
  datatype ErrorType =
    | TimeoutException | ConnectTimeout | ReadTimeout | WriteTimeout | PoolTimeout
    | NetworkError | ConnectError | ReadError | WriteError | CloseError
    | HTTPStatusError
    | ConnectionError | ConnectionRefusedError | ConnectionResetError | ConnectionAbortedError | BrokenPipeError
    | OtherError(name: string)

  /** The direct base class of a class, among the classes modelled. */
  function Base(t: ErrorType): Option<ErrorType> {
    match t
    case ConnectTimeout | ReadTimeout | WriteTimeout | PoolTimeout => Some(TimeoutException)
    case ConnectError | ReadError | WriteError | CloseError => Some(NetworkError)
    case ConnectionRefusedError | ConnectionResetError | ConnectionAbortedError | BrokenPipeError => Some(ConnectionError)
    case _ => None
  }

  /** `issubclass(t, u)`: the modelled hierarchy is one level deep. */
  predicate IsSubclass(t: ErrorType, u: ErrorType) {
    t == u || Base(t) == Some(u)
  }

  /**
   * A raised error: its class, `str(error)`, and the response status code, which is
   * read only for an `HTTPStatusError`.
   */
  datatype Error = Error(kind: ErrorType, message: string, statusCode: int)

  /** `isinstance(error, t)` */
  predicate IsInstance(e: Error, t: ErrorType) {
    IsSubclass(e.kind, t)
  }

  /** The TypeError that `raise None` produces. */
  const RaiseNoneError: Error := Error(OtherError("TypeError"), "exceptions must derive from BaseException", 0)

  datatype RetryConfig = RetryConfig(
    maxAttempts: int,
    baseDelay: real,
    maxDelay: real,
    exponentialBase: real,
    jitter: bool,
    retryableStatusCodes: seq<int>,
    retryableExceptions: seq<ErrorType>)

  const DefaultStatusCodes: seq<int> := [500, 502, 503, 504, 429]
  const DefaultExceptions: seq<ErrorType> := [TimeoutException, ConnectTimeout, ReadTimeout, NetworkError, ConnectionError]

  /** `RetryConfig(...)`: an empty (or omitted) list of codes or exceptions means the default list. */
  function NewRetryConfig(maxAttempts: int, baseDelay: real, maxDelay: real, exponentialBase: real, jitter: bool,
                          statusCodes: seq<int>, exceptions: seq<ErrorType>): (c: RetryConfig)
    ensures c.retryableStatusCodes != [] && c.retryableExceptions != []
    ensures statusCodes != [] ==> c.retryableStatusCodes == statusCodes
    ensures exceptions != [] ==> c.retryableExceptions == exceptions
    ensures c.maxAttempts == maxAttempts && c.baseDelay == baseDelay && c.maxDelay == maxDelay
    ensures c.exponentialBase == exponentialBase && c.jitter == jitter
  {
    RetryConfig(maxAttempts, baseDelay, maxDelay, exponentialBase, jitter,
                if statusCodes == [] then DefaultStatusCodes else statusCodes,
                if exceptions == [] then DefaultExceptions else exceptions)
  }

  /** `RetryConfig()` */
  function DefaultRetryConfig(): RetryConfig {
    NewRetryConfig(3, 1.0, 60.0, 2.0, true, [], [])
  }

  /** `any(isinstance(error, t) for t in types)` */
  function AnyInstance(e: Error, types: seq<ErrorType>): (b: bool)
    ensures b <==> exists i :: 0 <= i < |types| && IsInstance(e, types[i])
  {
    if types == [] then false else IsInstance(e, types[0]) || AnyInstance(e, types[1..])
  }

  /** `should_retry`: the status code is consulted only for an error whose class is exactly `HTTPStatusError`. */
  function ShouldRetry(e: Error, config: RetryConfig): (b: bool)
    ensures b <==> AnyInstance(e, config.retryableExceptions)
                   || (e.kind == HTTPStatusError && e.statusCode in config.retryableStatusCodes)
  {
    if AnyInstance(e, config.retryableExceptions) then true
    else if IsInstance(e, HTTPStatusError) then e.statusCode in config.retryableStatusCodes
    else false
  }

  /** An error is retried when it is an instance of a retryable type, or a status error with a retryable code. */
  lemma ShouldRetryIff(e: Error, config: RetryConfig)
    ensures ShouldRetry(e, config) <==>
      (exists i :: 0 <= i < |config.retryableExceptions| && IsInstance(e, config.retryableExceptions[i]))
      || (e.kind == HTTPStatusError && e.statusCode in config.retryableStatusCodes)
  {
  }

  /**
   * Under the default configuration the timeout, network and connection families are
   * retried, a status error is retried exactly for 500, 502, 503, 504 and 429, and
   * nothing else is.
   */
  lemma DefaultRetryClassification(e: Error)
    ensures ShouldRetry(e, DefaultRetryConfig()) <==>
      || IsInstance(e, TimeoutException) || IsInstance(e, NetworkError) || IsInstance(e, ConnectionError)
      || (e.kind == HTTPStatusError && e.statusCode in {500, 502, 503, 504, 429})
  {
    var c := DefaultRetryConfig();
    if IsInstance(e, TimeoutException) {
      assert IsInstance(e, c.retryableExceptions[0]);
    } else if IsInstance(e, NetworkError) {
      assert IsInstance(e, c.retryableExceptions[3]);
    } else if IsInstance(e, ConnectionError) {
      assert IsInstance(e, c.retryableExceptions[4]);
    }
  }

  /** The delay before attempt `attempt + 1` without jitter: capped, and non-negative for a non-negative configuration. */
  function PlainDelay(attempt: nat, config: RetryConfig): (d: real)
    requires attempt >= 1
    ensures d <= config.maxDelay
    ensures d == config.maxDelay || d == config.baseDelay * Pow(config.exponentialBase, attempt - 1)
    ensures config.baseDelay >= 0.0 && config.exponentialBase >= 0.0 && config.maxDelay >= 0.0 ==> d >= 0.0
  {
    PowNonNegative(config.baseDelay, config.exponentialBase, attempt - 1);
    MinReal(config.baseDelay * Pow(config.exponentialBase, attempt - 1), config.maxDelay)
  }

  /**
   * `calculate_delay`, with `draw` standing for `random.random()`: the plain delay without
   * jitter; with jitter, between half of it and all of it when it is non-negative.
   */
  function CalculateDelay(attempt: nat, config: RetryConfig, draw: real): (d: real)
    requires attempt >= 1
    requires 0.0 <= draw < 1.0
    ensures !config.jitter ==> d == PlainDelay(attempt, config)
    ensures PlainDelay(attempt, config) >= 0.0 ==> 0.0 <= d <= PlainDelay(attempt, config) <= config.maxDelay
    ensures config.jitter && PlainDelay(attempt, config) >= 0.0 ==> 0.5 * PlainDelay(attempt, config) <= d
  {
    var delay := PlainDelay(attempt, config);
    if config.jitter then ScaleBetween(delay, 0.5 + draw * 0.5); delay * (0.5 + draw * 0.5) else delay
  }

  /** Scaling a non-negative delay by a factor in `[0.5, 1)` keeps it between half of it and all of it. */
  lemma ScaleBetween(p: real, f: real)
    requires 0.5 <= f < 1.0
    ensures p >= 0.0 ==> 0.5 * p <= p * f <= p
  {
    if p >= 0.0 {
      assert p * f - 0.5 * p == p * (f - 0.5);
      assert p * (f - 0.5) >= 0.0;
      assert p - p * f == p * (1.0 - f);
      assert p * (1.0 - f) >= 0.0;
    }
  }

  /** The plain delay is the exponential one until it reaches the cap, and never decreases. */
  lemma PlainDelayMonotone(config: RetryConfig, m: nat, n: nat)
    requires config.baseDelay >= 0.0 && config.exponentialBase >= 1.0
    requires 1 <= m <= n
    ensures PlainDelay(m, config) <= PlainDelay(n, config)
  {
    PowMonotone(config.exponentialBase, m - 1, n - 1);
    assert config.baseDelay * Pow(config.exponentialBase, m - 1) <= config.baseDelay * Pow(config.exponentialBase, n - 1) by {
      assert config.baseDelay * (Pow(config.exponentialBase, n - 1) - Pow(config.exponentialBase, m - 1)) >= 0.0;
    }
  }

  /** With jitter the delay lies in `[d/2, d)` for the plain delay `d`, so it also never exceeds the cap. */
  lemma JitterRange(attempt: nat, config: RetryConfig, draw: real)
    requires attempt >= 1 && 0.0 <= draw < 1.0
    requires config.jitter
    requires PlainDelay(attempt, config) > 0.0
    ensures 0.5 * PlainDelay(attempt, config) <= CalculateDelay(attempt, config, draw) < PlainDelay(attempt, config)
    ensures CalculateDelay(attempt, config, draw) < config.maxDelay
  {
    var d := PlainDelay(attempt, config);
    var g := 1.0 - (0.5 + draw * 0.5);
    var c := CalculateDelay(attempt, config, draw);
    assert g > 0.0;
    assert c == d - d * g;
    assert d * g > 0.0;
  }

  /** What one call of the operation did. */
  datatype Outcome<T> = Success(value: T) | Failure(error: Error)

  /** One attempt of the script: its outcome, the clock when it ended and the jitter draw after it. */
  datatype Attempt<T> = Attempt(outcome: Outcome<T>, at: real, jitterDraw: real)

  /** How a run of `retry_with_backoff` went: calls made, what it returned or raised, the sleeps between calls. */
  datatype Run<T> = Run(calls: nat, outcome: Outcome<T>, delays: seq<real>)

  predicate DrawsInRange<T>(attempts: seq<Attempt<T>>) {
    forall i :: 0 <= i < |attempts| ==> 0.0 <= attempts[i].jitterDraw < 1.0
  }

  /** Whether the loop goes on after attempt `attempt` failed with `e`. */
  predicate Retries(e: Error, config: RetryConfig, attempt: int) {
    ShouldRetry(e, config) && attempt != config.maxAttempts
  }

  /**
   * The retry loop from attempt `attempt` on, with the sleeps `acc` already taken by the
   * earlier attempts.
   */
  function RunFrom<T>(config: RetryConfig, attempts: seq<Attempt<T>>, attempt: nat, acc: seq<real>): (r: Run<T>)
    requires 1 <= attempt <= config.maxAttempts <= |attempts|
    requires DrawsInRange(attempts)
    ensures attempt <= r.calls <= config.maxAttempts
    ensures |r.delays| == |acc| + r.calls - attempt
    ensures r.outcome == attempts[r.calls - 1].outcome
    decreases config.maxAttempts - attempt
  {
    var a := attempts[attempt - 1];
    if a.outcome.Success? || !Retries(a.outcome.error, config, attempt) then Run(attempt, a.outcome, acc)
    else RunFrom(config, attempts, attempt + 1, acc + [CalculateDelay(attempt, config, a.jitterDraw)])
  }

  /**
   * The calls of a run are failures that were retried, up to the last one, which either
   * succeeded or was not retried.
   */
  lemma {:induction false} RunFromShape<T>(config: RetryConfig, attempts: seq<Attempt<T>>, attempt: nat, acc: seq<real>)
    requires 1 <= attempt <= config.maxAttempts <= |attempts| && DrawsInRange(attempts)
    ensures var r := RunFrom(config, attempts, attempt, acc);
      && (forall i :: attempt - 1 <= i < r.calls - 1 ==>
            attempts[i].outcome.Failure? && Retries(attempts[i].outcome.error, config, i + 1))
      && (r.outcome.Success? || !Retries(r.outcome.error, config, r.calls))
    decreases config.maxAttempts - attempt
  {
    var a := attempts[attempt - 1];
    if !(a.outcome.Success? || !Retries(a.outcome.error, config, attempt)) {
      RunFromShape(config, attempts, attempt + 1, acc + [CalculateDelay(attempt, config, a.jitterDraw)]);
    }
  }

  /** A retried failure: the run goes on with the next attempt after the calculated sleep. */
  lemma RunFromRetry<T>(config: RetryConfig, attempts: seq<Attempt<T>>, attempt: nat, acc: seq<real>)
    requires 1 <= attempt <= config.maxAttempts <= |attempts| && DrawsInRange(attempts)
    requires attempts[attempt - 1].outcome.Failure? && Retries(attempts[attempt - 1].outcome.error, config, attempt)
    ensures attempt + 1 <= config.maxAttempts
    ensures RunFrom(config, attempts, attempt, acc) ==
      RunFrom(config, attempts, attempt + 1, acc + [CalculateDelay(attempt, config, attempts[attempt - 1].jitterDraw)])
  {
  }

  /** A success or a failure that is not retried ends the run at this attempt. */
  lemma RunFromStops<T>(config: RetryConfig, attempts: seq<Attempt<T>>, attempt: nat, acc: seq<real>)
    requires 1 <= attempt <= config.maxAttempts <= |attempts| && DrawsInRange(attempts)
    requires attempts[attempt - 1].outcome.Success? || !Retries(attempts[attempt - 1].outcome.error, config, attempt)
    ensures RunFrom(config, attempts, attempt, acc) == Run(attempt, attempts[attempt - 1].outcome, acc)
  {
  }

  /** `retry_with_backoff` on a script of attempts; with no attempt at all it raises `None`, a TypeError. */
  function RunRetries<T>(config: RetryConfig, attempts: seq<Attempt<T>>): (r: Run<T>)
    requires config.maxAttempts <= |attempts|
    requires DrawsInRange(attempts)
    ensures r.calls <= |attempts|
    ensures config.maxAttempts >= 1 ==> 1 <= r.calls <= config.maxAttempts
    ensures config.maxAttempts < 1 <==> r.calls == 0
    ensures r.calls == 0 ==> r.outcome == Failure(RaiseNoneError) && r.delays == []
  {
    if config.maxAttempts < 1 then Run(0, Failure(RaiseNoneError), []) else RunFrom(config, attempts, 1, [])
  }

  /** Attempt `calls` is the first success, after only retryable failures: exactly `calls` calls return its value. */
  lemma FirstSuccess<T>(config: RetryConfig, attempts: seq<Attempt<T>>, k: nat)
    requires config.maxAttempts <= |attempts| && DrawsInRange(attempts)
    requires 1 <= k <= config.maxAttempts
    requires attempts[k - 1].outcome.Success?
    requires forall i :: 0 <= i < k - 1 ==> attempts[i].outcome.Failure? && ShouldRetry(attempts[i].outcome.error, config)
    ensures RunRetries(config, attempts).calls == k
    ensures RunRetries(config, attempts).outcome == attempts[k - 1].outcome
  {
    RunFromShape(config, attempts, 1, []);
    var r := RunRetries(config, attempts);
    if r.calls != k {
      assert false;
    }
  }

  /** An operation that always fails with retryable errors is called exactly `max_attempts` times and its last error raised. */
  lemma Exhaustion<T>(config: RetryConfig, attempts: seq<Attempt<T>>)
    requires 1 <= config.maxAttempts <= |attempts| && DrawsInRange(attempts)
    requires forall i :: 0 <= i < config.maxAttempts ==>
               attempts[i].outcome.Failure? && ShouldRetry(attempts[i].outcome.error, config)
    ensures RunRetries(config, attempts).calls == config.maxAttempts
    ensures RunRetries(config, attempts).outcome == attempts[config.maxAttempts - 1].outcome
    ensures |RunRetries(config, attempts).delays| == config.maxAttempts - 1
  {
    RunFromShape(config, attempts, 1, []);
    var r := RunRetries(config, attempts);
    if r.calls < config.maxAttempts {
      assert false;
    }
  }

  /** A non-retryable error stops the loop at the attempt that raised it. */
  lemma StopsOnNonRetryable<T>(config: RetryConfig, attempts: seq<Attempt<T>>, k: nat)
    requires config.maxAttempts <= |attempts| && DrawsInRange(attempts)
    requires 1 <= k <= config.maxAttempts
    requires attempts[k - 1].outcome.Failure? && !ShouldRetry(attempts[k - 1].outcome.error, config)
    requires forall i :: 0 <= i < k - 1 ==> attempts[i].outcome.Failure? && ShouldRetry(attempts[i].outcome.error, config)
    ensures RunRetries(config, attempts).calls == k
    ensures RunRetries(config, attempts).outcome == attempts[k - 1].outcome
  {
    RunFromShape(config, attempts, 1, []);
    var r := RunRetries(config, attempts);
    if r.calls != k {
      assert false;
    }
  }

  /** The sleeps already taken stay, and each new one is `calculate_delay` of its attempt with that attempt's draw. */
  lemma {:induction false} DelaysAreCalculated<T>(config: RetryConfig, attempts: seq<Attempt<T>>, attempt: nat, acc: seq<real>, i: nat)
    requires 1 <= attempt <= config.maxAttempts <= |attempts| && DrawsInRange(attempts)
    requires i < |RunFrom(config, attempts, attempt, acc).delays|
    ensures RunFrom(config, attempts, attempt, acc).delays[i] ==
      if i < |acc| then acc[i] else CalculateDelay(attempt + i - |acc|, config, attempts[attempt - 1 + i - |acc|].jitterDraw)
    decreases config.maxAttempts - attempt
  {
    var a := attempts[attempt - 1];
    if !(a.outcome.Success? || !Retries(a.outcome.error, config, attempt)) {
      DelaysAreCalculated(config, attempts, attempt + 1, acc + [CalculateDelay(attempt, config, a.jitterDraw)], i);
    }
  }

  /** Failed calls of a run, each of which bumped the operation's error count. */
  function Failures<T>(run: Run<T>): nat {
    if run.outcome.Success? && run.calls > 0 then run.calls - 1 else run.calls
  }

  function Get(m: map<string, nat>, key: string): nat {
    if key in m then m[key] else 0
  }

  /** `error_counts` after `n` failed attempts of `op`: each added one to its count. */
  function CountsWhile(counts: map<string, nat>, op: string, n: nat): map<string, nat> {
    if n == 0 then counts else counts[op := Get(counts, op) + n]
  }

  /** `error_counts` after a run of the operation `op`: a success resets an existing count. */
  function CountsAfter<T>(counts: map<string, nat>, op: string, run: Run<T>): map<string, nat> {
    var during := CountsWhile(counts, op, Failures(run));
    if run.outcome.Success? && op in during then during[op := 0] else during
  }

  /** `last_errors` after `n` failed attempts: the clock of the last one. */
  function LastWhile<T>(last: map<string, real>, op: string, attempts: seq<Attempt<T>>, n: nat): map<string, real>
    requires n <= |attempts|
  {
    if n == 0 then last else last[op := attempts[n - 1].at]
  }

  /** `last_errors` after a run. */
  function LastErrorsAfter<T>(last: map<string, real>, op: string, run: Run<T>, attempts: seq<Attempt<T>>): map<string, real>
    requires Failures(run) <= |attempts|
  {
    LastWhile(last, op, attempts, Failures(run))
  }

  /** One more failure, unfolded at the argument the retry loop carries. */
  lemma CountsWhileStep(c0: map<string, nat>, op: string, n: nat)
    ensures CountsWhile(c0, op, n + 1) == CountsWhile(c0, op, n)[op := Get(CountsWhile(c0, op, n), op) + 1]
  {
  }

  /** One more failure, unfolded at the argument the retry loop carries. */
  lemma LastWhileStep<T>(l0: map<string, real>, op: string, attempts: seq<Attempt<T>>, n: nat)
    requires n < |attempts|
    ensures LastWhile(l0, op, attempts, n + 1) == LastWhile(l0, op, attempts, n)[op := attempts[n].at]
  {
  }

  /** One more failure, at the bookkeeping the retry loop carries. */
  lemma FailureStep<T>(c0: map<string, nat>, l0: map<string, real>, op: string, attempts: seq<Attempt<T>>, n: nat,
                       counts: map<string, nat>, last: map<string, real>)
    requires n < |attempts| && counts == CountsWhile(c0, op, n) && last == LastWhile(l0, op, attempts, n)
    ensures counts[op := Get(counts, op) + 1] == CountsWhile(c0, op, n + 1)
    ensures last[op := attempts[n].at] == LastWhile(l0, op, attempts, n + 1)
  {
    CountsWhileStep(c0, op, n);
    LastWhileStep(l0, op, attempts, n);
  }

  /** A run that ends in a success at attempt `fails + 1`: its failures were counted, and the count is reset. */
  lemma EndsWithSuccess<T>(config: RetryConfig, attempts: seq<Attempt<T>>, attempt: nat, fails: nat, delays: seq<real>,
                           c0: map<string, nat>, l0: map<string, real>, op: string)
    requires 1 <= attempt <= config.maxAttempts <= |attempts| && DrawsInRange(attempts) && attempt == fails + 1
    requires RunRetries(config, attempts) == RunFrom(config, attempts, attempt, delays)
    requires attempts[fails].outcome.Success?
    ensures RunRetries(config, attempts) == Run(attempt, attempts[fails].outcome, delays)
    ensures CountsAfter(c0, op, RunRetries(config, attempts)) ==
      if op in CountsWhile(c0, op, fails) then CountsWhile(c0, op, fails)[op := 0] else CountsWhile(c0, op, fails)
    ensures LastErrorsAfter(l0, op, RunRetries(config, attempts), attempts) == LastWhile(l0, op, attempts, fails)
  {
    RunFromStops(config, attempts, attempt, delays);
  }

  /** A run that ends in a failure at attempt `fails` that is not retried: every attempt failed and was counted. */
  lemma EndsWithFailure<T>(config: RetryConfig, attempts: seq<Attempt<T>>, attempt: nat, fails: nat, delays: seq<real>,
                           c0: map<string, nat>, l0: map<string, real>, op: string)
    requires 1 <= attempt <= config.maxAttempts <= |attempts| && DrawsInRange(attempts) && attempt == fails
    requires RunRetries(config, attempts) == RunFrom(config, attempts, attempt, delays)
    requires attempts[attempt - 1].outcome.Failure? && !Retries(attempts[attempt - 1].outcome.error, config, attempt)
    ensures RunRetries(config, attempts) == Run(attempt, attempts[attempt - 1].outcome, delays)
    ensures CountsAfter(c0, op, RunRetries(config, attempts)) == CountsWhile(c0, op, fails)
    ensures LastErrorsAfter(l0, op, RunRetries(config, attempts), attempts) == LastWhile(l0, op, attempts, fails)
  {
    RunFromStops(config, attempts, attempt, delays);
  }

  /** `last_errors` holds the clock of the latest failure of `op` and leaves every other operation alone. */
  lemma LastWhileRecords<T>(last: map<string, real>, op: string, attempts: seq<Attempt<T>>, n: nat)
    requires n <= |attempts|
    ensures n > 0 ==> op in LastWhile(last, op, attempts, n) && LastWhile(last, op, attempts, n)[op] == attempts[n - 1].at
    ensures n == 0 ==> LastWhile(last, op, attempts, n) == last
    ensures forall k :: k != op ==>
      (k in LastWhile(last, op, attempts, n) <==> k in last) &&
      (k in last ==> LastWhile(last, op, attempts, n)[k] == last[k])
  {
  }

  /** Failed attempts add one each to the operation's count and leave every other count alone. */
  lemma CountsWhileAdds(counts: map<string, nat>, op: string, n: nat)
    ensures var c := CountsWhile(counts, op, n);
      && Get(c, op) == Get(counts, op) + n
      && c.Keys == counts.Keys + (if n > 0 then {op} else {})
      && (forall k :: k in c && k != op ==> c[k] == counts[k])
      && SumMap(c, Identity()) == SumMap(counts, Identity()) + n
  {
    if n > 0 {
      SumMapUpdate<string, nat>(counts, op, Get(counts, op) + n, Identity());
    }
  }

  /** A failed run adds one error per call to the operation's count, and so to the total. */
  lemma FailedRunCounts<T>(counts: map<string, nat>, op: string, run: Run<T>)
    requires run.outcome.Failure?
    ensures Get(CountsAfter(counts, op, run), op) == Get(counts, op) + run.calls
    ensures SumMap(CountsAfter(counts, op, run), Identity()) == SumMap(counts, Identity()) + run.calls
  {
    CountsWhileAdds(counts, op, run.calls);
  }

  /**
   * A successful run leaves the operation's count at 0. The key is present afterwards exactly
   * when it was before or an earlier attempt of the run failed and created it.
   */
  lemma SuccessfulRunResets<T>(counts: map<string, nat>, op: string, run: Run<T>)
    requires run.outcome.Success?
    ensures Get(CountsAfter(counts, op, run), op) == 0
    ensures op in CountsAfter(counts, op, run) <==> op in counts || Failures(run) > 0
    ensures op in CountsAfter(counts, op, run) ==> CountsAfter(counts, op, run)[op] == 0
    ensures SumMap(CountsAfter(counts, op, run), Identity()) <= SumMap(counts, Identity())
  {
    var during := CountsWhile(counts, op, Failures(run));
    CountsWhileAdds(counts, op, Failures(run));
    if op in during {
      SumMapUpdate<string, nat>(during, op, 0, Identity());
    }
  }

  function Identity(): nat -> nat {
    n => n
  }

  /** The user-facing error kinds. */
  datatype ErrorKind = Network | Timeout | RateLimit | NotFound | ServerError | Validation | Unknown {
    function Name(): string {
      match this
      case Network => "network"
      case Timeout => "timeout"
      case RateLimit => "rate_limit"
      case NotFound => "not_found"
      case ServerError => "server_error"
      case Validation => "validation"
      case Unknown => "unknown"
    }

    function DefaultMessage(): string {
      match this
      case Network => "Unable to connect to the service. Please check your internet connection."
      case Timeout => "The request took too long to complete. Please try again."
      case RateLimit => "Too many requests. Please wait a moment before trying again."
      case NotFound => "The requested resource was not found."
      case ServerError => "An internal server error occurred. Please try again later."
      case Validation => "The provided data is invalid."
      case Unknown => "An unexpected error occurred. Please try again."
    }
  }

  /** The kind `create_standardized_error` gives an error. */
  function Classify(e: Error): (k: ErrorKind)
    ensures k == Timeout <==> IsInstance(e, TimeoutException)
    ensures k == Network <==> IsInstance(e, NetworkError)
    ensures k == NotFound <==> e.kind == HTTPStatusError && e.statusCode == 404
    ensures k == RateLimit <==> e.kind == HTTPStatusError && e.statusCode == 429
    ensures k == ServerError <==> e.kind == HTTPStatusError && 500 <= e.statusCode < 600
    ensures k != Validation
  {
    if IsInstance(e, TimeoutException) then Timeout
    else if IsInstance(e, NetworkError) then Network
    else if IsInstance(e, HTTPStatusError) then
      if e.statusCode == 404 then NotFound
      else if e.statusCode == 429 then RateLimit
      else if 500 <= e.statusCode < 600 then ServerError
      else Unknown
    else Unknown
  }

  datatype StandardizedError = StandardizedError(
    error: string,
    message: string,
    operation: string,
    timestamp: real,
    details: Option<string>,
    retryable: bool)

  /** Python's `x or y` for an optional string: `None` and `""` both give `y`. */
  function OrElse(x: Option<string>, y: string): string {
    if x.Some? && x.value != "" then x.value else y
  }

  /** The builtin ConnectionError is an unknown kind, but the default configuration retries it. */
  lemma ConnectionErrorStandardized(message: string)
    ensures Classify(Error(ConnectionError, message, 0)) == Unknown
    ensures ShouldRetry(Error(ConnectionError, message, 0), DefaultRetryConfig())
  {
    assert IsInstance(Error(ConnectionError, message, 0), DefaultRetryConfig().retryableExceptions[4]);
  }

  /** Per-operation failure counters, their last timestamps, and the total. */
  datatype ErrorStats = ErrorStats(errorCounts: map<string, nat>, lastErrors: map<string, real>, totalErrors: nat)

  /** A card of the hard-coded fallback list. */
  datatype Card = Card(id: int, name: string, cardType: string, desc: string,
                       atk: int, def: int, level: int, race: string, attribute: string)

  /** `get_popular_cards_fallback` */
  function PopularCards(): seq<Card> {
    [Card(89631139, "Blue-Eyes White Dragon", "Normal Monster",
          "This legendary dragon is a powerful engine of destruction.", 3000, 2500, 8, "Dragon", "LIGHT"),
     Card(46986414, "Dark Magician", "Normal Monster",
          "The ultimate wizard in terms of attack and defense.", 2500, 2100, 7, "Spellcaster", "DARK"),
     Card(20721928, "Elemental HERO Sparkman", "Normal Monster",
          "A warrior of the light.", 1600, 1400, 4, "Warrior", "LIGHT")]
  }

  datatype FallbackResponse = FallbackResponse(data: seq<Card>, count: nat, error: string, fallback: bool, cached: bool)

  /** `get_error_fallback_response`; `fallbackData` is `None` or the list the caller supplied. */
  function ErrorFallbackResponse(operation: string, e: Error, fallbackData: Option<seq<Card>>): (r: FallbackResponse)
    ensures r.count == |r.data|
    ensures r.fallback && !r.cached
    ensures r.error == "Primary operation failed: " + e.message
    ensures fallbackData.Some? ==> r.data == fallbackData.value
    ensures fallbackData.None? ==> r.data == if operation == "card_search" then PopularCards() else []
  {
    var data := if operation == "card_search" && fallbackData.None? then PopularCards() else fallbackData.GetOr([]);
    FallbackResponse(data, |data|, "Primary operation failed: " + e.message, true, false)
  }

  /** A failed card search without supplied data falls back to the three popular cards. */
  lemma CardSearchFallback(e: Error)
    ensures var r := ErrorFallbackResponse("card_search", e, None);
      r.count == 3 && [r.data[0].id, r.data[1].id, r.data[2].id] == [89631139, 46986414, 20721928]
  {
  }

  /** `get_cached_or_default`: `lookup` is what `cache_service.get` returned or raised. */
  function GetCachedOrDefault<V>(lookup: Outcome<Option<V>>, default: Option<V>): (r: Option<V>)
    ensures (lookup.Success? && lookup.value.Some?) ==> r == lookup.value
    ensures !(lookup.Success? && lookup.value.Some?) ==> r == default
  {
    match lookup
    case Success(Some(v)) => Some(v)
    case _ => default
  }

  /** What `safe_api_call` hands back: the operation's result, or the fallback response. */
  datatype ApiResponse<T> = Primary(value: T) | Fallback(response: FallbackResponse)

  /** `custom_config or self.retry_configs.get(operation_type, RetryConfig())` */
  function ConfigFor(configs: map<string, RetryConfig>, op: string, custom: Option<RetryConfig>): RetryConfig {
    if custom.Some? then custom.value else if op in configs then configs[op] else DefaultRetryConfig()
  }

  function DefaultRetryConfigs(): map<string, RetryConfig> {
    map["api_request" := NewRetryConfig(3, 1.0, 60.0, 2.0, true, [], []),
        "cache_operation" := NewRetryConfig(2, 0.5, 60.0, 2.0, true, [], []),
        "database_operation" := NewRetryConfig(3, 2.0, 60.0, 2.0, true, [], [])]
  }

  /** The attempt loop of `retry_with_backoff`, on copies `counts` and `last` of the handler's two maps. */
  method RetryLoop<T>(config: RetryConfig, op: string, attempts: seq<Attempt<T>>, c0: map<string, nat>, l0: map<string, real>)
    returns (outcome: Outcome<T>, calls: nat, delays: seq<real>, counts: map<string, nat>, last: map<string, real>)
    requires config.maxAttempts <= |attempts|
    requires DrawsInRange(attempts)
    ensures outcome == RunRetries(config, attempts).outcome
    ensures calls == RunRetries(config, attempts).calls
    ensures delays == RunRetries(config, attempts).delays
    ensures counts == CountsAfter(c0, op, RunRetries(config, attempts))
    ensures last == LastErrorsAfter(l0, op, RunRetries(config, attempts), attempts)
  {
    ghost var run := RunRetries(config, attempts);
    counts, last := c0, l0;
    if config.maxAttempts < 1 {
      // `range(1, max_attempts + 1)` is empty and `raise None` is a TypeError.
      return Failure(RaiseNoneError), 0, [], counts, last;
    }
    var attempt: nat := 1;
    ghost var fails: nat := 0;
    delays := [];
    while attempt <= config.maxAttempts
      invariant 1 <= attempt <= config.maxAttempts
      invariant fails == attempt - 1
      invariant run == RunFrom(config, attempts, attempt, delays)
      invariant |delays| == attempt - 1 && attempt <= |attempts| + 1
      invariant counts == CountsWhile(c0, op, fails)
      invariant last == LastWhile(l0, op, attempts, fails)
      decreases config.maxAttempts - attempt
    {
      var a := attempts[attempt - 1];
      if a.outcome.Success? {
        EndsWithSuccess(config, attempts, attempt, fails, delays, c0, l0, op);
        if op in counts {
          counts := counts[op := 0];
        }
        return a.outcome, attempt, delays, counts, last;
      }
      var e := a.outcome.error;
      FailureStep(c0, l0, op, attempts, fails, counts, last);
      counts := counts[op := Get(counts, op) + 1];
      last := last[op := a.at];
      fails := fails + 1;
      // Not retryable, or the last attempt.
      if !Retries(e, config, attempt) {
        EndsWithFailure(config, attempts, attempt, fails, delays, c0, l0, op);
        return a.outcome, attempt, delays, counts, last;
      }
      var delay := CalculateDelay(attempt, config, a.jitterDraw);
      RunFromRetry(config, attempts, attempt, delays);
      delays := delays + [delay];
      attempt := attempt + 1;
    }
    // Every iteration either returns or moves on to an attempt that is still allowed.
    assert false;
  }

  /** The handler of `error_handler.py`; `debug` stands for a logger level at or below DEBUG. */
  class ErrorHandler {
    const retryConfigs: map<string, RetryConfig>
    const debug: bool
    var errorCounts: map<string, nat>
    var lastErrors: map<string, real>

    constructor(debug: bool)
      ensures retryConfigs == DefaultRetryConfigs() && this.debug == debug
      ensures errorCounts == map[] && lastErrors == map[]
    {
      retryConfigs := DefaultRetryConfigs();
      this.debug := debug;
      errorCounts := map[];
      lastErrors := map[];
    }

    /** `retry_with_backoff` for operation `op` on the script `attempts`. */
    method RetryWithBackoff<T>(op: string, custom: Option<RetryConfig>, attempts: seq<Attempt<T>>)
      returns (outcome: Outcome<T>, calls: nat, delays: seq<real>)
      requires ConfigFor(retryConfigs, op, custom).maxAttempts <= |attempts|
      requires DrawsInRange(attempts)
      modifies this
      ensures outcome == RunRetries(ConfigFor(retryConfigs, op, custom), attempts).outcome
      ensures calls == RunRetries(ConfigFor(retryConfigs, op, custom), attempts).calls
      ensures delays == RunRetries(ConfigFor(retryConfigs, op, custom), attempts).delays
      ensures errorCounts == CountsAfter(old(errorCounts), op, RunRetries(ConfigFor(retryConfigs, op, custom), attempts))
      ensures lastErrors == LastErrorsAfter(old(lastErrors), op, RunRetries(ConfigFor(retryConfigs, op, custom), attempts), attempts)
    {
      var counts, last;
      outcome, calls, delays, counts, last := RetryLoop(ConfigFor(retryConfigs, op, custom), op, attempts, errorCounts, lastErrors);
      errorCounts, lastErrors := counts, last;
    }

    /** `create_standardized_error`; `now` is the timestamp. */
    function CreateStandardizedError(e: Error, operation: string, userMessage: Option<string>,
                                     errorCode: Option<string>, now: real): (r: StandardizedError)
      ensures r.operation == operation && r.timestamp == now
      ensures r.error == OrElse(errorCode, Classify(e).Name())
      ensures r.message == OrElse(userMessage, Classify(e).DefaultMessage())
      ensures r.details == if debug then Some(e.message) else None
      ensures r.retryable == ShouldRetry(e, DefaultRetryConfig())
    {
      var kind := Classify(e);
      StandardizedError(OrElse(errorCode, kind.Name()), OrElse(userMessage, kind.DefaultMessage()), operation, now,
                        if debug then Some(e.message) else None, ShouldRetry(e, DefaultRetryConfig()))
    }

    /** `get_error_stats` */
    method GetErrorStats() returns (s: ErrorStats)
      ensures s.errorCounts == errorCounts && s.lastErrors == lastErrors
      ensures s.totalErrors == SumMap(errorCounts, Identity())
    {
      var total := 0;
      var ops := errorCounts.Keys;
      while ops != {}
        invariant ops <= errorCounts.Keys
        invariant total + SumKeys(errorCounts, ops, Identity()) == SumMap(errorCounts, Identity())
        decreases ops
      {
        var op :| op in ops;
        SumKeysRemove(errorCounts, ops, op, Identity());
        total := total + errorCounts[op];
        ops := ops - {op};
      }
      s := ErrorStats(errorCounts, lastErrors, total);
    }
  }

  /** `safe_api_call`: the retried result, or the fallback response instead of raising. */
  method SafeApiCall<T>(handler: ErrorHandler, op: string, fallbackData: Option<seq<Card>>, attempts: seq<Attempt<T>>)
    returns (r: ApiResponse<T>)
    requires ConfigFor(handler.retryConfigs, op, None).maxAttempts <= |attempts|
    requires DrawsInRange(attempts)
    modifies handler
    ensures var run := RunRetries(ConfigFor(handler.retryConfigs, op, None), attempts);
      r == match run.outcome
           case Success(v) => Primary(v)
           case Failure(e) => Fallback(ErrorFallbackResponse(op, e, fallbackData))
    ensures handler.errorCounts == CountsAfter(old(handler.errorCounts), op, RunRetries(ConfigFor(handler.retryConfigs, op, None), attempts))
    ensures handler.lastErrors == LastErrorsAfter(old(handler.lastErrors), op, RunRetries(ConfigFor(handler.retryConfigs, op, None), attempts), attempts)
  {
    var outcome, calls, delays := handler.RetryWithBackoff(op, None, attempts);
    match outcome
    case Success(v) => r := Primary(v);
    case Failure(e) => r := Fallback(ErrorFallbackResponse(op, e, fallbackData));
  }
}
