/** The retry loop of unary gRPC calls. */
module RpcRetry {

  datatype Code = Unavailable | DeadlineExceeded | OtherCode(n: nat)

  datatype Outcome = Success(response: nat) | Failure(code: Code) {
    /** Only network-like errors are worth another attempt. */
    predicate Retryable() { Failure? && (code == Unavailable || code == DeadlineExceeded) }
  }

  // Durations in nanoseconds.
  datatype RpcRetryConfig = RpcRetryConfig(maxRetries: nat, baseBackoff: nat, maxBackoff: nat)

  const U32_MAX: nat := 0xFFFF_FFFF

  // The longest duration: a 64-bit number of seconds and the nanoseconds below the next one.
  const DURATION_MAX: nat := 0x1_0000_0000_0000_0000 * 1_000_000_000 - 1

  datatype Result = Done(outcome: Outcome) | CounterOverflow | DurationOverflow

  function Product(cfg: RpcRetryConfig, attempt: nat): nat { cfg.baseBackoff * attempt }

  function Pause(cfg: RpcRetryConfig, attempt: nat): nat {
    if Product(cfg, attempt) > cfg.maxBackoff then cfg.maxBackoff else Product(cfg, attempt)
  }

  /** A pause grows with the attempt number until the cap is reached, and stays there. */
  lemma PauseIsCapped(cfg: RpcRetryConfig, attempt: nat)
    ensures cfg.baseBackoff * attempt <= cfg.maxBackoff ==> Pause(cfg, attempt) == cfg.baseBackoff * attempt
    ensures cfg.baseBackoff * attempt >= cfg.maxBackoff ==> Pause(cfg, attempt) == cfg.maxBackoff
  {
  }

  /** Worth retrying: the server was unavailable or the deadline passed, and nothing else. */
  lemma RetryableIff(o: Outcome)
    ensures o.Retryable() <==> o == Failure(Unavailable) || o == Failure(DeadlineExceeded)
  {
  }

  /** Total sleep after the first `n` failed attempts. */
  ghost function TotalPause(cfg: RpcRetryConfig, n: nat): nat {
    if n == 0 then 0 else TotalPause(cfg, n - 1) + Pause(cfg, n)
  }

  ghost predicate AllRetryable(outcomes: nat -> Outcome, n: int) { forall i :: 0 <= i < n ==> outcomes(i).Retryable() }

  lemma ProductOrder(cfg: RpcRetryConfig, m: nat, n: nat)
    requires m <= n
    ensures Product(cfg, m) <= Product(cfg, n)
  {
    assert cfg.baseBackoff * n == cfg.baseBackoff * m + cfg.baseBackoff * (n - m);
  }

  /**
   * `outcomes` says how each call would turn out. The loop ends with the first outcome not worth retrying or after
   * `maxRetries + 1` calls, unless a backoff is too long for a duration, or the largest possible `maxRetries` lets the
   * 32-bit attempt counter run over.
   */
  method CallWithRetry(cfg: RpcRetryConfig, outcomes: nat -> Outcome) returns (r: Result, calls: nat, slept: nat)
    requires cfg.maxRetries <= U32_MAX
    ensures calls <= cfg.maxRetries + 1
    ensures AllRetryable(outcomes, calls - 1)
    ensures r.Done? ==> calls >= 1 && r.outcome == outcomes(calls - 1)
    ensures r.Done? ==> !outcomes(calls - 1).Retryable() || calls == cfg.maxRetries + 1
    ensures r.Done? ==> slept == TotalPause(cfg, calls - 1)
    ensures r.DurationOverflow? ==>
              && 1 <= calls <= cfg.maxRetries && AllRetryable(outcomes, calls)
              && Product(cfg, calls - 1) <= DURATION_MAX < Product(cfg, calls)
    ensures !r.DurationOverflow? && calls > 0 ==> Product(cfg, calls - 1) <= DURATION_MAX
    ensures r.CounterOverflow? <==>
              cfg.maxRetries == U32_MAX && AllRetryable(outcomes, U32_MAX) && Product(cfg, U32_MAX) <= DURATION_MAX
  {
    var attempt: nat := 0;
    calls, slept := 0, 0;
    while true
      invariant attempt == calls <= U32_MAX && calls <= cfg.maxRetries
      invariant AllRetryable(outcomes, calls)
      invariant Product(cfg, calls) <= DURATION_MAX
      invariant slept == TotalPause(cfg, calls)
      decreases U32_MAX - attempt
    {
      if attempt == U32_MAX { return CounterOverflow, calls, slept; }
      attempt := attempt + 1;
      ProductOrder(cfg, attempt, U32_MAX);
      var result := outcomes(calls);
      calls := calls + 1;
      if result.Success? { return Done(result), calls, slept; }
      if !result.Retryable() || attempt > cfg.maxRetries { return Done(result), calls, slept; }
      if Product(cfg, attempt) > DURATION_MAX { return DurationOverflow, calls, slept; }
      slept := slept + Pause(cfg, attempt);
    }
  }

  /** The outcomes determine which call is the last one: no other index meets the conditions. */
  lemma LastCallUnique(cfg: RpcRetryConfig, outcomes: nat -> Outcome, m: nat, n: nat)
    requires m <= cfg.maxRetries && n <= cfg.maxRetries
    requires AllRetryable(outcomes, m) && AllRetryable(outcomes, n)
    requires !outcomes(m).Retryable() || m == cfg.maxRetries
    requires !outcomes(n).Retryable() || n == cfg.maxRetries
    ensures m == n
  {
    assert m < n ==> outcomes(m).Retryable();
    assert n < m ==> outcomes(n).Retryable();
  }

  lemma {:induction false} TotalPauseBound(cfg: RpcRetryConfig, n: nat)
    ensures TotalPause(cfg, n) <= n * cfg.maxBackoff
  {
    if n > 0 {
      TotalPauseBound(cfg, n - 1);
      assert (n - 1) * cfg.maxBackoff + cfg.maxBackoff == n * cfg.maxBackoff;
    }
  }

  /** As long as the cap is not reached, the pauses add up like the numbers from one to `n`. */
  lemma {:induction false} TotalPauseBelowCap(cfg: RpcRetryConfig, n: nat)
    requires cfg.baseBackoff * n <= cfg.maxBackoff
    ensures 2 * TotalPause(cfg, n) == cfg.baseBackoff * (n * (n + 1))
  {
    if n > 0 {
      assert cfg.baseBackoff * (n - 1) <= cfg.baseBackoff * n;
      TotalPauseBelowCap(cfg, n - 1);
      PauseIsCapped(cfg, n);
      assert n * (n + 1) == (n - 1) * n + 2 * n;
      Distribute(cfg.baseBackoff, (n - 1) * n, 2 * n);
    } else {
      assert n * (n + 1) == 0;
    }
  }

  lemma Distribute(a: int, b: int, c: int)
    ensures a * (b + c) == a * b + a * c
  {
  }
}
