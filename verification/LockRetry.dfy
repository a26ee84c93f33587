/** The retry loop of `try_lock`: attempts, exponential backoff, jitter and the overall time limit. */
module LockRetry {
  import opened Seqs

  const U32_MAX: nat := 0xFFFF_FFFF

  // Durations are whole nanoseconds; the longest one has a 64-bit number of seconds.
  const DURATION_MAX: nat := 0x1_0000_0000_0000_0000 * 1_000_000_000 - 1

  datatype LockConfig = LockConfig(
    maxWait: Option<nat>, initialBackoff: nat, maxBackoff: nat, multiplier: real, jitterPct: real,
    maxAttempts: Option<nat>)
  {
    /** The number of attempts is a 32-bit number. */
    predicate Valid() { maxAttempts.Some? ==> maxAttempts.value <= U32_MAX }
  }

  datatype Attempt = Acquired | Busy | Failed

  // StillTrying: the iterations observed are over. CounterOverflow: the 32-bit attempt counter has run over.
  // DurationOverflow: a product is negative or too long for a duration.
  datatype Outcome = Guard | GaveUp | Error | StillTrying | CounterOverflow | DurationOverflow

  function Min(x: nat, y: nat): nat { if x <= y then x else y }

  function Jitter(cfg: LockConfig): (j: real)
    ensures 0.0 <= j <= 1.0
    ensures 0.0 <= cfg.jitterPct <= 1.0 ==> j == cfg.jitterPct
    ensures cfg.jitterPct < 0.0 ==> j == 0.0
    ensures cfg.jitterPct > 1.0 ==> j == 1.0
  {
    if cfg.jitterPct < 0.0 then 0.0 else if cfg.jitterPct > 1.0 then 1.0 else cfg.jitterPct
  }

  /** The factor of every sleep of one call; `frac` is the key's hash scaled to the unit interval. */
  function JitterFactor(cfg: LockConfig, frac: real): (f: real)
    requires 0.0 <= frac <= 1.0
    ensures 1.0 - Jitter(cfg) <= f <= 1.0 + Jitter(cfg)
  {
    var pct := Jitter(cfg);
    FractionOf(frac, 2.0 * pct);
    1.0 - pct + frac * (1.0 + pct - (1.0 - pct))
  }

  /** The hash decides where between the two extremes the factor lies, in proportion. */
  lemma JitterSpreads(cfg: LockConfig, frac: real)
    requires 0.0 <= frac <= 1.0
    ensures JitterFactor(cfg, 0.0) == 1.0 - Jitter(cfg) && JitterFactor(cfg, 1.0) == 1.0 + Jitter(cfg)
    ensures JitterFactor(cfg, frac) ==
            JitterFactor(cfg, 0.0) + frac * (JitterFactor(cfg, 1.0) - JitterFactor(cfg, 0.0))
  {
  }

  lemma FractionOf(x: real, y: real)
    requires 0.0 <= x <= 1.0 && y >= 0.0
    ensures 0.0 <= x * y <= y
  {
  }

  // ---- Multiplication of durations ----

  /** Multiplication by a fixed factor: the product in whole nanoseconds, and whether it is a duration at all. */
  datatype Scale = Scale(product: nat -> nat, fits: nat -> bool)

  ghost predicate Nearest(y: nat, x: real) { x - 0.5 <= y as real <= x + 0.5 }

  function Times(x: nat, f: real): real { x as real * f }

  /** The product is rounded to a nearest nanosecond, ties either way; it must not be negative or too long. */
  ghost predicate MultipliesAt(sc: Scale, f: real, x: nat) {
    && (f >= 0.0 || x == 0 ==> Nearest(sc.product(x), Times(x, f)))
    && (sc.fits(x) <==> (f >= 0.0 || x == 0) && sc.product(x) <= DURATION_MAX)
  }

  ghost predicate Multiplies(sc: Scale, f: real) { forall x: nat :: MultipliesAt(sc, f, x) }

  ghost predicate Monotone(g: nat -> nat) { forall x: nat, y: nat :: x <= y ==> g(x) <= g(y) }

  ghost predicate Expands(g: nat -> nat) { forall x: nat :: x <= g(x) }

  ghost predicate Shrinks(g: nat -> nat) { forall x: nat :: g(x) <= x }

  lemma TimesOrder(x: nat, y: nat, f: real)
    requires 0.0 <= f && x <= y
    ensures Times(x, f) <= Times(y, f)
    ensures f > 0.0 && x < y ==> Times(x, f) < Times(y, f)
  {
    var gap := (y - x) as real;
    assert Times(y, f) == Times(x, f) + gap * f;
    if f > 0.0 && x < y { assert gap * f > 0.0; }
  }

  lemma TimesZero(x: nat)
    ensures Times(x, 0.0) == 0.0
  {
  }

  lemma NearestOrder(a: real, b: real, p: nat, q: nat)
    requires Nearest(p, a) && Nearest(q, b) && a < b
    ensures p <= q
  {
  }

  lemma ProductOrder(sc: Scale, f: real, x: nat, y: nat)
    requires 0.0 <= f && x <= y && MultipliesAt(sc, f, x) && MultipliesAt(sc, f, y)
    ensures sc.product(x) <= sc.product(y)
  {
    TimesOrder(x, y, f);
    if f == 0.0 {
      TimesZero(x);
      TimesZero(y);
    } else if x < y {
      NearestOrder(Times(x, f), Times(y, f), sc.product(x), sc.product(y));
    }
  }

  lemma TimesAroundOne(x: nat, f: real)
    ensures f >= 1.0 ==> x as real <= Times(x, f)
    ensures f <= 1.0 ==> Times(x, f) <= x as real
    ensures f <= 0.5 ==> Times(x, f) <= x as real * 0.5
  {
    var r := x as real;
    if f >= 1.0 { assert r * (f - 1.0) >= 0.0; }
    if f <= 1.0 { assert r * (1.0 - f) >= 0.0; }
    if f <= 0.5 { assert r * (0.5 - f) >= 0.0; }
  }

  /** Rounding does not disturb the order: the product is monotone, and grows or shrinks like the exact one. */
  lemma ProductIsRegular(sc: Scale, f: real)
    requires f >= 0.0 && Multiplies(sc, f)
    ensures Monotone(sc.product) && (f >= 1.0 ==> Expands(sc.product)) && (f <= 1.0 ==> Shrinks(sc.product))
  {
    forall x: nat, y: nat | x <= y ensures sc.product(x) <= sc.product(y) {
      assert MultipliesAt(sc, f, x) && MultipliesAt(sc, f, y);
      ProductOrder(sc, f, x, y);
    }
    forall x: nat ensures (f >= 1.0 ==> x <= sc.product(x)) && (f <= 1.0 ==> sc.product(x) <= x) {
      assert MultipliesAt(sc, f, x);
      TimesAroundOne(x, f);
    }
  }

  // ---- The backoff sequence ----

  /** The first backoff grown `k` times, cut off at the cap after each step. */
  function Capped(grow: nat -> nat, initial: nat, cap: nat, k: nat): nat {
    if k == 0 then initial else Min(grow(Capped(grow, initial, cap, k - 1)), cap)
  }

  /** The same without a cap. */
  function Uncapped(grow: nat -> nat, initial: nat, k: nat): nat {
    if k == 0 then initial else grow(Uncapped(grow, initial, k - 1))
  }

  /** The backoff before the sleep with number `k`, counted from zero. */
  function Backoff(cfg: LockConfig, grow: Scale, k: nat): nat {
    Capped(grow.product, cfg.initialBackoff, cfg.maxBackoff, k)
  }

  lemma {:induction false} UncappedShrinks(grow: nat -> nat, initial: nat, k: nat)
    requires Shrinks(grow)
    ensures Uncapped(grow, initial, k) <= initial
  {
    if k > 0 { UncappedShrinks(grow, initial, k - 1); }
  }

  lemma {:induction false} CappedShrinks(grow: nat -> nat, initial: nat, cap: nat, k: nat)
    requires initial <= cap && Shrinks(grow)
    ensures Capped(grow, initial, cap, k) == Uncapped(grow, initial, k) <= cap
  {
    if k > 0 {
      CappedShrinks(grow, initial, cap, k - 1);
      UncappedShrinks(grow, initial, k);
    }
  }

  lemma {:induction false} CappedExpands(grow: nat -> nat, initial: nat, cap: nat, k: nat)
    requires initial <= cap && Monotone(grow) && Expands(grow)
    ensures Capped(grow, initial, cap, k) == Min(Uncapped(grow, initial, k), cap)
  {
    if k > 0 {
      CappedExpands(grow, initial, cap, k - 1);
      if Uncapped(grow, initial, k - 1) > cap { assert cap <= grow(cap) <= grow(Uncapped(grow, initial, k - 1)); }
    }
  }

  /** Cutting off at each step is cutting off once, for every sleep, exactly when the first backoff is within the cap. */
  lemma BackoffClosedFormIff(cfg: LockConfig, grow: Scale)
    requires cfg.multiplier >= 0.0 && Multiplies(grow, cfg.multiplier)
    ensures cfg.initialBackoff <= cfg.maxBackoff <==>
              forall k: nat ::
                Backoff(cfg, grow, k) == Min(Uncapped(grow.product, cfg.initialBackoff, k), cfg.maxBackoff)
  {
    if cfg.initialBackoff <= cfg.maxBackoff {
      ProductIsRegular(grow, cfg.multiplier);
      forall k: nat
        ensures Backoff(cfg, grow, k) == Min(Uncapped(grow.product, cfg.initialBackoff, k), cfg.maxBackoff)
      {
        if cfg.multiplier >= 1.0 {
          CappedExpands(grow.product, cfg.initialBackoff, cfg.maxBackoff, k);
        } else {
          CappedShrinks(grow.product, cfg.initialBackoff, cfg.maxBackoff, k);
        }
      }
    } else {
      assert Backoff(cfg, grow, 0) != Min(Uncapped(grow.product, cfg.initialBackoff, 0), cfg.maxBackoff);
    }
  }

  // ---- The exponential ----

  function Power(m: real, k: nat): real { if k == 0 then 1.0 else Power(m, k - 1) * m }

  /** How far `k` roundings by half a nanosecond can lead away from the exact product. */
  function Drift(m: real, k: nat): real { if k == 0 then 0.0 else Drift(m, k - 1) * m + 0.5 }

  ghost predicate Within(x: real, y: real, d: real) { y - d <= x <= y + d }

  lemma ScaledGap(x: real, y: real, d: real, m: real)
    requires Within(x, y, d) && m >= 0.0
    ensures Within(x * m, y * m, d * m)
  {
    assert (y + d - x) * m >= 0.0;
    assert (x - (y - d)) * m >= 0.0;
  }

  lemma Associate(x: real, y: real, z: real)
    ensures x * y * z == x * (y * z)
  {
  }

  ghost function Exponential(initial: nat, m: real, k: nat): real { initial as real * Power(m, k) }

  lemma {:induction false} UncappedNearExponential(grow: Scale, m: real, initial: nat, k: nat)
    requires m >= 0.0 && Multiplies(grow, m)
    ensures Within(Uncapped(grow.product, initial, k) as real, Exponential(initial, m, k), Drift(m, k))
  {
    if k > 0 {
      var before := Uncapped(grow.product, initial, k - 1);
      UncappedNearExponential(grow, m, initial, k - 1);
      assert MultipliesAt(grow, m, before);
      ScaledGap(before as real, Exponential(initial, m, k - 1), Drift(m, k - 1), m);
      Associate(initial as real, Power(m, k - 1), m);
    }
  }

  function MinReal(x: real, y: real): real { if x <= y then x else y }

  /**
   * The k-th backoff is the smaller of the cap and the first backoff times the k-th power of the multiplier, up to the
   * accumulated rounding.
   */
  lemma BackoffNearExponential(cfg: LockConfig, grow: Scale, k: nat)
    requires cfg.multiplier >= 0.0 && Multiplies(grow, cfg.multiplier) && cfg.initialBackoff <= cfg.maxBackoff
    ensures Within(Backoff(cfg, grow, k) as real,
                   MinReal(Exponential(cfg.initialBackoff, cfg.multiplier, k), cfg.maxBackoff as real),
                   Drift(cfg.multiplier, k))
  {
    BackoffClosedFormIff(cfg, grow);
    UncappedNearExponential(grow, cfg.multiplier, cfg.initialBackoff, k);
  }

  // ---- When the backoff vanishes ----

  /** One nanosecond grows to none: below a factor of one half, and at one half if the tie is rounded down. */
  lemma OneNanosecond(grow: Scale, m: real)
    requires m >= 0.0 && Multiplies(grow, m)
    ensures grow.product(1) == 0 <==> m < 0.5 || (m == 0.5 && grow.product(1) == 0)
  {
    assert MultipliesAt(grow, m, 1) && Times(1, m) == m;
  }

  lemma ProductFalls(grow: Scale, m: real, x: nat)
    requires m >= 0.0 && Multiplies(grow, m) && grow.product(1) == 0 && x > 0
    ensures grow.product(x) < x
  {
    assert MultipliesAt(grow, m, 1) && Times(1, m) == m;
    assert MultipliesAt(grow, m, x);
    TimesAroundOne(x, m);
  }

  lemma {:induction false} BackoffFalls(cfg: LockConfig, grow: Scale, k: nat)
    requires cfg.multiplier >= 0.0 && Multiplies(grow, cfg.multiplier) && grow.product(1) == 0
    requires k <= cfg.initialBackoff
    ensures Backoff(cfg, grow, k) <= cfg.initialBackoff - k
  {
    if k > 0 {
      BackoffFalls(cfg, grow, k - 1);
      var before := Backoff(cfg, grow, k - 1);
      if before > 0 {
        ProductFalls(grow, cfg.multiplier, before);
      } else {
        assert MultipliesAt(grow, cfg.multiplier, 0);
      }
    }
  }

  /** First backoff and cap are not zero, and one nanosecond does not grow to none. */
  ghost predicate Lasting(cfg: LockConfig, grow: Scale) {
    cfg.initialBackoff > 0 && cfg.maxBackoff > 0 && grow.product(1) > 0
  }

  lemma {:induction false} BackoffLasts(cfg: LockConfig, grow: Scale, k: nat)
    requires Monotone(grow.product) && Lasting(cfg, grow)
    ensures Backoff(cfg, grow, k) > 0
  {
    if k > 0 {
      BackoffLasts(cfg, grow, k - 1);
      assert grow.product(1) <= grow.product(Backoff(cfg, grow, k - 1));
    }
  }

  /**
   * Some backoff is zero exactly when the first backoff or the cap is, or the multiplier is below one half, or is one
   * half and the tie at half a nanosecond is rounded down.
   */
  lemma BackoffVanishesIff(cfg: LockConfig, grow: Scale)
    requires cfg.multiplier >= 0.0 && Multiplies(grow, cfg.multiplier)
    ensures (exists k: nat :: Backoff(cfg, grow, k) == 0) <==> !Lasting(cfg, grow)
    ensures !Lasting(cfg, grow) <==>
              || cfg.initialBackoff == 0 || cfg.maxBackoff == 0 || cfg.multiplier < 0.5
              || (cfg.multiplier == 0.5 && grow.product(1) == 0)
  {
    OneNanosecond(grow, cfg.multiplier);
    if Lasting(cfg, grow) {
      ProductIsRegular(grow, cfg.multiplier);
      forall k: nat ensures Backoff(cfg, grow, k) > 0 { BackoffLasts(cfg, grow, k); }
    } else if cfg.initialBackoff == 0 {
      assert Backoff(cfg, grow, 0) == 0;
    } else if cfg.maxBackoff == 0 {
      assert Backoff(cfg, grow, 1) == 0;
    } else {
      BackoffFalls(cfg, grow, cfg.initialBackoff);
      assert Backoff(cfg, grow, cfg.initialBackoff) == 0;
    }
  }

  // ---- The loop ----

  /** A sleep that would end at the limit ends, once stretched, by the deadline. */
  ghost predicate StaysWithin(stretch: nat -> nat, limit: nat, deadline: nat) {
    forall sleep: nat :: sleep <= limit ==> limit - sleep + stretch(sleep) <= deadline
  }

  ghost function Sum(stretch: nat -> nat, planned: seq<nat>): nat {
    if planned == [] then 0
    else Sum(stretch, planned[..|planned| - 1]) + stretch(planned[|planned| - 1])
  }

  ghost predicate AllBusy(attempts: nat -> Attempt, n: int) { forall k :: 0 <= k < n ==> attempts(k) == Busy }

  function Remaining(cfg: LockConfig, backoff: nat, elapsed: nat): nat {
    // Without a limit, the remaining time is taken to be the backoff, so a zero backoff ends the loop.
    if cfg.maxWait.None? then backoff else if elapsed >= cfg.maxWait.value then 0 else cfg.maxWait.value - elapsed
  }

  /** The time that is left after the sleeps in `slept`. */
  ghost function TimeLeft(cfg: LockConfig, grow: Scale, stretch: Scale, slept: seq<nat>): nat {
    var used := Sum(stretch.product, slept);
    match cfg.maxWait
    case None => Backoff(cfg, grow, |slept|)
    case Some(limit) => if used < limit then limit - used else 0
  }

  /** The sleep that follows the ones in `slept`: the backoff, cut off at the time that is left if time is limited. */
  ghost function NextSleep(cfg: LockConfig, grow: Scale, stretch: Scale, slept: seq<nat>): nat {
    Min(Backoff(cfg, grow, |slept|), TimeLeft(cfg, grow, stretch, slept))
  }

  ghost predicate SleepAt(cfg: LockConfig, grow: Scale, stretch: Scale, slept: seq<nat>, sleep: nat) {
    && sleep == NextSleep(cfg, grow, stretch, slept) && TimeLeft(cfg, grow, stretch, slept) > 0
    && stretch.fits(sleep)
  }

  /** Each sleep is the one that is due, there was time for it, and its stretched length is a duration. */
  ghost predicate FollowsBackoff(cfg: LockConfig, grow: Scale, stretch: Scale, planned: seq<nat>) {
    forall k :: 0 <= k < |planned| ==> SleepAt(cfg, grow, stretch, planned[..k], planned[k])
  }

  /** The backoff could be grown after each of the first `n` sleeps. */
  ghost predicate GrowthFits(cfg: LockConfig, grow: Scale, n: nat) {
    forall k: nat :: k < n ==> grow.fits(Backoff(cfg, grow, k))
  }

  lemma LogSleep(cfg: LockConfig, grow: Scale, stretch: Scale, planned: seq<nat>, sleep: nat)
    requires FollowsBackoff(cfg, grow, stretch, planned) && SleepAt(cfg, grow, stretch, planned, sleep)
    ensures FollowsBackoff(cfg, grow, stretch, planned + [sleep])
    ensures Sum(stretch.product, planned + [sleep]) == Sum(stretch.product, planned) + stretch.product(sleep)
  {
    var longer := planned + [sleep];
    assert longer[..|planned|] == planned;
    forall k | 0 <= k < |longer| ensures SleepAt(cfg, grow, stretch, longer[..k], longer[k]) {
      if k < |planned| { assert longer[..k] == planned[..k]; }
    }
  }

  /** What the loop has kept up to date after the sleeps in `planned`. */
  ghost predicate Progress(
    cfg: LockConfig, grow: Scale, stretch: Scale, deadline: nat, planned: seq<nat>, backoff: nat, elapsed: nat) {
    && backoff == Backoff(cfg, grow, |planned|) && GrowthFits(cfg, grow, |planned|)
    && Logged(cfg, grow, stretch, deadline, planned, elapsed)
  }

  /** The sleeps so far and the time they have taken. */
  ghost predicate Logged(
    cfg: LockConfig, grow: Scale, stretch: Scale, deadline: nat, planned: seq<nat>, elapsed: nat) {
    && elapsed == Sum(stretch.product, planned) && (cfg.maxWait.Some? ==> elapsed <= deadline)
    && FollowsBackoff(cfg, grow, stretch, planned)
  }

  lemma SleepIsLogged(
    cfg: LockConfig, grow: Scale, stretch: Scale, deadline: nat, planned: seq<nat>, elapsed: nat, sleep: nat)
    requires cfg.maxWait.Some? ==> StaysWithin(stretch.product, cfg.maxWait.value, deadline)
    requires Logged(cfg, grow, stretch, deadline, planned, elapsed) && SleepAt(cfg, grow, stretch, planned, sleep)
    ensures Logged(cfg, grow, stretch, deadline, planned + [sleep], elapsed + stretch.product(sleep))
  {
    LogSleep(cfg, grow, stretch, planned, sleep);
    if cfg.maxWait.Some? { assert cfg.maxWait.value - sleep + stretch.product(sleep) <= deadline; }
  }

  /** Why the call gave up: attempts used up, or no time left. */
  ghost predicate GivesUp(cfg: LockConfig, grow: Scale, stretch: Scale, acquisitions: nat, planned: seq<nat>) {
    || cfg.maxAttempts == Some(acquisitions)
    || (cfg.maxWait.Some? && TimeLeft(cfg, grow, stretch, planned) == 0)
    || (cfg.maxWait.None? && acquisitions == |planned| + 1 && TimeLeft(cfg, grow, stretch, planned) == 0)
  }

  /** Which product failed: the growth after the last sleep, or the stretching of the next one. */
  ghost predicate Overflows(cfg: LockConfig, grow: Scale, stretch: Scale, planned: seq<nat>) {
    || (|planned| > 0 && !grow.fits(Backoff(cfg, grow, |planned| - 1)))
    || (TimeLeft(cfg, grow, stretch, planned) > 0 && !stretch.fits(NextSleep(cfg, grow, stretch, planned)))
  }

  datatype Pause = Slept | NoTimeLeft | TooLong

  /** The end of an iteration: sleep as long as the backoff and the time left allow, and grow the backoff. */
  method SleepOrGiveUp(
    cfg: LockConfig, grow: Scale, stretch: Scale, ghost deadline: nat, planned: seq<nat>, backoff: nat, elapsed: nat)
    returns (pause: Pause, planned': seq<nat>, backoff': nat, elapsed': nat)
    requires cfg.maxWait.Some? ==> StaysWithin(stretch.product, cfg.maxWait.value, deadline)
    requires Progress(cfg, grow, stretch, deadline, planned, backoff, elapsed)
    ensures pause == NoTimeLeft <==> TimeLeft(cfg, grow, stretch, planned) == 0
    ensures pause == NoTimeLeft ==> planned' == planned && elapsed' == elapsed
    ensures pause == Slept ==> |planned'| == |planned| + 1
    ensures pause == TooLong ==> |planned| <= |planned'| <= |planned| + 1 && Overflows(cfg, grow, stretch, planned')
    ensures pause != TooLong ==> Progress(cfg, grow, stretch, deadline, planned', backoff', elapsed')
    ensures Logged(cfg, grow, stretch, deadline, planned', elapsed') && planned <= planned'
    ensures GrowthFits(cfg, grow, |planned|)
  {
    planned', backoff', elapsed' := planned, backoff, elapsed;
    var remaining := Remaining(cfg, backoff, elapsed);
    if remaining == 0 { return NoTimeLeft, planned', backoff', elapsed'; }
    var sleepFor := Min(backoff, remaining);
    if !stretch.fits(sleepFor) { return TooLong, planned', backoff', elapsed'; }
    SleepIsLogged(cfg, grow, stretch, deadline, planned, elapsed, sleepFor);
    planned', elapsed' := planned + [sleepFor], elapsed + stretch.product(sleepFor);
    if !grow.fits(backoff) { return TooLong, planned', backoff', elapsed'; }
    backoff' := Min(grow.product(backoff), cfg.maxBackoff);
    pause := Slept;
  }

  /** How the call ended, or where it stands: the outcome, the attempts made and the sleeps in between. */
  ghost predicate Account(
    cfg: LockConfig, grow: Scale, stretch: Scale, attempts: nat -> Attempt,
    outcome: Outcome, acquisitions: nat, planned: seq<nat>) {
    && (cfg.maxAttempts.Some? ==> acquisitions <= cfg.maxAttempts.value)
    && AllBusy(attempts, acquisitions - 1)
    && (outcome == Guard <==> acquisitions > 0 && attempts(acquisitions - 1) == Acquired)
    && (outcome == Error <==> acquisitions > 0 && attempts(acquisitions - 1) == Failed)
    && (outcome == GaveUp ==> GivesUp(cfg, grow, stretch, acquisitions, planned))
    && (outcome == DurationOverflow ==> Overflows(cfg, grow, stretch, planned))
    && (outcome != DurationOverflow ==> GrowthFits(cfg, grow, |planned|))
    && acquisitions - 1 <= |planned| <= acquisitions
  }

  /** A busy attempt followed by a pause. */
  lemma PauseAccount(
    cfg: LockConfig, grow: Scale, stretch: Scale, attempts: nat -> Attempt, made: nat, planned: seq<nat>,
    pause: Pause, planned': seq<nat>)
    requires made == |planned| && AllBusy(attempts, made + 1) && (cfg.maxAttempts.Some? ==> made < cfg.maxAttempts.value)
    requires GrowthFits(cfg, grow, |planned|)
    requires pause == NoTimeLeft ==> planned' == planned && TimeLeft(cfg, grow, stretch, planned) == 0
    requires pause == Slept ==> |planned'| == |planned| + 1 && GrowthFits(cfg, grow, |planned'|)
    requires pause == TooLong ==> |planned| <= |planned'| <= |planned| + 1 && Overflows(cfg, grow, stretch, planned')
    ensures Account(cfg, grow, stretch, attempts, PauseOutcome(pause), made + 1, planned')
  {
  }

  function PauseOutcome(pause: Pause): Outcome {
    match pause
    case Slept => StillTrying
    case NoTimeLeft => GaveUp
    case TooLong => DurationOverflow
  }

  /** An attempt that ends the call. */
  lemma FinalAccount(
    cfg: LockConfig, grow: Scale, stretch: Scale, attempts: nat -> Attempt, made: nat, planned: seq<nat>)
    requires made == |planned| && AllBusy(attempts, made) && attempts(made) != Busy
    requires GrowthFits(cfg, grow, |planned|) && (cfg.maxAttempts.Some? ==> made < cfg.maxAttempts.value)
    ensures Account(cfg, grow, stretch, attempts, if attempts(made) == Acquired then Guard else Error, made + 1, planned)
  {
  }

  /** No attempt is made: a limit is reached. */
  lemma LimitAccount(
    cfg: LockConfig, grow: Scale, stretch: Scale, attempts: nat -> Attempt, made: nat, planned: seq<nat>)
    requires made == |planned| && AllBusy(attempts, made) && GrowthFits(cfg, grow, |planned|)
    requires cfg.maxAttempts.Some? ==> made <= cfg.maxAttempts.value
    requires cfg.maxAttempts == Some(made) || (cfg.maxWait.Some? && TimeLeft(cfg, grow, stretch, planned) == 0)
    ensures Account(cfg, grow, stretch, attempts, GaveUp, made, planned)
  {
  }

  /** One iteration: the limits, an attempt, a sleep. */
  method Iterate(
    cfg: LockConfig, grow: Scale, stretch: Scale, ghost deadline: nat, attempts: nat -> Attempt,
    made: nat, planned: seq<nat>, backoff: nat, elapsed: nat)
    returns (outcome: Outcome, made': nat, planned': seq<nat>, backoff': nat, elapsed': nat)
    requires cfg.Valid() && made < U32_MAX && made == |planned| && AllBusy(attempts, made)
    requires cfg.maxWait.Some? ==> StaysWithin(stretch.product, cfg.maxWait.value, deadline)
    requires Progress(cfg, grow, stretch, deadline, planned, backoff, elapsed)
    requires cfg.maxAttempts.Some? ==> made <= cfg.maxAttempts.value
    ensures Logged(cfg, grow, stretch, deadline, planned', elapsed')
    ensures made == 0 && made' == 0 ==> cfg.maxAttempts == Some(0) || cfg.maxWait == Some(0)
    ensures made <= made' <= made + 1
    ensures outcome == StillTrying ==> made' == made + 1 == |planned'| && AllBusy(attempts, made')
    ensures outcome == StillTrying ==> Progress(cfg, grow, stretch, deadline, planned', backoff', elapsed')
    ensures outcome != StillTrying && outcome != DurationOverflow ==> planned' == planned
    ensures outcome != CounterOverflow && Account(cfg, grow, stretch, attempts, outcome, made', planned')
  {
    made', planned', backoff', elapsed' := made, planned, backoff, elapsed;
    var attempt := made + 1;
    if (cfg.maxAttempts.Some? && attempt > cfg.maxAttempts.value) || (cfg.maxWait.Some? && elapsed >= cfg.maxWait.value) {
      LimitAccount(cfg, grow, stretch, attempts, made, planned);
      outcome := GaveUp;
      return;
    }
    var result := attempts(made);
    made' := attempt;
    if result != Busy {
      FinalAccount(cfg, grow, stretch, attempts, made, planned);
      outcome := if result == Acquired then Guard else Error;
      return;
    }
    var pause;
    pause, planned', backoff', elapsed' := SleepOrGiveUp(cfg, grow, stretch, deadline, planned, backoff, elapsed);
    PauseAccount(cfg, grow, stretch, attempts, made, planned, pause, planned');
    outcome := PauseOutcome(pause);
  }

  /**
   * Runs the loop for at most `budget` iterations, with time passing only in sleeps. `attempts` says how each
   * acquisition attempt turns out, `grow` and `stretch` are the multiplications of the backoff and of a sleep, and
   * `planned` logs the sleeps before they are stretched.
   */
  method RetryLoop(
    cfg: LockConfig, grow: Scale, stretch: Scale, ghost deadline: nat, attempts: nat -> Attempt, budget: nat)
    returns (outcome: Outcome, acquisitions: nat, elapsed: nat, planned: seq<nat>)
    requires cfg.Valid()
    requires cfg.maxWait.Some? ==> StaysWithin(stretch.product, cfg.maxWait.value, deadline)
    ensures Logged(cfg, grow, stretch, deadline, planned, elapsed)
    ensures Account(cfg, grow, stretch, attempts, outcome, acquisitions, planned)
    ensures outcome == StillTrying ==>
              acquisitions == budget == |planned| && (cfg.maxAttempts.Some? ==> budget <= cfg.maxAttempts.value)
    ensures outcome == CounterOverflow <==> |planned| == U32_MAX < budget && outcome != DurationOverflow
    ensures acquisitions == 0 ==> budget == 0 || cfg.maxAttempts == Some(0) || cfg.maxWait == Some(0)
  {
    var backoff := cfg.initialBackoff;
    acquisitions, elapsed, planned := 0, 0, [];
    while acquisitions < budget
      invariant acquisitions == |planned| <= budget && acquisitions <= U32_MAX && AllBusy(attempts, acquisitions)
      invariant Progress(cfg, grow, stretch, deadline, planned, backoff, elapsed)
      invariant cfg.maxAttempts.Some? ==> acquisitions <= cfg.maxAttempts.value
    {
      // The counter has the value of `acquisitions` here and is incremented first.
      if acquisitions == U32_MAX { outcome := CounterOverflow; return; }
      outcome, acquisitions, planned, backoff, elapsed :=
        Iterate(cfg, grow, stretch, deadline, attempts, acquisitions, planned, backoff, elapsed);
      if outcome != StillTrying { return; }
    }
    outcome := StillTrying;
  }

  // ---- The deadline ----

  lemma RealProductOrder(x: real, y: real, c: real)
    requires x <= y && 0.0 <= c
    ensures x * c <= y * c
  {
  }

  lemma SleepWithinLimit(sleep: real, limit: real, factor: real, pct: real)
    requires 0.0 <= sleep <= limit && factor <= 1.0 + pct && 0.0 <= pct
    ensures limit - sleep + sleep * factor <= (1.0 + pct) * limit
  {
    RealProductOrder(factor - 1.0, pct, sleep);
    RealProductOrder(sleep, limit, pct);
    assert (factor - 1.0) * sleep == sleep * factor - sleep;
    assert (1.0 + pct) * limit == limit + limit * pct;
  }

  /** The wait limit stretched by the full jitter, and half a nanosecond for the rounding of the last sleep. */
  ghost function ExactDeadline(cfg: LockConfig, limit: nat): real { (1.0 + Jitter(cfg)) * limit as real + 0.5 }

  /** The latest time, in whole nanoseconds, at which the call can still be running. */
  ghost function Deadline(cfg: LockConfig): nat {
    if cfg.maxWait.None? then 0
    else
      var d := ExactDeadline(cfg, cfg.maxWait.value).Floor;
      if d < 0 then 0 else d
  }

  lemma StretchedSleepWithin(cfg: LockConfig, stretch: Scale, factor: real, limit: nat, sleep: nat)
    requires 0.0 <= factor <= 1.0 + Jitter(cfg) && MultipliesAt(stretch, factor, sleep) && sleep <= limit
    ensures (limit - sleep + stretch.product(sleep)) as real <= ExactDeadline(cfg, limit)
  {
    SleepWithinLimit(sleep as real, limit as real, factor, Jitter(cfg));
    assert Times(sleep, factor) == sleep as real * factor;
  }

  /** Rounding counts once, however many sleeps there are: only the last one can pass the limit. */
  lemma RoundedStaysWithin(cfg: LockConfig, stretch: Scale, factor: real)
    requires 0.0 <= factor <= 1.0 + Jitter(cfg) && Multiplies(stretch, factor) && cfg.maxWait.Some?
    ensures StaysWithin(stretch.product, cfg.maxWait.value, Deadline(cfg))
    ensures Deadline(cfg) as real <= ExactDeadline(cfg, cfg.maxWait.value)
  {
    var limit := cfg.maxWait.value;
    forall sleep: nat | sleep <= limit ensures limit - sleep + stretch.product(sleep) <= Deadline(cfg) {
      assert MultipliesAt(stretch, factor, sleep);
      StretchedSleepWithin(cfg, stretch, factor, limit, sleep);
    }
    assert MultipliesAt(stretch, factor, 0);
    StretchedSleepWithin(cfg, stretch, factor, limit, 0);
  }

  /** The sleeps in plain words: the backoff, cut off at what is left of the limit, while something is left. */
  ghost predicate SleepsAsDue(cfg: LockConfig, grow: Scale, stretch: Scale, planned: seq<nat>) {
    forall k :: 0 <= k < |planned| ==>
      var used, backoff := Sum(stretch.product, planned[..k]), Backoff(cfg, grow, k);
      match cfg.maxWait
      case None => planned[k] == backoff > 0
      case Some(limit) => used < limit && planned[k] == if used + backoff <= limit then backoff else limit - used
  }

  lemma FollowingIsDue(cfg: LockConfig, grow: Scale, stretch: Scale, planned: seq<nat>)
    requires FollowsBackoff(cfg, grow, stretch, planned)
    ensures SleepsAsDue(cfg, grow, stretch, planned)
  {
    forall k | 0 <= k < |planned|
      ensures var used, backoff := Sum(stretch.product, planned[..k]), Backoff(cfg, grow, k);
              match cfg.maxWait
              case None => planned[k] == backoff > 0
              case Some(limit) => used < limit && planned[k] == if used + backoff <= limit then backoff else limit - used
    {
      assert SleepAt(cfg, grow, stretch, planned[..k], planned[k]);
    }
  }

  /**
   * The whole call, its jitter factor taken from the key's hash. It makes at most `maxAttempts` attempts, and if time
   * passes only in sleeps it is over by the wait limit stretched by the full jitter. Without a wait limit and with a
   * lasting backoff only used-up attempts make it give up.
   */
  method TryLock(
    cfg: LockConfig, frac: real, grow: Scale, stretch: Scale, attempts: nat -> Attempt, budget: nat)
    returns (outcome: Outcome, acquisitions: nat, elapsed: nat, planned: seq<nat>)
    requires cfg.Valid() && 0.0 <= frac <= 1.0
    requires Multiplies(grow, cfg.multiplier) && Multiplies(stretch, JitterFactor(cfg, frac))
    ensures Account(cfg, grow, stretch, attempts, outcome, acquisitions, planned)
    ensures cfg.maxWait.Some? ==> elapsed as real <= ExactDeadline(cfg, cfg.maxWait.value)
    ensures elapsed == Sum(stretch.product, planned) && FollowsBackoff(cfg, grow, stretch, planned)
    ensures SleepsAsDue(cfg, grow, stretch, planned)
    ensures outcome == GaveUp && cfg.maxWait.Some? && cfg.maxAttempts != Some(acquisitions) ==>
              elapsed >= cfg.maxWait.value
    ensures outcome == StillTrying ==>
              acquisitions == budget == |planned| && (cfg.maxAttempts.Some? ==> budget <= cfg.maxAttempts.value)
    ensures outcome == CounterOverflow <==> |planned| == U32_MAX < budget && outcome != DurationOverflow
    ensures outcome == GaveUp && cfg.maxWait.None? && cfg.multiplier >= 0.0 && Lasting(cfg, grow) ==>
              cfg.maxAttempts == Some(acquisitions)
    ensures outcome == StillTrying && cfg.maxWait.None? ==>
              forall k: nat :: k < budget ==> Backoff(cfg, grow, k) > 0
  {
    if cfg.maxWait.Some? { RoundedStaysWithin(cfg, stretch, JitterFactor(cfg, frac)); }
    outcome, acquisitions, elapsed, planned := RetryLoop(cfg, grow, stretch, Deadline(cfg), attempts, budget);
    if cfg.maxWait.None? && cfg.multiplier >= 0.0 && Lasting(cfg, grow) {
      UnlimitedGivesUpForAttempts(cfg, grow, stretch, acquisitions, planned);
    }
    SleepsAreNotEmpty(cfg, grow, stretch, planned);
    FollowingIsDue(cfg, grow, stretch, planned);
  }

  // ---- Giving up without a time limit ----

  /** With a lasting backoff the only reason to give up is that the attempts are used up. */
  lemma UnlimitedGivesUpForAttempts(cfg: LockConfig, grow: Scale, stretch: Scale, acquisitions: nat, planned: seq<nat>)
    requires Multiplies(grow, cfg.multiplier)
    requires cfg.maxWait.None? && cfg.multiplier >= 0.0 && Lasting(cfg, grow)
    ensures GivesUp(cfg, grow, stretch, acquisitions, planned) ==> cfg.maxAttempts == Some(acquisitions)
  {
    ProductIsRegular(grow, cfg.multiplier);
    BackoffLasts(cfg, grow, |planned|);
  }

  lemma SleepsAreNotEmpty(cfg: LockConfig, grow: Scale, stretch: Scale, planned: seq<nat>)
    requires FollowsBackoff(cfg, grow, stretch, planned)
    ensures cfg.maxWait.None? ==> forall k: nat :: k < |planned| ==> Backoff(cfg, grow, k) > 0
  {
    forall k: nat | k < |planned| && cfg.maxWait.None? ensures Backoff(cfg, grow, k) > 0 {
      assert SleepAt(cfg, grow, stretch, planned[..k], planned[k]);
    }
  }

  /** No product fails before the backoff with number `k` is reached. */
  ghost predicate ProductsFit(cfg: LockConfig, grow: Scale, stretch: Scale, k: nat) {
    forall i: nat :: i < k ==> grow.fits(Backoff(cfg, grow, i)) && stretch.fits(Backoff(cfg, grow, i))
  }

  /** The sleeps of a lock that stays busy, from `planned` on, until no time is left. */
  lemma SleepsUntilNoTimeLeft(cfg: LockConfig, grow: Scale, stretch: Scale, planned: seq<nat>, k: nat)
    returns (all: seq<nat>)
    requires cfg.maxWait.None? && |planned| <= k && Backoff(cfg, grow, k) == 0 && ProductsFit(cfg, grow, stretch, k)
    requires FollowsBackoff(cfg, grow, stretch, planned)
    ensures FollowsBackoff(cfg, grow, stretch, all) && |planned| <= |all| <= k && TimeLeft(cfg, grow, stretch, all) == 0
    decreases k - |planned|
  {
    all := planned;
    if TimeLeft(cfg, grow, stretch, planned) > 0 {
      var sleep := NextSleep(cfg, grow, stretch, planned);
      LogSleep(cfg, grow, stretch, planned, sleep);
      all := SleepsUntilNoTimeLeft(cfg, grow, stretch, planned + [sleep], k);
    }
  }

  /** A log of sleeps that the loop can make on a busy lock and after which it gives up. */
  ghost predicate EndsGivingUp(cfg: LockConfig, grow: Scale, stretch: Scale, planned: seq<nat>) {
    && FollowsBackoff(cfg, grow, stretch, planned) && GrowthFits(cfg, grow, |planned|)
    && TimeLeft(cfg, grow, stretch, planned) == 0
  }

  lemma NoTimeMeansZero(cfg: LockConfig, grow: Scale, stretch: Scale, planned: seq<nat>)
    requires cfg.maxWait.None? && EndsGivingUp(cfg, grow, stretch, planned)
    ensures Backoff(cfg, grow, |planned|) == 0 && ProductsFit(cfg, grow, stretch, |planned|)
  {
    forall i: nat | i < |planned| ensures stretch.fits(Backoff(cfg, grow, i)) {
      assert SleepAt(cfg, grow, stretch, planned[..i], planned[i]);
    }
  }

  /**
   * Without a time limit, the loop on a busy lock comes to a point where it gives up exactly when some backoff is zero
   * and no product fails before it; and if no product fails at all, exactly when the backoff does not last.
   */
  lemma UnlimitedGivesUpIff(cfg: LockConfig, grow: Scale, stretch: Scale)
    requires cfg.maxWait.None? && Multiplies(grow, cfg.multiplier)
    ensures (exists planned :: EndsGivingUp(cfg, grow, stretch, planned)) <==>
              exists k: nat :: Backoff(cfg, grow, k) == 0 && ProductsFit(cfg, grow, stretch, k)
    ensures cfg.multiplier >= 0.0 && (forall k: nat :: ProductsFit(cfg, grow, stretch, k)) ==>
              ((exists planned :: EndsGivingUp(cfg, grow, stretch, planned)) <==> !Lasting(cfg, grow))
  {
    forall planned | EndsGivingUp(cfg, grow, stretch, planned)
      ensures Backoff(cfg, grow, |planned|) == 0 && ProductsFit(cfg, grow, stretch, |planned|)
    {
      NoTimeMeansZero(cfg, grow, stretch, planned);
    }
    forall k: nat | Backoff(cfg, grow, k) == 0 && ProductsFit(cfg, grow, stretch, k)
      ensures exists planned :: EndsGivingUp(cfg, grow, stretch, planned)
    {
      var planned := SleepsUntilNoTimeLeft(cfg, grow, stretch, [], k);
      assert EndsGivingUp(cfg, grow, stretch, planned);
    }
    if cfg.multiplier >= 0.0 { BackoffVanishesIff(cfg, grow); }
  }

  /** With no time limit, a zero first backoff makes the first busy attempt the last one. */
  lemma ZeroBackoffGivesUp(cfg: LockConfig, grow: Scale, stretch: Scale, planned: seq<nat>)
    requires cfg.maxWait.None? && cfg.initialBackoff == 0 && FollowsBackoff(cfg, grow, stretch, planned)
    ensures planned == []
  {
    assert |planned| > 0 ==> SleepAt(cfg, grow, stretch, planned[..0], planned[0]);
  }

  /** A positive multiplier below one half: fifty milliseconds quartered again and again are nothing in the end. */
  lemma QuarteringGivesUp(cfg: LockConfig, grow: Scale)
    requires cfg.initialBackoff == 50_000_000 && cfg.maxBackoff == 5_000_000_000 && cfg.multiplier == 0.25
    requires Multiplies(grow, cfg.multiplier)
    ensures exists k: nat :: Backoff(cfg, grow, k) == 0
  {
    BackoffVanishesIff(cfg, grow);
  }
}
