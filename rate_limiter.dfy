/** `rate_limiter.py`: the request pacer shared by the data sources.

    Python floats are modelled as reals (no rounding, no overflow). The
    monotonic clock reading and the random jitter draw are parameters of
    `Wait`; the lock and the sleep itself are not modelled. */
module RateLimiting {

  datatype RateLimitConfig = RateLimitConfig(
    requestsPerSecond: real,
    jitterMin: real,
    jitterMax: real,
    backoffBase: real,
    backoffMax: real)

  /** The dataclass defaults. */
  const DefaultRateLimit := RateLimitConfig(2.0, 0.2, 0.6, 1.5, 30.0)

  function Min(a: real, b: real): real { if a <= b then a else b }
  function Max(a: real, b: real): real { if a >= b then a else b }

  /** `base ** k` for a whole exponent. */
  function Power(base: real, k: nat): real
    decreases k
  {
    if k == 0 then 1.0 else base * Power(base, k - 1)
  }

  lemma {:induction false} PowerAtLeastOne(base: real, k: nat)
    requires base >= 1.0
    ensures Power(base, k) >= 1.0
    decreases k
  {
    if k > 0 {
      PowerAtLeastOne(base, k - 1);
    }
  }

  /** With a base of at least 1, a larger exponent never gives a smaller power. */
  lemma {:induction false} PowerMonotone(base: real, j: nat, k: nat)
    requires base >= 1.0 && j <= k
    ensures Power(base, j) <= Power(base, k)
    decreases k - j
  {
    if j < k {
      PowerMonotone(base, j, k - 1);
      PowerAtLeastOne(base, k - 1);
      assert Power(base, k) == base * Power(base, k - 1);
      assert base * Power(base, k - 1) >= Power(base, k - 1);
    }
  }

  /** `backoff(attempt)`: `backoff_base ** max(1, attempt)`, capped at `backoff_max`. */
  function Backoff(config: RateLimitConfig, attempt: int): (delay: real)
    ensures delay <= config.backoffMax
    ensures delay == config.backoffMax || delay == Power(config.backoffBase, if attempt < 1 then 1 else attempt)
  {
    var k: nat := if attempt < 1 then 1 else attempt;
    Min(Power(config.backoffBase, k), config.backoffMax)
  }

  /** Attempts 1 and below all wait `min(base, max)`. */
  lemma BackoffFirstAttempt(config: RateLimitConfig, attempt: int)
    requires attempt <= 1
    ensures Backoff(config, attempt) == Min(config.backoffBase, config.backoffMax)
  {
    assert Power(config.backoffBase, 0) == 1.0;
    assert Power(config.backoffBase, 1) == config.backoffBase;
  }

  /** With a base of at least 1, later attempts never wait less. */
  lemma BackoffMonotone(config: RateLimitConfig, a: int, b: int)
    requires config.backoffBase >= 1.0 && a <= b
    ensures Backoff(config, a) <= Backoff(config, b)
  {
    var j: nat := if a < 1 then 1 else a;
    var k: nat := if b < 1 then 1 else b;
    PowerMonotone(config.backoffBase, j, k);
  }

  /** With a base of at least 1 and a non-negative cap, the delay is never negative. */
  lemma BackoffNonNegative(config: RateLimitConfig, attempt: int)
    requires config.backoffBase >= 1.0 && config.backoffMax >= 0.0
    ensures Backoff(config, attempt) >= 0.0
  {
    var k: nat := if attempt < 1 then 1 else attempt;
    PowerAtLeastOne(config.backoffBase, k);
  }

  /** The spacing `wait` enforces: `1 / requests_per_second`, or none when the
      rate is not positive. */
  function MinInterval(config: RateLimitConfig): (interval: real)
    ensures config.requestsPerSecond > 0.0 ==> interval * config.requestsPerSecond == 1.0
    ensures config.requestsPerSecond <= 0.0 ==> interval == 0.0
    ensures interval >= 0.0
  {
    if config.requestsPerSecond > 0.0 then 1.0 / config.requestsPerSecond else 0.0
  }

  /** A value `random.uniform(jitter_min, jitter_max)` can return. */
  predicate JitterDraw(config: RateLimitConfig, jitter: real) {
    Min(config.jitterMin, config.jitterMax) <= jitter <= Max(config.jitterMin, config.jitterMax)
  }

  /** How long `wait` sleeps, given the previous slot, the clock and the jitter draw. */
  function SleepFor(config: RateLimitConfig, last: real, now: real, jitter: real): (sleep: real)
    ensures config.jitterMax <= 0.0 ==> sleep == Max(0.0, last + MinInterval(config) - now)
    ensures config.jitterMax > 0.0 ==> sleep == Max(0.0, last + MinInterval(config) - now) + jitter
  {
    var wait := Max(0.0, last + MinInterval(config) - now);
    if config.jitterMax > 0.0 then wait + jitter else wait
  }

  /** The slot a call to `wait` claims: never before the clock reading, and at
      least one minimum interval after the previous slot, whenever the jitter
      drawn is not negative (which a validated configuration guarantees). */
  lemma SlotSpacing(config: RateLimitConfig, last: real, now: real, jitter: real)
    requires config.jitterMax <= 0.0 || jitter >= 0.0
    ensures SleepFor(config, last, now, jitter) >= 0.0
    ensures now + SleepFor(config, last, now, jitter) >= now
    ensures now + SleepFor(config, last, now, jitter) >= last + MinInterval(config)
  {
  }

  /** Without jitter a caller arriving after its slot does not sleep at all. */
  lemma NoSleepWhenDue(config: RateLimitConfig, last: real, now: real, jitter: real)
    requires config.jitterMax <= 0.0 && now >= last + MinInterval(config)
    ensures SleepFor(config, last, now, jitter) == 0.0
  {
  }

  class RateLimiter {
    const config: RateLimitConfig
    var lastTs: real

    constructor (config: RateLimitConfig)
      ensures this.config == config && lastTs == 0.0
    {
      this.config := config;
      lastTs := 0.0;
    }

    /** `wait()`: computes the sleep and records the end of it as the new slot.
        `now` is the monotonic clock reading and `jitter` the uniform draw,
        used only when `jitter_max > 0`. */
    method Wait(now: real, jitter: real) returns (sleep: real)
      requires JitterDraw(config, jitter)
      modifies this
      ensures sleep == SleepFor(config, old(lastTs), now, jitter)
      ensures lastTs == now + sleep
    {
      var minInterval := 0.0;
      if config.requestsPerSecond > 0.0 {
        minInterval := 1.0 / config.requestsPerSecond;
      }
      var nextAllowed := lastTs + minInterval;
      sleep := Max(0.0, nextAllowed - now);
      if config.jitterMax > 0.0 {
        sleep := sleep + jitter;
      }
      lastTs := now + sleep;
    }
  }
}
