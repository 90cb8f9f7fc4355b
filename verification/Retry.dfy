/** Attempt caps and backoff: the bounds the executor relies on. */
module Retry {
  import opened Basics

  const MODEL_ATTEMPTS: nat := 3
  const RETRY_AFTER_CAP_MS := 30_000

  datatype Category = Retryable | NonRetryable | RateLimited

  /** A provider error: its category, and the seconds of a Retry-After it mentions. */
  datatype ProviderError = ProviderError(category: Category, retryAfterSeconds: Option<nat>)

  /** maxRetries is None when it is undefined or not finite. */
  datatype Config = Config(maxRetries: Option<real>, baseBackoffMs: int, maxBackoffMs: int)

  function BoundedModelAttempts(value: Option<real>): (n: nat)
    ensures 1 <= n <= 3
    ensures value.Some? && 1.0 <= value.value && value.value < 4.0 ==>
              n as real <= value.value < n as real + 1.0
    ensures value.None? || value.value >= 4.0 ==> n == 3
    ensures value.Some? && value.value < 1.0 ==> n == 1
  {
    match value
    case None => MODEL_ATTEMPTS
    case Some(v) =>
      var floored := if v.Floor >= 1 then v.Floor else 1;
      if floored <= MODEL_ATTEMPTS then floored else MODEL_ATTEMPTS
  }

  function GetRetryConfig(config: Config): Config {
    config.(maxRetries := Some(BoundedModelAttempts(config.maxRetries) as real))
  }

  /** Clamping a second time, as shouldRetry and generate both do, changes nothing. */
  lemma ClampIdempotent(config: Config)
    ensures GetRetryConfig(GetRetryConfig(config)) == GetRetryConfig(config)
  {
    var n := BoundedModelAttempts(config.maxRetries);
    assert (n as real).Floor == n;
  }

  function Cap(config: Config): nat {
    BoundedModelAttempts(GetRetryConfig(config).maxRetries)
  }

  predicate ShouldRetry(category: Category, attempt: nat, config: Config) {
    !category.NonRetryable? && attempt < Cap(config)
  }

  function Min(a: int, b: int): (m: int)
    ensures m <= a && m <= b && m in {a, b}
  {
    if a <= b then a else b
  }

  function Max(a: int, b: int): (m: int)
    ensures m >= a && m >= b && m in {a, b}
  {
    if a >= b then a else b
  }

  function Power2(n: nat): (p: nat)
    ensures p >= 1
  {
    if n == 0 then 1 else 2 * Power2(n - 1)
  }

  function ExponentialBackoffMs(attempt: nat, baseMs: int, maxMs: int): int {
    Min(baseMs * Power2(Max(0, attempt - 1)), maxMs)
  }

  /** A Retry-After in seconds, at most 30 s; without one, doubling from the base up to the maximum. */
  function GetBackoffMs(attempt: nat, error: ProviderError, config: Config): (ms: int)
    ensures error.retryAfterSeconds.Some? ==>
              ms == Min(1000 * error.retryAfterSeconds.value, 30_000)
    ensures error.retryAfterSeconds.None? && attempt <= 1 ==> ms == Min(config.baseBackoffMs, config.maxBackoffMs)
    ensures ms <= Max(30_000, config.maxBackoffMs)
    ensures config.baseBackoffMs >= 0 && config.maxBackoffMs >= 0 ==> ms >= 0
  {
    match error.retryAfterSeconds
    case Some(seconds) => Min(seconds * 1000, RETRY_AFTER_CAP_MS)
    case None =>
      var ms := ExponentialBackoffMs(attempt, config.baseBackoffMs, config.maxBackoffMs);
      assert config.baseBackoffMs >= 0 ==> config.baseBackoffMs * Power2(Max(0, attempt - 1)) >= 0;
      ms
  }

  /** Without a Retry-After each backoff is twice the one before it, until the maximum is reached. */
  lemma BackoffDoubles(attempt: nat, category: Category, config: Config)
    requires attempt >= 1 && config.baseBackoffMs >= 0 && config.maxBackoffMs >= 0
    ensures var error := ProviderError(category, None);
      GetBackoffMs(attempt + 1, error, config)
      == Min(2 * GetBackoffMs(attempt, error, config), config.maxBackoffMs)
  {
    var p := Power2(attempt - 1);
    assert Power2(attempt) == 2 * p;
    assert config.baseBackoffMs * (2 * p) == 2 * (config.baseBackoffMs * p);
    assert config.baseBackoffMs * p >= 0;
  }
}
