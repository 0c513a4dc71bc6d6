/** Retry delays and policy defaults of internal/alerts/notifications.go.

    Durations are 64-bit nanosecond counts: every Go operation that could leave that range is
    wrapped explicitly, division and remainder truncate toward zero. */
module Backoff {
  import opened Units
  import opened Numbers

  const MAX_INT64 := 0x7FFF_FFFF_FFFF_FFFF
  const MIN_INT64 := -0x8000_0000_0000_0000

  const DEFAULT_ATTEMPTS := 5
  const DEFAULT_RETRY_DELAY := 30 * NANOS_PER_SECOND
  const DEFAULT_MAX_RETRY_DELAY := 30 * 60 * NANOS_PER_SECOND
  const DEFAULT_LEASE := 2 * 60 * NANOS_PER_SECOND
  const DEFAULT_BATCH_SIZE := 50

  predicate Fits(x: int) {
    MIN_INT64 <= x <= MAX_INT64
  }

  function Turns(k: int): int {
    k * TWO_TO_64
  }

  /** Two's-complement wrap-around of an arithmetic result. */
  method Wrap(x: int) returns (w: int)
    ensures Fits(w) && exists k :: w == x + Turns(k)
    ensures Fits(x) ==> w == x
  {
    w := (x - MIN_INT64) % TWO_TO_64 + MIN_INT64;
    assert w == x + Turns(-((x - MIN_INT64) / TWO_TO_64));
  }

  function Quotient(a: int, b: int): (q: int)
    requires b > 0
    ensures a >= 0 ==> 0 <= q
  {
    if a >= 0 then a / b else -((-a) / b)
  }

  function Remainder(a: int, b: int): (r: int)
    requires b > 0
    ensures a >= 0 ==> 0 <= r < b
    ensures a <= 0 ==> -b < r <= 0
  {
    if a >= 0 then a % b else -((-a) % b)
  }

  // ----- the ideal delay, over unbounded integers

  function EffectiveBase(base: int): int {
    if base <= 0 then DEFAULT_RETRY_DELAY else base
  }

  function EffectiveMaximum(base: int, maximum: int): int {
    if maximum < EffectiveBase(base) then DEFAULT_MAX_RETRY_DELAY else maximum
  }

  function Pow2(n: nat): (p: int)
    ensures p >= 1
  {
    if n == 0 then 1 else 2 * Pow2(n - 1)
  }

  /** The delay before jitter: the base doubled once per earlier attempt, capped. */
  function Exponential(base: int, attempt: int, maximum: int): int
    requires attempt >= 1
  {
    Min(base * Pow2(attempt - 1), maximum)
  }

  /** The jitter step, a value from -100 to 100 fixed by the delivery and the attempt. */
  function JitterStep(deliveryId: int, attempt: int): int {
    Remainder(deliveryId * 31 + attempt * 17, 201) - 100
  }

  function Clamp(x: int, low: int, high: int): int {
    if x < low then low else if x > high then high else x
  }

  function JitteredDelay(deliveryId: int, attempt: int, plain: int, base: int, maximum: int): int {
    if plain < 10 then plain
    else Clamp(plain + Quotient(JitterStep(deliveryId, attempt) * (plain / 10), 100), base, maximum)
  }

  /** The delay with jitter, as the formula reads without a word size. */
  function IdealDelay(deliveryId: int, attempt: int, base: int, maximum: int): int
    requires attempt >= 1
  {
    JitteredDelay(deliveryId, attempt, Exponential(base, attempt, maximum), base, maximum)
  }

  /** The delay after so many failures: between the bounds, and within a tenth of the base doubled for each earlier
      failure, capped, as long as the products fit a word. */
  predicate BackedOff(base: int, maximum: int, deliveryId: int, earlier: nat, delay: int) {
    && base <= delay <= maximum
    && (0 <= deliveryId && deliveryId * 31 + (earlier + 1) * 17 <= 0x7FFF_FFFF_FFFF_FFFF
        && maximum <= 0x7FFF_FFFF_FFFF_FFFF / 10 ==>
          var plain := if base * Pow2(earlier) <= maximum then base * Pow2(earlier) else maximum;
          plain - plain / 10 <= delay <= plain + plain / 10)
  }

  // ----- the code

  method Doubled(base: int, attempt: int, maximum: int) returns (delay: int)
    requires 0 < base && Fits(base) && Fits(attempt) && Fits(maximum)
    ensures attempt >= 1 ==> delay == Exponential(base, attempt, maximum)
    ensures attempt < 1 ==> delay == Min(base, maximum)
  {
    delay := base;
    var index := 1;
    while index < attempt && delay < maximum
      invariant 1 <= index && (index <= attempt || index == 1)
      invariant delay == base * Pow2(index - 1) && base <= delay
      invariant delay > maximum ==> index == 1
      decreases attempt - index
    {
      if delay > Quotient(maximum, 2) {
        Outgrown(base, index, attempt, maximum);
        return maximum;
      }
      assert Fits(delay * 2);
      delay := Wrap(delay * 2);
      index := index + 1;
    }
    if attempt >= 1 && index < attempt {
      Grows(base, index - 1, attempt - 1);
    }
    if delay > maximum {
      delay := maximum;
    }
  }

  lemma {:induction false} Grows(base: int, m: nat, n: nat)
    requires 0 < base && m <= n
    ensures base * Pow2(m) <= base * Pow2(n)
    decreases n - m
  {
    if m < n {
      Grows(base, m, n - 1);
      assert base * Pow2(n) == 2 * (base * Pow2(n - 1));
    }
  }

  lemma Outgrown(base: int, index: int, attempt: int, maximum: int)
    requires 0 < base && 1 <= index < attempt && base * Pow2(index - 1) > Quotient(maximum, 2)
    requires base * Pow2(index - 1) < maximum
    ensures Exponential(base, attempt, maximum) == maximum
  {
    Grows(base, index, attempt - 1);
    assert base * Pow2(index) == 2 * (base * Pow2(index - 1));
  }

  method RetryDelay(deliveryId: int, attempt: int, base: int, maximum: int) returns (result: int)
    requires Fits(deliveryId) && Fits(attempt) && Fits(base) && Fits(maximum)
    // Inside the bounds for every input, a wrapped jitter included, unless the default maximum undercuts the base.
    ensures var b, m := EffectiveBase(base), EffectiveMaximum(base, maximum);
            if b <= m then b <= result <= m else result == b || result == m
    // And exactly the formula whenever its products fit a word.
    ensures var b, m := EffectiveBase(base), EffectiveMaximum(base, maximum);
            attempt >= 1 && m <= MAX_INT64 / 10 && 0 <= deliveryId && deliveryId * 31 + attempt * 17 <= MAX_INT64 ==>
              result == IdealDelay(deliveryId, attempt, b, m)
    ensures 0 < base <= maximum && attempt >= 1 ==> BackedOff(base, maximum, deliveryId, attempt - 1, result)
  {
    var effectiveBase := if base <= 0 then DEFAULT_RETRY_DELAY else base;
    var effectiveMaximum := if maximum < effectiveBase then DEFAULT_MAX_RETRY_DELAY else maximum;
    var delay := Doubled(effectiveBase, attempt, effectiveMaximum);
    result := Jittered(deliveryId, attempt, delay, effectiveBase, effectiveMaximum);
    if 0 < base <= maximum && attempt >= 1 && deliveryId >= 0 {
      DelayNearExponential(deliveryId, attempt, base, maximum);
    }
  }

  /** Stable jitter of up to a tenth, then the bounds again. */
  method Jittered(deliveryId: int, attempt: int, plain: int, base: int, maximum: int) returns (result: int)
    requires Fits(deliveryId) && Fits(attempt) && 0 < plain <= maximum && 0 < base && Fits(maximum)
    ensures if base <= maximum then base <= result <= maximum || (result == plain < 10)
            else result == base || result == maximum || (result == plain < 10)
    ensures plain < 10 ==> result == plain
    ensures plain <= MAX_INT64 / 10 && 0 <= deliveryId && 1 <= attempt
            && deliveryId * 31 + attempt * 17 <= MAX_INT64 ==>
              result == JitteredDelay(deliveryId, attempt, plain, base, maximum)
  {
    var jitterRange := Quotient(plain, 10);
    if jitterRange <= 0 {
      return plain;
    }
    var scaledId := Wrap(deliveryId * 31);
    var scaledAttempt := Wrap(attempt * 17);
    var sum := Wrap(scaledId + scaledAttempt);
    var step := Remainder(sum, 201) - 100;
    var product := Wrap(step * jitterRange);
    var offset := Quotient(product, 100);
    if 0 <= deliveryId && 1 <= attempt && deliveryId * 31 + attempt * 17 <= MAX_INT64 && plain <= MAX_INT64 / 10 {
      ProductBound(step, jitterRange);
      OffsetBound(step * jitterRange, jitterRange, plain);
    }
    var delay := Wrap(plain + offset);
    if delay < base {
      return base;
    }
    if delay > maximum {
      return maximum;
    }
    return delay;
  }

  lemma ProductBound(step: int, range: int)
    requires -100 <= step <= 100 && 0 <= range
    ensures -100 * range <= step * range <= 100 * range
  {
  }

  /** The jitter product fits a word and moves the delay by at most a tenth. */
  lemma OffsetBound(product: int, range: int, plain: int)
    requires -100 * range <= product <= 100 * range && 0 <= range * 10 <= plain <= MAX_INT64 / 10
    ensures Fits(product) && -range <= Quotient(product, 100) <= range
    ensures Fits(plain + Quotient(product, 100))
  {
  }

  // ----- what the delay guarantees

  /** Within the configured bounds and within a tenth of the plain exponential delay. */
  lemma {:induction false} DelayNearExponential(deliveryId: int, attempt: int, base: int, maximum: int)
    requires 0 < base <= maximum && attempt >= 1 && deliveryId >= 0
    ensures var plain, delay := Exponential(base, attempt, maximum), IdealDelay(deliveryId, attempt, base, maximum);
            base <= delay <= maximum && plain - plain / 10 <= delay <= plain + plain / 10
  {
    Grows(base, 0, attempt - 1);
    var plain := Exponential(base, attempt, maximum);
    var step := JitterStep(deliveryId, attempt);
    ProductBound(step, plain / 10);
    QuotientBound(step * (plain / 10), plain / 10);
  }

  lemma QuotientBound(product: int, range: int)
    requires -100 * range <= product <= 100 * range
    ensures -range <= Quotient(product, 100) <= range
  {
  }

  /** The delay strictly grows from one attempt to the next while the doubled value still fits. */
  lemma {:induction false} DelayGrows(deliveryId: int, attempt: int, base: int, maximum: int)
    requires 0 < base <= maximum && attempt >= 1 && deliveryId >= 0
    requires 2 * Exponential(base, attempt, maximum) <= maximum
    ensures IdealDelay(deliveryId, attempt, base, maximum) < IdealDelay(deliveryId, attempt + 1, base, maximum)
  {
    DelayNearExponential(deliveryId, attempt, base, maximum);
    DelayNearExponential(deliveryId, attempt + 1, base, maximum);
    Grows(base, 0, attempt - 1);
    ExponentialDoubles(base, attempt, maximum);
  }

  lemma ExponentialDoubles(base: int, attempt: int, maximum: int)
    requires 0 < base <= maximum && attempt >= 1 && 2 * Exponential(base, attempt, maximum) <= maximum
    ensures 0 < Exponential(base, attempt, maximum)
    ensures Exponential(base, attempt + 1, maximum) == 2 * Exponential(base, attempt, maximum)
  {
    Grows(base, 0, attempt - 1);
    assert base * Pow2(0) == base;
    assert base * Pow2(attempt) == 2 * (base * Pow2(attempt - 1));
  }

  /** The exponential without powers: the base at first, then twice the delay before, never more than the maximum. */
  lemma ExponentialUnfolds(base: int, attempt: int, maximum: int)
    requires 0 < base <= maximum && attempt >= 1
    ensures Exponential(base, 1, maximum) == base
    ensures var twice := 2 * Exponential(base, attempt, maximum);
            Exponential(base, attempt + 1, maximum) == if twice <= maximum then twice else maximum
  {
    Grows(base, 0, attempt - 1);
    assert base * Pow2(0) == base;
    assert base * Pow2(attempt) == 2 * (base * Pow2(attempt - 1));
  }

  /** The jitter in plain arithmetic: a step from 0 to 200, where 100 is none, each a thousandth of the delay up or
      down, and then the bounds. */
  lemma {:induction false} JitterMeans(deliveryId: int, attempt: int, plain: int, base: int, maximum: int)
    requires 0 < base <= plain <= maximum && attempt >= 1 && deliveryId >= 0
    ensures var step, delay := (deliveryId * 31 + attempt * 17) % 201,
                               JitteredDelay(deliveryId, attempt, plain, base, maximum);
            if plain < 10 then delay == plain
            else if step >= 100 then
              var up := plain + (step - 100) * (plain / 10) / 100;
              plain <= delay && delay == if up <= maximum then up else maximum
            else
              var down := plain - (100 - step) * (plain / 10) / 100;
              delay <= plain && delay == if down >= base then down else base
  {
    var step := (deliveryId * 31 + attempt * 17) % 201;
    assert JitterStep(deliveryId, attempt) == step - 100;
    if step >= 100 {
      ProductUp(step - 100, plain / 10);
    } else {
      ProductUp(100 - step, plain / 10);
      assert (step - 100) * (plain / 10) == -((100 - step) * (plain / 10));
    }
  }

  lemma ProductUp(a: int, b: int)
    requires 0 <= a && 0 <= b
    ensures 0 <= a * b
  {
  }

  /** The delay after the first failure: the base, and up to a tenth more when the jitter goes up. */
  lemma {:induction false} FirstDelay(deliveryId: int, base: int, maximum: int)
    requires 0 < base <= maximum && deliveryId >= 0
    ensures var step, delay := (deliveryId * 31 + 17) % 201, IdealDelay(deliveryId, 1, base, maximum);
            if base < 10 || step <= 100 then delay == base
            else
              var up := base + (step - 100) * (base / 10) / 100;
              base <= delay && delay == if up <= maximum then up else maximum
  {
    ExponentialUnfolds(base, 1, maximum);
    JitterMeans(deliveryId, 1, base, base, maximum);
    var step := (deliveryId * 31 + 17) % 201;
    if step < 100 {
      ProductUp(100 - step, base / 10);
    }
  }

  /** Delays that are not positive mean half a minute, and a maximum below the base half an hour. */
  lemma DefaultBounds(base: int, maximum: int)
    ensures EffectiveBase(base) == if base > 0 then base else 30_000_000_000
    ensures EffectiveMaximum(base, maximum) ==
            if maximum >= EffectiveBase(base) then maximum else 1_800_000_000_000
  {
  }

  // ----- policy defaults

  datatype Policy = Policy(workerId: string, maxAttempts: int, baseRetryDelay: int, maxRetryDelay: int,
                           leaseDuration: int, batchSize: int)

  /** A policy whose worker id is blank after trimming gets a default id; trim is the caller's. */
  function Normalized(p: Policy, trim: string -> string): Policy {
    var base := if p.baseRetryDelay <= 0 then DEFAULT_RETRY_DELAY else p.baseRetryDelay;
    var batch := if p.batchSize <= 0 then DEFAULT_BATCH_SIZE else p.batchSize;
    Policy(
      if trim(p.workerId) == "" then "notification-worker" else p.workerId,
      if p.maxAttempts <= 0 then DEFAULT_ATTEMPTS else p.maxAttempts,
      base,
      if p.maxRetryDelay < base then DEFAULT_MAX_RETRY_DELAY else p.maxRetryDelay,
      if p.leaseDuration <= 0 then DEFAULT_LEASE else p.leaseDuration,
      if batch > 500 then 500 else batch)
  }

  /** What every dispatched batch can rely on. The two retry bounds come out ordered exactly unless
      the base exceeds both the given maximum and the default one. */
  lemma {:induction false} NormalizedIsUsable(p: Policy, trim: string -> string)
    requires trim("notification-worker") != ""
    ensures
      var q := Normalized(p, trim);
      && trim(q.workerId) != "" && q.maxAttempts >= 1 && q.baseRetryDelay > 0 && q.leaseDuration > 0
      && 1 <= q.batchSize <= 500
      && Normalized(q, trim) == q
      && (q.baseRetryDelay <= q.maxRetryDelay <==>
            !(p.baseRetryDelay > p.maxRetryDelay && p.baseRetryDelay > 1_800_000_000_000))
    // A setting that is usable is kept; the others become 5 attempts, half a minute, half an hour, two minutes, 50.
    ensures
      var q := Normalized(p, trim);
      && q.maxAttempts == (if p.maxAttempts >= 1 then p.maxAttempts else 5)
      && q.baseRetryDelay == (if p.baseRetryDelay >= 1 then p.baseRetryDelay else 30_000_000_000)
      && q.maxRetryDelay == (if p.maxRetryDelay >= q.baseRetryDelay then p.maxRetryDelay else 1_800_000_000_000)
      && q.leaseDuration == (if p.leaseDuration >= 1 then p.leaseDuration else 120_000_000_000)
      && q.batchSize == (if p.batchSize > 500 then 500 else if p.batchSize >= 1 then p.batchSize else 50)
      && q.workerId == (if trim(p.workerId) != "" then p.workerId else "notification-worker")
  {
  }
}
