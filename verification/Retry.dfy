/** The worker's retry decision and backoff. Durations are nanoseconds; floating point is modelled
    by exact reals. */
module Retry {
  import opened Api
  import opened Options

  function Pow(c: real, n: nat): real {
    if n == 0 then 1.0 else c * Pow(c, n - 1)
  }

  /** `math.Pow` with an integer exponent. */
  function PowInt(c: real, n: int): real
    requires c > 0.0
  {
    if n >= 0 then Pow(c, n) else 1.0 / PowPositive(c, -n)
  }

  function PowPositive(c: real, n: nat): (r: real)
    requires c > 0.0
    ensures r == Pow(c, n) && r > 0.0
  {
    if n == 0 then 1.0 else c * PowPositive(c, n - 1)
  }

  predicate InInt64(x: real) {
    -(TWO_TO_63 as real) <= x < TWO_TO_63 as real
  }

  function Truncate(x: real): int {
    if x >= 0.0 then x.Floor else -(-x).Floor
  }

  /** Converting a float64 to int64 truncates when the value fits. Otherwise Go leaves the result
      to the implementation: here it is the parameter `outOfRange`. */
  function ToInt64(x: real, outOfRange: int): int {
    if InInt64(x) then Truncate(x) else outOfRange
  }

  function Min(a: int, b: int): int { if a <= b then a else b }
  function MinReal(a: real, b: real): real { if a <= b then a else b }

  function Scale(d: Duration, growth: real): real { d as real * growth }

  function InitialInterval(p: RetryPolicy): Duration {
    var d := WrapInt64(p.initialIntervalMs * MILLISECOND);
    if d == 0 then SECOND else d
  }

  function Coefficient(p: RetryPolicy): (c: real)
    ensures c > 0.0
  {
    if p.backoffCoefficient <= 0.0 then 2.0 else p.backoffCoefficient
  }

  function MaximumInterval(p: RetryPolicy): Duration {
    var d := WrapInt64(p.maximumIntervalMs * MILLISECOND);
    if d == 0 then WrapInt64(100 * InitialInterval(p)) else d
  }

  /** The uncapped backoff before it is converted to a duration. */
  function Backoff(p: RetryPolicy, attempt: int): real {
    Scale(InitialInterval(p), PowInt(Coefficient(p), WrapInt32(attempt - 1)))
  }

  function RetryDelay(task: ActivityTask, outOfRange: int): (delay: Duration)
    ensures task.policy.None? ==> delay == SECOND
  {
    match task.policy
    case None => SECOND
    case Some(p) => Min(ToInt64(Backoff(p, task.attempt), outOfRange), MaximumInterval(p))
  }

  /** Whether a failed attempt is retried. The schedule-to-close field is compared as a duration in
      milliseconds since `scheduledAtMs`. */
  predicate ShouldRetry(task: ActivityTask, error: string, nowMs: int, outOfRange: int) {
    match task.policy
    case None => false
    case Some(p) =>
      && !(p.maximumAttempts > 0 && task.attempt >= p.maximumAttempts)
      && error !in p.nonRetryableErrors
      && !(task.scheduleToClose > 0
           && nowMs - task.scheduledAtMs + Milliseconds(RetryDelay(task, outOfRange)) > task.scheduleToClose)
  }

  // ---------------------------------------------------------------------------------------------
  // Arithmetic
  // ---------------------------------------------------------------------------------------------

  lemma {:induction false} PowAtLeastOne(c: real, n: nat)
    requires c >= 1.0
    ensures Pow(c, n) >= 1.0
  {
    if n > 0 {
      PowAtLeastOne(c, n - 1);
    }
  }

  lemma {:induction false} PowMonotone(c: real, m: nat, n: nat)
    requires c >= 1.0 && m <= n
    ensures Pow(c, m) <= Pow(c, n)
  {
    if m < n {
      PowMonotone(c, m, n - 1);
      PowAtLeastOne(c, n - 1);
    }
  }

  lemma {:induction false} ScaleMonotone(k: real, x: real, y: real)
    requires k >= 0.0 && x <= y
    ensures k * x <= k * y
  {
  }

  // ---------------------------------------------------------------------------------------------
  // Backoff
  // ---------------------------------------------------------------------------------------------

  /** A policy whose durations survive the conversion to milliseconds and back. */
  ghost predicate Sane(p: RetryPolicy) {
    && p.initialIntervalMs >= 0 && p.maximumIntervalMs >= 0
    && p.initialIntervalMs * MILLISECOND < TWO_TO_63 && p.maximumIntervalMs * MILLISECOND < TWO_TO_63
    && (p.maximumIntervalMs == 0 ==> 100 * InitialInterval(p) < TWO_TO_63)
    && Coefficient(p) >= 1.0
  }

  lemma {:induction false} SaneIntervals(p: RetryPolicy)
    requires Sane(p)
    ensures MILLISECOND <= InitialInterval(p) < TWO_TO_63
    ensures MILLISECOND <= MaximumInterval(p) < TWO_TO_63
    ensures InitialInterval(p) == if p.initialIntervalMs == 0 then SECOND else p.initialIntervalMs * MILLISECOND
    ensures MaximumInterval(p)
         == if p.maximumIntervalMs == 0 then 100 * InitialInterval(p) else p.maximumIntervalMs * MILLISECOND
  {
  }

  lemma {:induction false} BackoffBounds(p: RetryPolicy, attempt: int)
    requires Sane(p) && 1 <= attempt < 0x8000_0000
    ensures Backoff(p, attempt) == Scale(InitialInterval(p), Pow(Coefficient(p), attempt - 1))
    ensures Backoff(p, attempt) >= InitialInterval(p) as real
  {
    SaneIntervals(p);
    PowAtLeastOne(Coefficient(p), attempt - 1);
    ScaleMonotone(InitialInterval(p) as real, 1.0, Pow(Coefficient(p), attempt - 1));
  }

  /** Any positive coefficient is used as it is, also one below 1; every other becomes 2. */
  lemma {:induction false} BackoffIsExponential(p: RetryPolicy, attempt: int)
    requires 1 <= attempt < 0x8000_0000
    ensures p.backoffCoefficient > 0.0 ==>
      Backoff(p, attempt) == InitialInterval(p) as real * Pow(p.backoffCoefficient, attempt - 1)
    ensures p.backoffCoefficient <= 0.0 ==> Backoff(p, attempt) == InitialInterval(p) as real * Pow(2.0, attempt - 1)
  {
    hide Pow, InitialInterval;
  }

  lemma {:induction false} PowShrinks(c: real, m: nat, n: nat)
    requires 0.0 < c < 1.0 && m <= n
    ensures 0.0 < Pow(c, n) <= Pow(c, m)
  {
    if m < n {
      PowShrinks(c, m, n - 1);
      ScaleMonotone(Pow(c, n - 1), c, 1.0);
    } else if n > 0 {
      PowShrinks(c, n - 1, n - 1);
    }
  }

  /** With a coefficient between 0 and 1 the code accepts what its documentation rules out: the backoff
      shrinks from attempt to attempt. */
  lemma {:induction false} BackoffShrinks(p: RetryPolicy, m: int, n: int)
    requires 0.0 < p.backoffCoefficient < 1.0 && InitialInterval(p) >= 0 && 1 <= m <= n < 0x8000_0000
    ensures 0.0 <= Backoff(p, n) <= Backoff(p, m) <= InitialInterval(p) as real
  {
    hide Pow, Backoff, InitialInterval;
    var c := p.backoffCoefficient;
    BackoffIsExponential(p, m);
    BackoffIsExponential(p, n);
    PowShrinks(c, m - 1, n - 1);
    PowShrinks(c, 0, m - 1);
    PowZero(c);
    ScaleMonotone(InitialInterval(p) as real, Pow(c, n - 1), Pow(c, m - 1));
    ScaleMonotone(InitialInterval(p) as real, Pow(c, m - 1), 1.0);
    ScaleMonotone(InitialInterval(p) as real, 0.0, Pow(c, n - 1));
  }

  lemma {:induction false} PowZero(c: real)
    ensures Pow(c, 0) == 1.0
  {
  }

  lemma {:induction false} BackoffMonotone(p: RetryPolicy, m: int, n: int)
    requires Sane(p) && 1 <= m <= n < 0x8000_0000
    ensures Backoff(p, m) <= Backoff(p, n)
  {
    hide Pow, Backoff, InitialInterval, MaximumInterval, Coefficient;
    SaneIntervals(p);
    BackoffBounds(p, m);
    BackoffBounds(p, n);
    PowMonotone(Coefficient(p), m - 1, n - 1);
    ScaleMonotone(InitialInterval(p) as real, Pow(Coefficient(p), m - 1), Pow(Coefficient(p), n - 1));
  }

  /** Exactly when the delay respects its bounds whatever the platform does: as long as the
      uncapped product fits an int64. */
  lemma {:induction false} DelayBoundedIffInRange(p: RetryPolicy, task: ActivityTask)
    requires Sane(p) && task.policy == Some(p) && 1 <= task.attempt < 0x8000_0000
    ensures InInt64(Backoff(p, task.attempt))
      <==> forall outOfRange ::
        Min(InitialInterval(p), MaximumInterval(p)) <= RetryDelay(task, outOfRange) <= MaximumInterval(p)
  {
    SaneIntervals(p);
    BackoffBounds(p, task.attempt);
    if !InInt64(Backoff(p, task.attempt)) {
      assert RetryDelay(task, -1) == -1;
    }
  }

  /** Under the same condition the delay never shrinks from one attempt to a later one, and stays
      at the maximum once it has reached it. */
  lemma {:induction false} DelayMonotone(p: RetryPolicy, t1: ActivityTask, t2: ActivityTask, outOfRange: int)
    requires Sane(p) && t1.policy == t2.policy == Some(p)
    requires 1 <= t1.attempt <= t2.attempt < 0x8000_0000 && InInt64(Backoff(p, t2.attempt))
    ensures RetryDelay(t1, outOfRange) <= RetryDelay(t2, outOfRange)
    ensures RetryDelay(t1, outOfRange) == MaximumInterval(p) ==> RetryDelay(t2, outOfRange) == MaximumInterval(p)
  {
    SaneIntervals(p);
    BackoffBounds(p, t1.attempt);
    BackoffBounds(p, t2.attempt);
    BackoffMonotone(p, t1.attempt, t2.attempt);
  }

  /** The default policy: one second, doubling, capped at a hundred seconds. The cap binds exactly
      from attempt 8, and the product fits an int64 exactly up to attempt 34. */
  lemma {:induction false} DefaultPolicyShape(p: RetryPolicy, task: ActivityTask)
    requires p.initialIntervalMs == p.maximumIntervalMs == 0 && p.backoffCoefficient == 0.0
    requires task.policy == Some(p) && 1 <= task.attempt < 0x8000_0000
    ensures InInt64(Backoff(p, task.attempt)) <==> task.attempt <= 34
    ensures task.attempt <= 34 ==> forall outOfRange ::
      RetryDelay(task, outOfRange) == 100 * SECOND <==> task.attempt >= 8
  {
    var attempt := task.attempt;
    SaneIntervals(p);
    BackoffBounds(p, attempt);
    DoublingValues();
    if attempt <= 7 {
      PowMonotone(2.0, attempt - 1, 6);
    } else if attempt <= 34 {
      PowMonotone(2.0, 7, attempt - 1);
      PowMonotone(2.0, attempt - 1, 33);
    } else {
      PowMonotone(2.0, 34, attempt - 1);
    }
  }

  lemma {:induction false} DoublingValues()
    ensures Pow(2.0, 6) == 64.0 && Pow(2.0, 7) == 128.0
    ensures Pow(2.0, 33) == 8589934592.0 && Pow(2.0, 34) == 17179869184.0
  {
    assert Pow(2.0, 12) == 4096.0;
    assert Pow(2.0, 20) == 1048576.0;
    assert Pow(2.0, 28) == 268435456.0;
  }

  /** The delay a retry is actually held back: the duration is sent in milliseconds. */
  function SleptNs(task: ActivityTask, outOfRange: int): Duration {
    Milliseconds(RetryDelay(task, outOfRange)) * MILLISECOND
  }

  /** The backoff the options ask for, in exact arithmetic. */
  function IdealDelay(o: RetryOptions, growth: real): real {
    MinReal(Scale(o.initialInterval, growth), o.maximumInterval as real)
  }

  /** Through all four truncations, the delay slept never exceeds the ideal one and falls short of
      it by less than coefficient^(attempt-1) + 1 milliseconds. */
  lemma {:induction false} BackoffError(o: RetryOptions, task: ActivityTask, outOfRange: int)
    requires MILLISECOND <= o.initialInterval < TWO_TO_63 && MILLISECOND <= o.maximumInterval < TWO_TO_63
    requires o.backoffCoefficient >= 1.0 && task.policy == ConvertRetryPolicy(Some(o))
    requires 1 <= task.attempt < 0x8000_0000 && InInt64(Backoff(task.policy.value, task.attempt))
    ensures var growth := Pow(o.backoffCoefficient, task.attempt - 1);
      var slept := SleptNs(task, outOfRange) as real;
      slept <= IdealDelay(o, growth) < slept + (growth + 1.0) * (MILLISECOND as real)
  {
    var p := task.policy.value;
    ConversionError(o);
    hide Scale;
    hide Pow;
    hide Backoff;
    hide RetryDelay;
    hide InitialInterval;
    hide MaximumInterval;
    BackoffBounds(p, task.attempt);
    PowAtLeastOne(o.backoffCoefficient, task.attempt - 1);
    DelayInRange(p, task, outOfRange);
    FloorToMillisecond(RetryDelay(task, outOfRange));
    Shortfall(o, InitialInterval(p), MaximumInterval(p), Pow(o.backoffCoefficient, task.attempt - 1),
              RetryDelay(task, outOfRange), SleptNs(task, outOfRange));
  }

  lemma {:induction false} ConversionError(o: RetryOptions)
    requires MILLISECOND <= o.initialInterval < TWO_TO_63 && MILLISECOND <= o.maximumInterval < TWO_TO_63
    requires o.backoffCoefficient >= 1.0
    ensures var p := ConvertRetryPolicy(Some(o)).value;
      && Sane(p) && Coefficient(p) == o.backoffCoefficient
      && InitialInterval(p) <= o.initialInterval < InitialInterval(p) + MILLISECOND
      && MaximumInterval(p) <= o.maximumInterval < MaximumInterval(p) + MILLISECOND
      && MaximumInterval(p) % MILLISECOND == 0
  {
    FloorToMillisecond(o.initialInterval);
    FloorToMillisecond(o.maximumInterval);
  }

  lemma {:induction false} Shortfall(o: RetryOptions, initial: int, cap: int, growth: real, delay: int, slept: int)
    requires growth >= 1.0 && initial <= o.initialInterval < initial + MILLISECOND
    requires cap <= o.maximumInterval < cap + MILLISECOND && cap % MILLISECOND == 0
    requires delay == Min(Scale(initial, growth).Floor, cap)
    requires slept <= delay < slept + MILLISECOND && (delay % MILLISECOND == 0 ==> slept == delay)
    ensures slept as real <= IdealDelay(o, growth) < slept as real + (growth + 1.0) * (MILLISECOND as real)
  {
    hide Scale;
    ScaleError(o.initialInterval, initial, growth);
    ShortfallInReals(Scale(o.initialInterval, growth), Scale(initial, growth), growth,
                     o.maximumInterval, cap, delay, slept);
  }

  lemma {:induction false} ShortfallInReals(exact: real, product: real, growth: real,
                                            maximum: int, cap: int, delay: int, slept: int)
    requires product <= exact < product + growth * (MILLISECOND as real) && growth >= 1.0
    requires cap <= maximum < cap + MILLISECOND && cap % MILLISECOND == 0
    requires delay == Min(product.Floor, cap)
    requires slept <= delay < slept + MILLISECOND && (delay % MILLISECOND == 0 ==> slept == delay)
    ensures slept as real <= MinReal(exact, maximum as real) < slept as real + (growth + 1.0) * (MILLISECOND as real)
  {
  }

  lemma {:induction false} DelayInRange(p: RetryPolicy, task: ActivityTask, outOfRange: int)
    requires Sane(p) && task.policy == Some(p) && 1 <= task.attempt < 0x8000_0000
    requires InInt64(Backoff(p, task.attempt))
    ensures RetryDelay(task, outOfRange) == Min(Backoff(p, task.attempt).Floor, MaximumInterval(p))
    ensures RetryDelay(task, outOfRange) >= MILLISECOND
  {
    SaneIntervals(p);
    BackoffBounds(p, task.attempt);
  }

  lemma {:induction false} ScaleError(exact: int, rounded: int, growth: real)
    requires growth >= 1.0 && rounded <= exact < rounded + MILLISECOND
    ensures Scale(rounded, growth) <= Scale(exact, growth)
    ensures Scale(exact, growth) < Scale(rounded, growth) + growth * (MILLISECOND as real)
  {
    var gap := exact as real - rounded as real;
    assert Scale(exact, growth) == (rounded as real + gap) * growth;
    MulAdd(rounded as real, gap, growth);
    MulMonotone(0.0, gap, growth);
    MulMonotone(gap, MILLISECOND as real, growth);
  }

  lemma {:induction false} MulAdd(x: real, y: real, k: real)
    ensures (x + y) * k == x * k + y * k
  {
  }

  lemma {:induction false} MulMonotone(x: real, y: real, k: real)
    requires k > 0.0
    ensures x <= y ==> x * k <= y * k
    ensures x < y ==> x * k < y * k
  {
  }

  lemma {:induction false} FloorToMillisecond(d: Duration)
    requires d >= 0
    ensures Milliseconds(d) * MILLISECOND <= d < Milliseconds(d) * MILLISECOND + MILLISECOND
    ensures d % MILLISECOND == 0 ==> Milliseconds(d) * MILLISECOND == d
  {
  }
}
