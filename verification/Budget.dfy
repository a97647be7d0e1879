/** How long the retries of one call can be held back in all. */
module Budget {
  import opened Api
  import opened Options
  import opened Retry
  import opened Worker
  import opened Projection
  import opened Attempts

  /** One failed attempt: its error, when the worker decided about it, and what this platform makes
      of an oversized delay. */
  datatype Failure = Failure(error: string, nowMs: int, outOfRange: int)

  /** One call as the projectors see it: its schedule, when the first task was made, and the stream's
      time stamp of the schedule, which every retry task carries. */
  datatype Chain = Chain(schedule: Event, firstMs: int, stampMs: int)

  /** The task that is published after these attempts have failed. */
  function TaskAfter(c: Chain, failures: seq<Failure>): (t: ActivityTask)
    requires c.schedule.ActivityScheduled?
  {
    if failures == [] then FirstAttempt(c.schedule, c.firstMs)
    else
      var task, last := TaskAfter(c, failures[..|failures| - 1]), failures[|failures| - 1];
      var e := AttemptEvent(task, Outcome.Failed(last.error), last.nowMs, last.outOfRange);
      if e.ActivityRetried? then RetryAttempt(e, c.schedule, c.stampMs) else task
  }

  /** The event recorded for the last of these failures. */
  function LastEvent(c: Chain, failures: seq<Failure>): Event
    requires c.schedule.ActivityScheduled? && failures != []
  {
    var last := failures[|failures| - 1];
    AttemptEvent(TaskAfter(c, failures[..|failures| - 1]), Outcome.Failed(last.error), last.nowMs, last.outOfRange)
  }

  /** The events recorded for these failures. */
  function Recorded(c: Chain, failures: seq<Failure>): (events: seq<Event>)
    requires c.schedule.ActivityScheduled?
    ensures |events| == |failures|
  {
    if failures == [] then [] else Recorded(c, failures[..|failures| - 1]) + [LastEvent(c, failures)]
  }

  /** How long the retry projector sleeps for an event, in milliseconds; a negative delay is no sleep. */
  function HeldBack(e: Event): nat {
    if e.ActivityRetried? && e.nextRetryDelay > 0 then e.nextRetryDelay else 0
  }

  function TotalHeldBack(events: seq<Event>): nat {
    if events == [] then 0 else TotalHeldBack(events[..|events| - 1]) + HeldBack(events[|events| - 1])
  }

  /** The earliest time the next attempt can run. */
  function NotBefore(c: Chain, failures: seq<Failure>): int
    requires c.schedule.ActivityScheduled?
  {
    if failures == [] then c.firstMs else failures[|failures| - 1].nowMs + HeldBack(LastEvent(c, failures))
  }

  /** Every one of these failures was recorded as retried, on one clock. */
  ghost predicate RetryChain(c: Chain, failures: seq<Failure>)
    requires c.schedule.ActivityScheduled?
  {
    failures == [] ||
      var init := failures[..|failures| - 1];
      && RetryChain(c, init) && failures[|failures| - 1].nowMs >= NotBefore(c, init)
      && LastEvent(c, failures).ActivityRetried?
  }

  /** Every attempt carries the schedule's own payload; the first is timed by the projector, the
      others by the stream. */
  lemma {:induction false} PayloadOfChain(c: Chain, failures: seq<Failure>)
    requires c.schedule.ActivityScheduled?
    ensures var t, s := TaskAfter(c, failures), c.schedule;
      && (t.input, t.policy) == (s.input, s.policy)
      && (t.scheduleToClose, t.startToClose) == (s.scheduleToClose, s.startToClose)
      && (t.scheduledAtMs == c.firstMs || t.scheduledAtMs == c.stampMs)
  {
    hide ShouldRetry, RetryDelay;
    if failures != [] {
      PayloadOfChain(c, failures[..|failures| - 1]);
    }
  }

  /** The attempts of a chain are numbered from one, as int32 counts, and every retry is timed by the
      stream. */
  lemma {:induction false} AttemptOfChain(c: Chain, failures: seq<Failure>)
    requires c.schedule.ActivityScheduled? && RetryChain(c, failures)
    ensures TaskAfter(c, failures).attempt == AttemptNumber(|failures|)
    ensures |failures| < 0x7FFF_FFFF ==> TaskAfter(c, failures).attempt == |failures| + 1
    ensures TaskAfter(c, failures).scheduledAtMs == TimedFrom(c, failures)
  {
    hide ShouldRetry, RetryDelay;
    if failures != [] {
      AttemptOfChain(c, failures[..|failures| - 1]);
    }
  }

  function TimedFrom(c: Chain, failures: seq<Failure>): int {
    if failures == [] then c.firstMs else c.stampMs
  }

  /** What the author's options say about a failed attempt, leaving the timeout aside. */
  predicate OptionsAllow(o: Option<ActivityOptions>, attempt: int, error: string) {
    && o.Some? && o.value.policy.Some?
    && (o.value.policy.value.maximumAttempts > 0 ==> attempt < o.value.policy.value.maximumAttempts)
    && error !in o.value.policy.value.nonRetryableErrors
  }

  /** The schedule-to-close field: the clock in seconds plus the timeout in milliseconds. */
  function TimeoutField(o: Option<ActivityOptions>, nowUnix: int): int {
    if o.Some? && o.value.scheduleToClose > 0 then WrapInt64(nowUnix + Milliseconds(o.value.scheduleToClose)) else 0
  }

  ghost predicate ScheduledWith(c: Chain, o: Option<ActivityOptions>, nowUnix: int) {
    var s := c.schedule;
    s.ActivityScheduled? && s == ScheduledEvent(s.id, s.workflowFn, s.activityFn, s.input, o, nowUnix)
  }

  /** The retry decision in the author's terms, for any options and after any number of failures: there
      is a policy, its limit on attempts is not reached, it does not list the error, and the time
      elapsed plus the delay does not exceed a positive schedule-to-close field. */
  lemma {:induction false} DecisionAsConfigured(o: Option<ActivityOptions>, c: Chain, failures: seq<Failure>,
                                                next: Failure, nowUnix: int)
    requires ScheduledWith(c, o, nowUnix) && RetryChain(c, failures)
    ensures var task, field := TaskAfter(c, failures), TimeoutField(o, nowUnix);
      var delay := Milliseconds(RetryDelay(task, next.outOfRange));
      ShouldRetry(task, next.error, next.nowMs, next.outOfRange) <==>
        && OptionsAllow(o, AttemptNumber(|failures|), next.error)
        && (field > 0 ==> next.nowMs - TimedFrom(c, failures) + delay <= field)
  {
    hide RetryDelay, TaskAfter, RetryChain, AttemptNumber;
    PayloadOfChain(c, failures);
    AttemptOfChain(c, failures);
  }

  /** Whether the author's timeout, in place of the field, is what decides about a failure at `nowMs`. */
  ghost predicate TimeoutDecides(o: ActivityOptions, c: Chain, failures: seq<Failure>, error: string, nowMs: int,
                                 outOfRange: int)
    requires c.schedule.ActivityScheduled?
  {
    var task := TaskAfter(c, failures);
    var delay := Milliseconds(RetryDelay(task, outOfRange));
    ShouldRetry(task, error, nowMs, outOfRange) ==
      (OptionsAllow(Some(o), AttemptNumber(|failures|), error)
       && nowMs - TimedFrom(c, failures) + delay <= Milliseconds(o.scheduleToClose))
  }

  /** The author's timeout is what decides, at every moment, if and only if the clock read zero when
      the call was scheduled and the timeout is at least a millisecond, or nothing is left to decide. */
  lemma {:induction false} TimeoutDecidesIff(o: ActivityOptions, c: Chain, failures: seq<Failure>, error: string,
                                             nowUnix: int, outOfRange: int)
    requires ScheduledWith(c, Some(o), nowUnix) && RetryChain(c, failures)
    requires 0 < o.scheduleToClose < TWO_TO_63 && -TWO_TO_63 <= nowUnix < TWO_TO_63
    ensures (forall nowMs :: TimeoutDecides(o, c, failures, error, nowMs, outOfRange))
      <==> (nowUnix == 0 && o.scheduleToClose >= MILLISECOND)
           || !OptionsAllow(Some(o), AttemptNumber(|failures|), error)
  {
    hide RetryDelay, TaskAfter, RetryChain, ShouldRetry, OptionsAllow, AttemptNumber;
    var field, timeout := TimeoutField(Some(o), nowUnix), Milliseconds(o.scheduleToClose);
    var from := TimedFrom(c, failures) - Milliseconds(RetryDelay(TaskAfter(c, failures), outOfRange));
    forall nowMs
      ensures ShouldRetry(TaskAfter(c, failures), error, nowMs, outOfRange)
        == (OptionsAllow(Some(o), AttemptNumber(|failures|), error) && (field > 0 ==> nowMs - from <= field))
    {
      DecisionAsConfigured(Some(o), c, failures, Failure(error, nowMs, outOfRange), nowUnix);
    }
    if field <= 0 {
      assert TimeoutDecides(o, c, failures, error, from + timeout + 1, outOfRange)
        <==> !OptionsAllow(Some(o), AttemptNumber(|failures|), error);
    } else if field != timeout {
      var later := if field > timeout then field else timeout;
      assert TimeoutDecides(o, c, failures, error, from + later, outOfRange)
        <==> !OptionsAllow(Some(o), AttemptNumber(|failures|), error);
    }
  }

  lemma {:induction false} TimePasses(c: Chain, failures: seq<Failure>)
    requires c.schedule.ActivityScheduled? && RetryChain(c, failures)
    ensures NotBefore(c, failures) >= c.firstMs + TotalHeldBack(Recorded(c, failures))
  {
    hide LastEvent, HeldBack;
    if failures != [] {
      var init := failures[..|failures| - 1];
      TimePasses(c, init);
      assert Recorded(c, failures)[..|init|] == Recorded(c, init);
    }
  }

  /** A retried event was allowed by the schedule-to-close field of its task, delay included. */
  lemma {:induction false} DelayAllowed(task: ActivityTask, error: string, nowMs: int, outOfRange: int)
    requires task.scheduleToClose > 0
    ensures var e := AttemptEvent(task, Outcome.Failed(error), nowMs, outOfRange);
      e.ActivityRetried? ==> nowMs - task.scheduledAtMs + e.nextRetryDelay <= task.scheduleToClose
  {
    hide RetryDelay;
  }

  /** Total backoff budget: with a positive schedule-to-close field, the delays of all the retried events
      of one call together never exceed the field, although later attempts measure time from another
      start. */
  lemma {:induction false} BackoffBudget(c: Chain, failures: seq<Failure>)
    requires c.schedule.ActivityScheduled? && c.schedule.scheduleToClose > 0
    requires RetryChain(c, failures) && c.stampMs <= c.firstMs
    ensures TotalHeldBack(Recorded(c, failures)) <= c.schedule.scheduleToClose
  {
    hide AttemptEvent, TaskAfter;
    if failures != [] {
      var init, last := failures[..|failures| - 1], failures[|failures| - 1];
      BackoffBudget(c, init);
      TimePasses(c, init);
      PayloadOfChain(c, init);
      DelayAllowed(TaskAfter(c, init), last.error, last.nowMs, last.outOfRange);
      assert Recorded(c, failures)[..|init|] == Recorded(c, init);
    }
  }

  /** The time the projector sleeps for a retried event, through all four truncations, never exceeds the
      delay the author's options ask for and falls short of it by less than coefficient^(attempt-1) + 1
      milliseconds. */
  lemma {:induction false} SleepError(o: RetryOptions, task: ActivityTask, error: string, nowMs: int, outOfRange: int)
    requires MILLISECOND <= o.initialInterval < TWO_TO_63 && MILLISECOND <= o.maximumInterval < TWO_TO_63
    requires o.backoffCoefficient >= 1.0 && task.policy == ConvertRetryPolicy(Some(o))
    requires 1 <= task.attempt < 0x8000_0000 && InInt64(Backoff(task.policy.value, task.attempt))
    ensures var e := AttemptEvent(task, Outcome.Failed(error), nowMs, outOfRange);
      e.ActivityRetried? ==>
        && e.attempt == task.attempt && e.error == error
        && SleepOf(e) == e.nextRetryDelay * MILLISECOND
        && var growth := Pow(o.backoffCoefficient, task.attempt - 1);
           var slept := SleepOf(e) as real;
           slept <= IdealDelay(o, growth) < slept + (growth + 1.0) * (MILLISECOND as real)
  {
    hide ShouldRetry, RetryDelay, Backoff, Pow, Scale, IdealDelay, ConvertRetryPolicy;
    BackoffError(o, task, outOfRange);
    SleptInRange(o, task, outOfRange);
  }

  lemma {:induction false} SleptInRange(o: RetryOptions, task: ActivityTask, outOfRange: int)
    requires MILLISECOND <= o.initialInterval < TWO_TO_63 && MILLISECOND <= o.maximumInterval < TWO_TO_63
    requires o.backoffCoefficient >= 1.0 && task.policy == ConvertRetryPolicy(Some(o))
    requires 1 <= task.attempt < 0x8000_0000 && InInt64(Backoff(task.policy.value, task.attempt))
    ensures 0 <= SleptNs(task, outOfRange) < TWO_TO_63
  {
    hide Backoff, Pow, Scale, RetryDelay, MaximumInterval;
    ConversionError(o);
    SaneIntervals(task.policy.value);
    DelayInRange(task.policy.value, task, outOfRange);
    FloorToMillisecond(RetryDelay(task, outOfRange));
  }

  /** The start-to-close field is the timeout in whole milliseconds, and nothing else of the options
      reaches it. */
  lemma {:induction false} StartToCloseAsWritten(o: Option<ActivityOptions>, c: Chain, nowUnix: int)
    requires ScheduledWith(c, o, nowUnix)
    ensures o.Some? && o.value.startToClose > 0 ==>
      c.schedule.startToClose * MILLISECOND <= o.value.startToClose < (c.schedule.startToClose + 1) * MILLISECOND
    ensures o.None? || o.value.startToClose <= 0 ==> c.schedule.startToClose == 0
  {
  }
}
