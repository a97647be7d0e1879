/** The attempts behind one activity call: their numbers, their payloads and the policy that allowed
    each retry. */
module Attempts {
  import opened Api
  import opened History
  import opened Story

  /** The number of attempt `j`, counting from zero: int32 arithmetic starting at one. */
  function AttemptNumber(j: nat): int {
    if j == 0 then 1 else WrapInt32(AttemptNumber(j - 1) + 1)
  }

  lemma {:induction false} AttemptNumberCounts(j: nat)
    requires j < 0x7FFF_FFFF
    ensures AttemptNumber(j) == j + 1
  {
    if j > 0 {
      AttemptNumberCounts(j - 1);
    }
  }

  /** An attempt number below a positive int32 limit has not wrapped, if none before it reached it. */
  lemma {:induction false} NoWrapBelow(j: nat, limit: int)
    requires 0 < limit < 0x8000_0000
    requires forall i :: 0 <= i <= j ==> AttemptNumber(i) < limit
    ensures AttemptNumber(j) == j + 1
  {
    if j > 0 {
      NoWrapBelow(j - 1, limit);
    }
  }

  /** The schedule whose input, timeouts and policy attempt `j` carries: its own for the first
      attempt, the first schedule of that name for every retry. */
  function PayloadOf(log: seq<Event>, schedule: Event, j: nat): (r: Event)
    ensures schedule.ActivityScheduled? ==> r.ActivityScheduled?
  {
    if j == 0 then schedule
    else
      match FirstSchedule(log, schedule.ActivityName())
      case Some(i) => log[i]
      case None => schedule
  }

  function InputOf(e: Event): seq<Value> { if e.ActivityScheduled? then e.input else [] }
  function PolicyOf(e: Event): Option<RetryPolicy> { if e.ActivityScheduled? then e.policy else None }
  function ErrorOf(e: Event): string { if e.ActivityRetried? then e.error else "" }

  /** One attempt a worker made at an activity. */
  datatype Invocation = Invocation(activityFn: string, input: seq<Value>, attempt: int, outcome: Outcome)

  function Attempt(log: seq<Event>, schedule: Event, j: nat, outcome: Outcome): Invocation {
    Invocation(schedule.ActivityName(), InputOf(PayloadOf(log, schedule, j)), AttemptNumber(j), outcome)
  }

  function RetriedAttempts(log: seq<Event>, schedule: Event, retries: seq<Event>): seq<Invocation> {
    if retries == [] then []
    else
      var j := |retries| - 1;
      RetriedAttempts(log, schedule, retries[..j]) + [Attempt(log, schedule, j, Failed(ErrorOf(retries[j])))]
  }

  function BlockAttempts(log: seq<Event>, b: Block): seq<Invocation> {
    RetriedAttempts(log, b.schedule, b.retries) + [Attempt(log, b.schedule, |b.retries|, OutcomeOf(b.outcome))]
  }

  function AllAttempts(log: seq<Event>, blocks: seq<Block>): seq<Invocation> {
    if blocks == [] then []
    else AllAttempts(log, blocks[..|blocks| - 1]) + BlockAttempts(log, blocks[|blocks| - 1])
  }

  /** The attempts a log testifies to, in order. */
  function Expected(log: seq<Event>): seq<Invocation> {
    var s := Parse(log);
    AllAttempts(log, s.blocks)
      + if s.stage.Busy? then RetriedAttempts(log, s.stage.schedule, s.stage.retries) else []
  }

  /** Retry `j` of a call carries the failed attempt's number, and the policy that attempt ran under
      allowed it. */
  predicate RetryAllowed(log: seq<Event>, schedule: Event, j: nat, e: Event) {
    && e.ActivityRetried? && e.attempt == AttemptNumber(j)
    && var policy := PolicyOf(PayloadOf(log, schedule, j));
    && policy.Some?
    && (policy.value.maximumAttempts > 0 ==> AttemptNumber(j) < policy.value.maximumAttempts)
    && e.error !in policy.value.nonRetryableErrors
  }

  ghost predicate RetriesAllowed(log: seq<Event>, schedule: Event, retries: seq<Event>) {
    forall j: nat | j < |retries| :: RetryAllowed(log, schedule, j, retries[j])
  }

  ghost predicate ChainAllowed(log: seq<Event>) {
    var s := Parse(log);
    && (forall b :: b in s.blocks ==> RetriesAllowed(log, b.schedule, b.retries))
    && (s.stage.Busy? ==> RetriesAllowed(log, s.stage.schedule, s.stage.retries))
  }

  // ---------------------------------------------------------------------------------------------
  // Stability as the log grows
  // ---------------------------------------------------------------------------------------------

  ghost predicate Known(log: seq<Event>, schedule: Event) {
    schedule.ActivityScheduled? && schedule in log
  }

  lemma {:induction false} KnownFirst(log: seq<Event>, schedule: Event)
    requires Known(log, schedule)
    ensures FirstSchedule(log, schedule.ActivityName()).Some?
  {
  }

  lemma {:induction false} PayloadStable(log: seq<Event>, e: Event, schedule: Event, j: nat)
    requires Known(log, schedule)
    ensures PayloadOf(log + [e], schedule, j) == PayloadOf(log, schedule, j)
  {
    KnownFirst(log, schedule);
    FirstScheduleStable(log, log + [e], schedule.ActivityName());
  }

  lemma {:induction false} RetriedAttemptsStable(log: seq<Event>, e: Event, schedule: Event, retries: seq<Event>)
    requires Known(log, schedule)
    ensures RetriedAttempts(log + [e], schedule, retries) == RetriedAttempts(log, schedule, retries)
  {
    if retries != [] {
      RetriedAttemptsStable(log, e, schedule, retries[..|retries| - 1]);
      PayloadStable(log, e, schedule, |retries| - 1);
    }
  }

  lemma {:induction false} AllAttemptsStable(log: seq<Event>, e: Event, blocks: seq<Block>)
    requires forall b :: b in blocks ==> Known(log, b.schedule)
    ensures AllAttempts(log + [e], blocks) == AllAttempts(log, blocks)
  {
    if blocks != [] {
      var init, b := blocks[..|blocks| - 1], blocks[|blocks| - 1];
      AllAttemptsStable(log, e, init);
      RetriedAttemptsStable(log, e, b.schedule, b.retries);
      PayloadStable(log, e, b.schedule, |b.retries|);
    }
  }

  lemma {:induction false} RetriesAllowedStable(log: seq<Event>, e: Event, schedule: Event, retries: seq<Event>)
    requires Known(log, schedule)
    ensures RetriesAllowed(log + [e], schedule, retries) <==> RetriesAllowed(log, schedule, retries)
  {
    forall j: nat | j < |retries|
      ensures RetryAllowed(log + [e], schedule, j, retries[j]) <==> RetryAllowed(log, schedule, j, retries[j])
    {
      PayloadStable(log, e, schedule, j);
    }
  }

  /** Every schedule the story mentions is in the log. */
  lemma {:induction false} SchedulesKnown(log: seq<Event>)
    requires !Parse(log).stage.Malformed?
    ensures forall b :: b in Parse(log).blocks ==> Known(log, b.schedule)
    ensures Parse(log).stage.Busy? ==> Known(log, Parse(log).stage.schedule)
  {
    if log != [] {
      var init, e := log[..|log| - 1], log[|log| - 1];
      MalformedStays(Parse(init), e);
      SchedulesKnown(init);
      assert log == init + [e];
    }
  }

  // ---------------------------------------------------------------------------------------------
  // One more event
  // ---------------------------------------------------------------------------------------------

  lemma {:induction false} IdleAdvance(s: Story, e: Event)
    requires !s.stage.Busy?
    ensures Advance(s, e).blocks == s.blocks
    ensures Advance(s, e).stage.Busy? ==> Advance(s, e).stage.retries == []
  {
  }

  lemma {:induction false} AppendToIdle(log: seq<Event>, e: Event)
    requires !Parse(log).stage.Malformed? && ChainAllowed(log) && !Parse(log).stage.Busy?
    requires !Parse(log + [e]).stage.Malformed?
    ensures ChainAllowed(log + [e]) && Expected(log + [e]) == Expected(log)
  {
    hide Parse, Advance, AllAttempts, RetryAllowed;
    ParseAppend(log, e);
    SchedulesKnown(log);
    var s := Parse(log);
    IdleAdvance(s, e);
    AllAttemptsStable(log, e, s.blocks);
    forall b | b in s.blocks ensures RetriesAllowed(log + [e], b.schedule, b.retries) {
      RetriesAllowedStable(log, e, b.schedule, b.retries);
    }
  }

  lemma {:induction false} AppendRetry(log: seq<Event>, e: Event)
    requires !Parse(log).stage.Malformed? && ChainAllowed(log) && Parse(log).stage.Busy?
    requires e.ActivityName() == Parse(log).stage.schedule.ActivityName()
    requires RetryAllowed(log, Parse(log).stage.schedule, |Parse(log).stage.retries|, e)
    ensures Parse(log + [e]) == Parse(log).(stage := Busy(Parse(log).stage.schedule, Parse(log).stage.retries + [e]))
    ensures ChainAllowed(log + [e])
    ensures Expected(log + [e]) == Expected(log)
      + [Attempt(log, Parse(log).stage.schedule, |Parse(log).stage.retries|, Failed(ErrorOf(e)))]
  {
    hide Parse, AllAttempts;
    ParseAppend(log, e);
    SchedulesKnown(log);
    var s := Parse(log);
    var schedule, retries := s.stage.schedule, s.stage.retries;
    AllAttemptsStable(log, e, s.blocks);
    RetriedAttemptsStable(log, e, schedule, retries);
    PayloadStable(log, e, schedule, |retries|);
    assert (retries + [e])[..|retries|] == retries;
    forall b | b in s.blocks ensures RetriesAllowed(log + [e], b.schedule, b.retries) {
      RetriesAllowedStable(log, e, b.schedule, b.retries);
    }
    RetriesAllowedStable(log, e, schedule, retries);
    RetriesAllowedAppend(log + [e], schedule, retries, e);
  }

  lemma {:induction false} RetriesAllowedAppend(log: seq<Event>, schedule: Event, retries: seq<Event>, e: Event)
    requires RetriesAllowed(log, schedule, retries) && RetryAllowed(log, schedule, |retries|, e)
    ensures RetriesAllowed(log, schedule, retries + [e])
  {
    forall j: nat | j < |retries + [e]| ensures RetryAllowed(log, schedule, j, (retries + [e])[j]) {
      if j < |retries| {
        assert RetryAllowed(log, schedule, j, retries[j]);
      }
    }
  }

  lemma {:induction false} AppendOutcome(log: seq<Event>, e: Event)
    requires !Parse(log).stage.Malformed? && ChainAllowed(log) && Parse(log).stage.Busy?
    requires e.IsOutcome() && e.ActivityName() == Parse(log).stage.schedule.ActivityName()
    ensures Parse(log + [e])
         == Story(Parse(log).blocks + [Block(Parse(log).stage.schedule, Parse(log).stage.retries, e)], Idle)
    ensures ChainAllowed(log + [e])
    ensures Expected(log + [e]) == Expected(log)
      + [Attempt(log, Parse(log).stage.schedule, |Parse(log).stage.retries|, OutcomeOf(e))]
  {
    hide Parse, AllAttempts, RetriedAttempts, RetryAllowed, Attempt;
    ParseAppend(log, e);
    SchedulesKnown(log);
    var s := Parse(log);
    var b := Block(s.stage.schedule, s.stage.retries, e);
    BlockAttemptsAppend(log, e, s.blocks, b);
    forall c | c in s.blocks + [b] ensures RetriesAllowed(log + [e], c.schedule, c.retries) {
      RetriesAllowedStable(log, e, c.schedule, c.retries);
    }
  }

  lemma {:induction false} BlockAttemptsAppend(log: seq<Event>, e: Event, blocks: seq<Block>, b: Block)
    requires Known(log, b.schedule) && forall c :: c in blocks ==> Known(log, c.schedule)
    ensures AllAttempts(log + [e], blocks + [b])
         == AllAttempts(log, blocks) + RetriedAttempts(log, b.schedule, b.retries)
          + [Attempt(log, b.schedule, |b.retries|, OutcomeOf(b.outcome))]
  {
    AllAttemptsStable(log, e, blocks);
    RetriedAttemptsStable(log, e, b.schedule, b.retries);
    PayloadStable(log, e, b.schedule, |b.retries|);
    assert (blocks + [b])[..|blocks|] == blocks;
  }

  // ---------------------------------------------------------------------------------------------
  // Bounds
  // ---------------------------------------------------------------------------------------------

  /** When retries run under the call's own policy, a positive int32 attempt limit bounds the number
      of attempts, and no attempt number wraps. */
  lemma {:induction false} AttemptsBounded(log: seq<Event>, schedule: Event, retries: seq<Event>, policy: RetryPolicy)
    requires RetriesAllowed(log, schedule, retries)
    requires PolicyOf(schedule) == PolicyOf(PayloadOf(log, schedule, 1)) == Some(policy)
    requires 0 < policy.maximumAttempts < 0x8000_0000
    ensures |retries| + 1 <= policy.maximumAttempts
    ensures forall j: nat :: j < |retries| ==> retries[j].ActivityRetried? && retries[j].attempt == j + 1
    ensures AttemptNumber(|retries|) == |retries| + 1
  {
    forall j: nat | j < |retries| ensures AttemptNumber(j) < policy.maximumAttempts {
      assert RetryAllowed(log, schedule, j, retries[j]);
    }
    forall j: nat | j < |retries|
      ensures AttemptNumber(j) == j + 1 && retries[j].ActivityRetried? && retries[j].attempt == j + 1
    {
      NoWrapBelow(j, policy.maximumAttempts);
      assert RetryAllowed(log, schedule, j, retries[j]);
    }
    if retries != [] {
      NoWrapBelow(|retries| - 1, policy.maximumAttempts);
    }
  }
}
