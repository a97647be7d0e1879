/** A workflow whose code always waits for a bounded tree of calls, and whose retries are limited,
    always reaches its end unless something is lost. */
module Progress {
  import opened Api
  import opened History
  import opened Options
  import opened Workflows
  import opened Worker
  import opened Projection
  import opened Sequential
  import opened Story
  import opened Attempts
  import opened DirectExecution
  import opened Delivery
  import opened Tokens

  // ---------------------------------------------------------------------------------------------
  // Hypotheses on the workflow's code
  // ---------------------------------------------------------------------------------------------

  /** Between two waits the code runs for finitely many steps. */
  ghost predicate AlwaysStops(p: Program) {
    forall outs: seq<Outcome> :: StopsOn(p, outs)
  }

  ghost predicate StopsOn(p: Program, outs: seq<Outcome>) {
    exists n: nat :: Stopped(RunN(p, Direct(outs), n))
  }

  /** Given these outcomes, the code makes another call and waits for it. */
  ghost predicate WaitsOn(p: Program, outs: seq<Outcome>) {
    exists n: nat :: RunN(p, Direct(outs), n).status.Suspended?
  }

  /** However the calls turn out, the code makes only finitely many: `rank` falls with each one. */
  ghost predicate WellFounded(p: Program, rank: seq<Outcome> -> ORDINAL) {
    forall outs: seq<Outcome>, o: Outcome {:trigger rank(outs + [o])} ::
      WaitsOn(p, outs) ==> rank(outs + [o]) < rank(outs)
  }

  predicate LimitsAttempts(policy: Option<RetryPolicy>) {
    policy.Some? ==> 0 < policy.value.maximumAttempts < 0x8000_0000
  }

  /** Every retry policy the code attaches, in any run, limits the number of attempts. */
  ghost predicate LimitsRetries(p: Program) {
    forall a: Answers, n: nat :: AttachesLimits(p, RunN(p, a, n))
  }

  predicate AttachesLimits(p: Program, r: Run) {
    var act := p(r.observations);
    r.status.Running? && act.WithValue? && act.value.Options? ==>
      LimitsAttempts(ConvertRetryPolicy(act.value.options.policy))
  }

  /** The code calls, in any run, only these activities. */
  ghost predicate CallsOnly(p: Program, activities: set<string>) {
    forall a: Answers, n: nat :: NamesOf(RunN(p, a, n).calls) <= activities
  }

  function NamesOf(calls: seq<Call>): set<string> {
    set call | call in calls :: call.activityFn
  }

  /** The hypotheses under which a workflow ends; a task the worker rejects needs none. */
  ghost predicate Bounded(cfg: Config, rank: seq<Outcome> -> ORDINAL) {
    var resolution := Resolve(cfg.registry, TaskOf(cfg));
    resolution.Body? ==>
      && WellFounded(resolution.program, rank) && LimitsRetries(resolution.program)
      && CallsOnly(resolution.program, cfg.activities.Keys)
  }

  lemma {:induction false} ContextsLimited(p: Program, a: Answers, n: nat)
    requires LimitsRetries(p)
    ensures forall c: Context, key: string :: c in RunN(p, a, n).contexts && key in c && c[key].Options? ==>
      LimitsAttempts(ConvertRetryPolicy(c[key].options.policy))
    ensures forall call :: call in RunN(p, a, n).calls ==> call.context in RunN(p, a, n).contexts
  {
    hide ConvertRetryPolicy, LimitsAttempts;
    if n > 0 {
      ContextsLimited(p, a, n - 1);
      assert AttachesLimits(p, RunN(p, a, n - 1));
    }
  }

  lemma {:induction false} IssuedLimited(p: Program, outs: seq<Outcome>, e: Event)
    requires LimitsRetries(p) && Issued(p, outs, e)
    ensures LimitsAttempts(PolicyOf(e)) && WaitsOn(p, outs)
  {
    hide RunN;
    var n: nat, nowUnix: int :| IssuedAt(p, outs, e, n, nowUnix);
    ContextsLimited(p, Direct(outs), n);
    var r := RunN(p, Direct(outs), n);
    assert r.calls[|r.calls| - 1] in r.calls;
  }

  lemma {:induction false} IssuedRegistered(p: Program, outs: seq<Outcome>, e: Event, activities: set<string>)
    requires CallsOnly(p, activities) && Issued(p, outs, e)
    ensures e.ActivityName() in activities
  {
    hide RunN;
    var n: nat, nowUnix: int :| IssuedAt(p, outs, e, n, nowUnix);
    var calls := RunN(p, Direct(outs), n).calls;
    assert calls[|calls| - 1] in calls && calls[|calls| - 1].activityFn in NamesOf(calls);
  }

  /** The queued activity task of such a workflow is one the workers can run. */
  lemma {:induction false} TaskRegistered(cfg: Config, w: World, place: Place)
    requires Inv(cfg, w, place) && place.ActivityQueued?
    requires var resolution := Resolve(cfg.registry, TaskOf(cfg));
      resolution.Body? ==> CallsOnly(resolution.program, cfg.activities.Keys)
    ensures w.activityTasks[0].activityFn in cfg.activities
  {
    hide Parse, ChainAllowed, Issued, Resolve, CallsOnly, Expected, IsCurrentTask, ResultOk, BlocksIssued;
    CurrentTask(cfg, w.log, w.activityTasks[0]);
    var p := Resolve(cfg.registry, TaskOf(cfg)).program;
    IssuedRegistered(p, Outcomes(Parse(w.log).blocks), Parse(w.log).stage.schedule, cfg.activities.Keys);
  }

  lemma {:induction false} NeverSentBack(cfg: Config, rank: seq<Outcome> -> ORDINAL, w: World, place: Place, s: Step)
    requires Inv(cfg, w, place) && Bounded(cfg, rank) && Enabled(cfg, w, s)
    ensures !s.NakActivity?
  {
    hide Parse, LogOk, Expected, IsCurrentTask, ResultOk, Streams, TaskStops, Resolve;
    hide CallsOnly, LimitsRetries, WellFounded;
    if place.ActivityQueued? {
      TaskRegistered(cfg, w, place);
    }
  }

  lemma {:induction false} StallStep(cfg: Config, w: World, place: Place, s: Step) returns (next: Place)
    requires ValidConfig(cfg) && Inv(cfg, w, place) && place.ActivityQueued? && Enabled(cfg, w, s) && !Loses(w, s)
    requires w.activityTasks[0].activityFn !in cfg.activities
    ensures var after := Delivery.Perform(cfg, w, s);
      && Inv(cfg, after, next) && next.ActivityQueued?
      && after.log == w.log && after.activityTasks == w.activityTasks
  {
    hide Parse, LogOk, Expected, IsCurrentTask, ResultOk, StageFits, RetryTaskFor, RunTask, TaskStops;
    match s
    case ProjectWorkflow => next := ProjectWorkflowKeeps(cfg, w, place);
    case ProjectActivity(nowMs) => next := ProjectActivityKeeps(cfg, w, place, nowMs);
    case ProjectRetry => next := ProjectRetryKeeps(cfg, w, place);
    case ProjectResult => next := place; ProjectResultKeeps(cfg, w, place);
    case _ => next := place;
  }

  /** A task whose activity no worker has registered is sent back for ever: from then on, as long as it
      is not lost, the log stays as it is. */
  lemma {:induction false} UnregisteredStalls(cfg: Config, states: seq<World>, steps: seq<Step>, k: nat, m: nat)
    returns (place: Place)
    requires ValidConfig(cfg) && Behavior(cfg, states, steps) && k <= m < |states|
    requires states[k].activityTasks != [] && states[k].activityTasks[0].activityFn !in cfg.activities
    requires forall j :: k <= j < m ==> !Loses(states[j], steps[j])
    ensures states[m].log == states[k].log && states[m].activityTasks == states[k].activityTasks
    ensures Inv(cfg, states[m], place) && place.ActivityQueued?
  {
    hide Parse, Delivery.Perform, Enabled, Loses, LogOk, Accounted, Streams, StageFits, ResultOk, IsCurrentTask;
    if m == k {
      place := AlwaysInv(cfg, states, steps, k);
    } else {
      var before := UnregisteredStalls(cfg, states, steps, k, m - 1);
      place := StallStep(cfg, states[m - 1], before, steps[m - 1]);
    }
  }

  // ---------------------------------------------------------------------------------------------
  // How many attempts an open call still has
  // ---------------------------------------------------------------------------------------------

  /** Every schedule in the log belongs to a call of the story. */
  lemma {:induction false} SchedulesAreCalls(log: seq<Event>, e: Event)
    requires !Parse(log).stage.Malformed? && e in log && e.ActivityScheduled?
    ensures (Parse(log).stage.Busy? && Parse(log).stage.schedule == e)
      || exists b :: b in Parse(log).blocks && b.schedule == e
  {
    var init, last := log[..|log| - 1], log[|log| - 1];
    var before, after := Parse(init), Parse(log);
    MalformedStays(before, last);
    if e in init {
      SchedulesAreCalls(init, e);
      if b :| b in before.blocks && b.schedule == e {
        assert b in after.blocks;
      } else if after.stage.Idle? {
        assert after.blocks[|after.blocks| - 1] in after.blocks;
      }
    } else if init != [] {
      ParseSound(init);
    }
  }

  lemma {:induction false} LogLimited(cfg: Config, p: Program, log: seq<Event>, e: Event)
    requires LogOk(cfg, log) && Resolve(cfg.registry, TaskOf(cfg)) == Body(p) && LimitsRetries(p)
    requires e in log && e.ActivityScheduled?
    ensures LimitsAttempts(PolicyOf(e))
  {
    hide Parse, ChainAllowed, Issued, Resolve, LimitsRetries, LimitsAttempts, PolicyOf;
    SchedulesAreCalls(log, e);
    var blocks := Parse(log).blocks;
    if b :| b in blocks && b.schedule == e {
      var i: nat :| i < |blocks| && blocks[i] == b;
      assert Issued(p, Outcomes(blocks[..i]), blocks[i].schedule);
      IssuedLimited(p, Outcomes(blocks[..i]), e);
    } else {
      IssuedLimited(p, Outcomes(blocks), e);
    }
  }

  function AttemptLimit(policy: Option<RetryPolicy>): int {
    if policy.None? then 1 else policy.value.maximumAttempts
  }

  function LimitOf(log: seq<Event>, schedule: Event): int {
    var own := AttemptLimit(PolicyOf(PayloadOf(log, schedule, 0)));
    var first := AttemptLimit(PolicyOf(PayloadOf(log, schedule, 1)));
    if own > first then own else first
  }

  /** The retries of a call stay below the larger of its own limit and that of the first schedule of
      its name, under which its retries run. */
  lemma {:induction false} RetriesLimited(log: seq<Event>, schedule: Event, retries: seq<Event>)
    requires RetriesAllowed(log, schedule, retries)
    requires LimitsAttempts(PolicyOf(PayloadOf(log, schedule, 0)))
    requires LimitsAttempts(PolicyOf(PayloadOf(log, schedule, 1)))
    ensures |retries| < LimitOf(log, schedule) < 0x8000_0000
  {
    hide PolicyOf;
    if retries != [] {
      var limit := LimitOf(log, schedule);
      forall j: nat | j < |retries| ensures AttemptNumber(j) < limit {
        hide AttemptNumber;
        assert RetryAllowed(log, schedule, j, retries[j]);
      }
      NoWrapBelow(|retries| - 1, limit);
    }
  }

  function AttemptsLeft(log: seq<Event>): int {
    var stage := Parse(log).stage;
    if stage.Busy? then LimitOf(log, stage.schedule) - |stage.retries| else 0
  }

  lemma {:induction false} AttemptsLeftIsNat(cfg: Config, rank: seq<Outcome> -> ORDINAL, log: seq<Event>)
    requires LogOk(cfg, log) && Bounded(cfg, rank)
    ensures AttemptsLeft(log) >= 0
  {
    hide Parse, BlocksIssued, Resolve, WellFounded, LimitsRetries, LimitsAttempts, FirstSchedule, RetriesAllowed;
    var stage := Parse(log).stage;
    if stage.Busy? {
      var p := Resolve(cfg.registry, TaskOf(cfg)).program;
      OpenCall(log);
      KnownFirst(log, stage.schedule);
      LogLimited(cfg, p, log, stage.schedule);
      LogLimited(cfg, p, log, PayloadOf(log, stage.schedule, 1));
      RetriesLimited(log, stage.schedule, stage.retries);
    }
  }

  /** A retried event uses up one attempt. */
  lemma {:induction false} RetryUsesAttempt(cfg: Config, log: seq<Event>, e: Event)
    requires LogOk(cfg, log) && Parse(log).stage.Busy?
    requires Parse(log + [e]) == Parse(log).(stage := Busy(Parse(log).stage.schedule, Parse(log).stage.retries + [e]))
    ensures AttemptsLeft(log + [e]) == AttemptsLeft(log) - 1
  {
    hide Parse, Follows, ChainAllowed, PayloadOf, AttemptLimit;
    OpenCall(log);
    var schedule := Parse(log).stage.schedule;
    PayloadStable(log, e, schedule, 0);
    PayloadStable(log, e, schedule, 1);
  }

  // ---------------------------------------------------------------------------------------------
  // The measure
  // ---------------------------------------------------------------------------------------------

  /** How many hand-overs separate a place from the next run of the code or the next attempt. */
  function Distance(place: Place): nat {
    match place
    case WakePending => 1
    case WorkflowQueued => 0
    case SchedulePending => 1
    case RetryPending => 2
    case TimerPending => 1
    case ActivityQueued => 0
    case Gone => 0
  }

  function Backlog(w: World): int {
    4 * |w.log| - w.workflowCursor - w.activityCursor - w.retryCursor - w.resultCursor
  }

  predicate AtEnd(w: World) { Parse(w.log).stage.Finished? || Parse(w.log).stage.Broken? }

  /** Later states are smaller: fewer calls ahead, then a call under way, then attempts left, then
      hand-overs left, then events left to project. */
  ghost predicate Below(rank: seq<Outcome> -> ORDINAL, w: World, place: Place, after: World, next: Place) {
    var r, r' := rank(Outcomes(Parse(w.log).blocks)), rank(Outcomes(Parse(after.log).blocks));
    var idle, idle' := Parse(w.log).stage.Idle?, Parse(after.log).stage.Idle?;
    || r' < r
    || (r' == r && idle && !idle')
    || (r' == r && idle' == idle && AttemptsLeft(after.log) < AttemptsLeft(w.log))
    || (r' == r && idle' == idle && AttemptsLeft(after.log) == AttemptsLeft(w.log) && Distance(next) < Distance(place))
    || (r' == r && idle' == idle && AttemptsLeft(after.log) == AttemptsLeft(w.log) && Distance(next) == Distance(place)
        && Backlog(after) < Backlog(w))
  }

  /** A projection moves the token or shortens the backlog. */
  lemma {:induction false} ProjectionDescends(cfg: Config, rank: seq<Outcome> -> ORDINAL, w: World, place: Place,
                                              s: Step)
    returns (next: Place)
    requires ValidConfig(cfg) && Inv(cfg, w, place) && Enabled(cfg, w, s)
    requires s.ProjectWorkflow? || s.ProjectActivity? || s.ProjectRetry? || s.ProjectResult?
    ensures Inv(cfg, Delivery.Perform(cfg, w, s), next) && (next.Gone? ==> place.Gone?)
    ensures Below(rank, w, place, Delivery.Perform(cfg, w, s), next)
  {
    hide Parse, Inv, AttemptsLeft, WorkflowTaskFor, Outcomes;
    match s
    case ProjectWorkflow =>
      next := ProjectWorkflowKeeps(cfg, w, place);
    case ProjectActivity(nowMs) =>
      next := ProjectActivityKeeps(cfg, w, place, nowMs);
    case ProjectRetry =>
      next := ProjectRetryKeeps(cfg, w, place);
    case ProjectResult =>
      next := place;
      ProjectResultKeeps(cfg, w, place);
  }

  /** A retry that wakes up and finds its schedule hands the token over. */
  lemma {:induction false} TimerDescends(cfg: Config, rank: seq<Outcome> -> ORDINAL, w: World, place: Place, s: Step)
    returns (next: Place)
    requires Inv(cfg, w, place) && Enabled(cfg, w, s) && !Loses(w, s) && s.FireTimer?
    ensures Inv(cfg, Delivery.Perform(cfg, w, s), next) && (next.Gone? ==> place.Gone?)
    ensures Below(rank, w, place, Delivery.Perform(cfg, w, s), next)
  {
    hide Parse, Inv, AttemptsLeft, RetryTaskFor, Outcomes, Remove;
    next := FireTimerKeeps(cfg, w, place, s);
  }

  lemma {:induction false} OutcomesAppend(blocks: seq<Block>, b: Block)
    ensures Outcomes(blocks + [b]) == Outcomes(blocks) + [OutcomeOf(b.outcome)]
  {
  }

  lemma {:induction false} OutcomeLowersRank(cfg: Config, rank: seq<Outcome> -> ORDINAL, log: seq<Event>, e: Event)
    requires LogOk(cfg, log) && Bounded(cfg, rank) && Parse(log).stage.Busy?
    requires Parse(log + [e]).blocks
          == Parse(log).blocks + [Block(Parse(log).stage.schedule, Parse(log).stage.retries, e)]
    ensures rank(Outcomes(Parse(log + [e]).blocks)) < rank(Outcomes(Parse(log).blocks))
  {
    hide Parse, ChainAllowed, BlocksIssued, Issued, Resolve, LimitsRetries, Outcomes;
    var s := Parse(log);
    var p := Resolve(cfg.registry, TaskOf(cfg)).program;
    IssuedLimited(p, Outcomes(s.blocks), s.stage.schedule);
    OutcomesAppend(s.blocks, Block(s.stage.schedule, s.stage.retries, e));
  }

  /** An attempt uses up its call, or one of the attempts the call has left. */
  lemma {:induction false} AttemptDescends(cfg: Config, rank: seq<Outcome> -> ORDINAL, w: World, place: Place, s: Step)
    returns (next: Place)
    requires Inv(cfg, w, place) && Bounded(cfg, rank) && s.RunActivity? && Enabled(cfg, w, s)
    ensures Inv(cfg, Delivery.Perform(cfg, w, s), next) && !next.Gone?
    ensures Below(rank, w, place, Delivery.Perform(cfg, w, s), next)
  {
    hide Parse, LogOk, Expected, AttemptEvent, AttemptsLeft, Streams, StageFits, IsCurrentTask, Bounded, Outcomes;
    next := RunActivityKeeps(cfg, w, place, s);
    var e := AttemptAppends(cfg, w.log, w.activityTasks[0], OutcomeOfRun(cfg, w, s), s.nowMs, s.outOfRange);
    if e.ActivityRetried? {
      RetryUsesAttempt(cfg, w.log, e);
    } else {
      OutcomeLowersRank(cfg, rank, w.log, e);
    }
  }

  /** Running the workflow's code starts a call or ends the workflow. */
  lemma {:induction false} TaskDescends(cfg: Config, rank: seq<Outcome> -> ORDINAL, w: World, place: Place, s: Step)
    returns (next: Place)
    requires ValidConfig(cfg) && Inv(cfg, w, place) && s.RunWorkflow? && Enabled(cfg, w, s) && !AtEnd(w)
    ensures Inv(cfg, Delivery.Perform(cfg, w, s), next)
    ensures var after := Delivery.Perform(cfg, w, s);
      AtEnd(after) || (!next.Gone? && Below(rank, w, place, after, next))
  {
    hide Parse, LogOk, Expected, RunTask, TaskStops, AttemptsLeft, Streams, IsCurrentTask, Outcomes;
    next := RunWorkflowKeeps(cfg, w, place, s);
    var _ := TaskAppends(cfg, w.log, s.n, s.clock);
  }

  /** Every step that loses nothing leads to a smaller state, until the workflow has ended. */
  lemma {:induction false} Descends(cfg: Config, rank: seq<Outcome> -> ORDINAL, w: World, place: Place, s: Step)
    returns (next: Place)
    requires ValidConfig(cfg) && Bounded(cfg, rank)
    requires Inv(cfg, w, place) && !place.Gone? && !AtEnd(w) && Enabled(cfg, w, s) && !Loses(w, s)
    ensures Inv(cfg, Delivery.Perform(cfg, w, s), next)
    ensures var after := Delivery.Perform(cfg, w, s);
      AtEnd(after) || (!next.Gone? && Below(rank, w, place, after, next))
  {
    hide Parse, Inv, Bounded, Below, Delivery.Perform, Enabled, RetryTaskFor, AtEnd;
    NeverSentBack(cfg, rank, w, place, s);
    match s
    case RunWorkflow(_, _, _) => next := TaskDescends(cfg, rank, w, place, s);
    case RunActivity(_, _, _, _) => next := AttemptDescends(cfg, rank, w, place, s);
    case FireTimer(_, _) => next := TimerDescends(cfg, rank, w, place, s);
    case _ => next := ProjectionDescends(cfg, rank, w, place, s);
  }

  // ---------------------------------------------------------------------------------------------
  // Termination and progress
  // ---------------------------------------------------------------------------------------------

  ghost predicate Advances(cfg: Config, w: World, s: Step, after: World) {
    Enabled(cfg, w, s) && !Loses(w, s) && after == Delivery.Perform(cfg, w, s)
  }

  ghost predicate MovesOn(cfg: Config, w: World, after: World) {
    AtEnd(w) || exists s :: Advances(cfg, w, s, after)
  }

  /** A run that keeps taking steps, in any order and losing nothing, until the workflow has ended. */
  ghost predicate KeepsGoing(cfg: Config, run: nat -> World) {
    run(0) == Start(cfg) && forall k: nat :: MovesOn(cfg, run(k), run(k + 1))
  }

  /** Termination: no scheduler can keep a bounded workflow from its end. */
  lemma {:induction false} Terminates(cfg: Config, rank: seq<Outcome> -> ORDINAL, run: nat -> World) returns (end: nat)
    requires ValidConfig(cfg) && Bounded(cfg, rank) && KeepsGoing(cfg, run)
    ensures AtEnd(run(end))
  {
    hide Inv, Bounded, AtEnd;
    InvAtStart(cfg);
    end := TerminatesFrom(cfg, rank, run, 0, WakePending);
  }

  lemma {:induction false} TerminatesFrom(cfg: Config, rank: seq<Outcome> -> ORDINAL, run: nat -> World, k: nat,
                                          place: Place) returns (end: nat)
    requires ValidConfig(cfg) && Bounded(cfg, rank) && KeepsGoing(cfg, run)
    requires Inv(cfg, run(k), place) && !place.Gone?
    ensures AtEnd(run(end))
    decreases rank(Outcomes(Parse(run(k).log).blocks)), Parse(run(k).log).stage.Idle?,
      AttemptsLeft(run(k).log), Distance(place), Backlog(run(k))
  {
    hide Parse, Outcomes, Bounded, AtEnd, Delivery.Perform, Enabled, Loses, Distance, AttemptsLeft;
    if AtEnd(run(k)) {
      end := k;
    } else {
      var s :| Advances(cfg, run(k), s, run(k + 1));
      var next := Descends(cfg, rank, run(k), place, s);
      if AtEnd(run(k + 1)) {
        end := k + 1;
      } else {
        MeasureIsNat(cfg, rank, run(k), place);
        MeasureIsNat(cfg, rank, run(k + 1), next);
        end := TerminatesFrom(cfg, rank, run, k + 1, next);
      }
    }
  }

  lemma {:induction false} MeasureIsNat(cfg: Config, rank: seq<Outcome> -> ORDINAL, w: World, place: Place)
    requires Bounded(cfg, rank) && Inv(cfg, w, place)
    ensures AttemptsLeft(w.log) >= 0 && Backlog(w) >= 0
  {
    hide LogOk, Bounded, AttemptsLeft;
    AttemptsLeftIsNat(cfg, rank, w.log);
  }

  /** Every activity that was retried was first scheduled within the window of the retry lookup. */
  ghost predicate LookupsSucceed(log: seq<Event>) {
    forall e :: e in log && e.ActivityRetried? ==>
      exists i: nat :: i < |log| && i < 100 && log[i].ActivityScheduled? && log[i].activityFn == e.activityFn
  }

  /** The code stops or waits after finitely many steps, and calls only registered activities. */
  ghost predicate Runnable(cfg: Config) {
    var resolution := Resolve(cfg.registry, TaskOf(cfg));
    resolution.Body? ==> AlwaysStops(resolution.program) && CallsOnly(resolution.program, cfg.activities.Keys)
  }

  /** Progress: as long as the token is there, some step is enabled that loses nothing. */
  lemma {:induction false} StepEnabled(cfg: Config, w: World, place: Place) returns (s: Step)
    requires ValidConfig(cfg) && Inv(cfg, w, place) && !place.Gone? && LookupsSucceed(w.log)
    requires Runnable(cfg)
    ensures Enabled(cfg, w, s) && !Loses(w, s)
  {
    hide Parse, LogOk, Expected, RetryTaskFor, IsCurrentTask, ResultOk, TaskStops, LookupsSucceed, Resolve;
    hide AlwaysStops, CallsOnly;
    match place
    case WakePending => s := ProjectWorkflow;
    case WorkflowQueued =>
      var n := SomeStop(cfg, w.log);
      s := RunWorkflow(0, n, i => 0);
    case SchedulePending => s := ProjectActivity(0);
    case ActivityQueued =>
      TaskRegistered(cfg, w, place);
      s := RunActivity(0, Completed([]), 0, 0);
    case RetryPending => s := ProjectRetry;
    case TimerPending =>
      s := FireTimer(0, 0);
      LookupSucceeds(cfg, w.log, 0);
  }

  lemma {:induction false} LookupSucceeds(cfg: Config, log: seq<Event>, stampMs: int)
    requires LogOk(cfg, log) && LookupsSucceed(log) && Parse(log).stage.Busy? && Parse(log).stage.retries != []
    ensures var e := Parse(log).stage.retries[|Parse(log).stage.retries| - 1];
      e.ActivityRetried? && RetryTaskFor(log, e, stampMs).Some?
  {
    hide Parse, RetryTaskFor, Follows, ChainAllowed;
    OpenCall(log);
    var e := Parse(log).stage.retries[|Parse(log).stage.retries| - 1];
    assert e in Parse(log).stage.retries;
    LookupSucceedsIff(log, e, stampMs);
  }

  /** No reachable state is stuck: until the workflow ends, if nothing was lost, some step is enabled
      that loses nothing. */
  lemma {:induction false} NeverStuck(cfg: Config, states: seq<World>, steps: seq<Step>, k: nat) returns (s: Step)
    requires ValidConfig(cfg) && Behavior(cfg, states, steps) && k < |states| && Lossless(states, steps, k)
    requires !AtEnd(states[k]) && LookupsSucceed(states[k].log)
    requires Runnable(cfg)
    ensures Enabled(cfg, states[k], s) && !Loses(states[k], s)
  {
    hide Parse, Inv, Behavior, Runnable, Enabled, Loses, LookupsSucceed;
    var place := AlwaysInv(cfg, states, steps, k);
    s := StepEnabled(cfg, states[k], place);
  }

  lemma {:induction false} SomeStop(cfg: Config, log: seq<Event>) returns (n: nat)
    requires ValidConfig(cfg) && LogOk(cfg, log)
    requires Runnable(cfg)
    ensures TaskStops(cfg.registry, TaskOf(cfg), log, n)
  {
    hide Parse, RunN, ChainAllowed, BlocksIssued, Resolve, AwaitsAtOnce, CallsOnly;
    n := 0;
    var resolution := Resolve(cfg.registry, TaskOf(cfg));
    if resolution.Body? {
      assert StopsOn(resolution.program, Outcomes(Parse(log).blocks));
      n :| Stopped(RunN(resolution.program, Direct(Outcomes(Parse(log).blocks)), n));
      ReplayIsDirect(resolution.program, log, n);
    }
  }
}
