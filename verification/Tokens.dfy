/** Under exact delivery one token moves the workflow: a wake-up event, a workflow task, a schedule,
    an activity task, a retried event or a sleeping retry, and never two of them at once. */
module Tokens {
  import opened Api
  import opened History
  import opened Workflows
  import opened Retry
  import opened Worker
  import opened Projection
  import opened Story
  import opened Attempts
  import opened DirectExecution
  import opened Delivery

  // ---------------------------------------------------------------------------------------------
  // Where the token is
  // ---------------------------------------------------------------------------------------------

  /** The one thing that will make the workflow move next. */
  datatype Place =
    | WakePending
    | WorkflowQueued
    | SchedulePending
    | ActivityQueued
    | RetryPending
    | TimerPending
    | Gone

  /** No event of `kind` at or after the cursor. */
  ghost predicate Quiet(log: seq<Event>, cursor: nat, kind: Event -> bool) {
    forall j :: cursor <= j < |log| ==> !kind(log[j])
  }

  /** The newest event is of `kind` and still ahead of the cursor, and no other is. */
  ghost predicate OnlyLast(log: seq<Event>, cursor: nat, kind: Event -> bool) {
    && cursor < |log| && kind(log[|log| - 1])
    && forall j :: cursor <= j < |log| - 1 ==> !kind(log[j])
  }

  ghost predicate Ahead(log: seq<Event>, cursor: nat, kind: Event -> bool, here: bool) {
    if here then OnlyLast(log, cursor, kind) else Quiet(log, cursor, kind)
  }

  lemma {:induction false} AheadAppend(log: seq<Event>, cursor: nat, kind: Event -> bool, e: Event)
    requires cursor <= |log| && Quiet(log, cursor, kind)
    ensures Ahead(log + [e], cursor, kind, kind(e))
  {
  }

  lemma {:induction false} AheadAdvance(log: seq<Event>, cursor: nat, kind: Event -> bool, here: bool)
    requires cursor < |log| && Ahead(log, cursor, kind, here)
    ensures kind(log[cursor]) ==> here && cursor == |log| - 1
    ensures Ahead(log, cursor + 1, kind, here && !kind(log[cursor]))
  {
  }

  /** The task an attempt of the open call must have, up to its time stamp. */
  predicate IsCurrentTask(log: seq<Event>, schedule: Event, retries: seq<Event>, t: ActivityTask) {
    && schedule.ActivityScheduled?
    && if retries == [] then t == FirstAttempt(schedule, t.scheduledAtMs)
       else
         var last := retries[|retries| - 1];
         last.ActivityRetried? && t == RetryAttempt(last, PayloadOf(log, schedule, |retries|), t.scheduledAtMs)
  }

  /** What each place says about the stage of the log. */
  ghost predicate StageFits(log: seq<Event>, place: Place)
    requires log != []
  {
    var stage := Parse(log).stage;
    match place
    case WakePending => stage.Idle?
    case WorkflowQueued => stage.Idle? || stage.Broken?
    case SchedulePending => stage == Busy(log[|log| - 1], [])
    case ActivityQueued => stage.Busy?
    case RetryPending =>
      stage.Busy? && stage.retries != [] && stage.retries[|stage.retries| - 1] == log[|log| - 1]
    case TimerPending => stage.Busy? && stage.retries != []
    case Gone => true
  }

  ghost predicate Queues(cfg: Config, w: World, place: Place) {
    var stage := Parse(w.log).stage;
    && w.workflowTasks == (if place.WorkflowQueued? then [TaskOf(cfg)] else [])
    && (if place.ActivityQueued? then
          && |w.activityTasks| == 1 && stage.Busy?
          && IsCurrentTask(w.log, stage.schedule, stage.retries, w.activityTasks[0])
        else w.activityTasks == [])
    && (if place.TimerPending? then
          stage.Busy? && stage.retries != [] && w.timers == [stage.retries[|stage.retries| - 1]]
        else w.timers == [])
  }

  ghost predicate Streams(w: World, place: Place) {
    && Ahead(w.log, w.workflowCursor, IsWake, place.WakePending?)
    && Ahead(w.log, w.activityCursor, IsScheduled, place.SchedulePending?)
    && Ahead(w.log, w.retryCursor, IsRetried, place.RetryPending?)
    && w.workflowCursor <= |w.log| && w.activityCursor <= |w.log|
    && w.retryCursor <= |w.log| && w.resultCursor <= |w.log|
  }

  /** The result entry holds the completion's result if it is there, and it is there once the result
      projector has read the whole log of a finished workflow. */
  ghost predicate ResultOk(w: World) {
    var stage := Parse(w.log).stage;
    && (w.result.Some? ==>
          stage.Finished? && stage.completion.WorkflowCompleted? && stage.completion.result == w.result.value)
    && (stage.Finished? && w.resultCursor == |w.log| ==> w.result.Some?)
  }

  /** The open call's current attempt was made, and the crash that followed left no event. */
  ghost predicate LastAttemptLost(w: World) {
    var stage := Parse(w.log).stage;
    stage.Busy? && exists outcome ::
      w.attempts == Expected(w.log) + [Attempt(w.log, stage.schedule, |stage.retries|, outcome)]
  }

  /** The attempts made are those the log testifies to, except one whose outcome a crash has lost. */
  ghost predicate Accounted(w: World, place: Place) {
    w.attempts == Expected(w.log) || (place.Gone? && LastAttemptLost(w))
  }

  /** The invariant: the log is grammatical and follows the program, the attempts made are accounted
      for, and the token is at `place`. */
  ghost predicate Inv(cfg: Config, w: World, place: Place) {
    && LogOk(cfg, w.log) && Accounted(w, place)
    && Streams(w, place) && Queues(cfg, w, place) && StageFits(w.log, place) && ResultOk(w)
  }

  predicate InLog(place: Place) { place.WakePending? || place.SchedulePending? || place.RetryPending? }

  /** An appended event holds the token if some projector will act on it. An unfinished workflow has
      no result entry, and its newest event has not reached the result projector. */
  lemma {:induction false} StreamsAppend(w: World, place: Place, e: Event, after: World, next: Place)
    requires Streams(w, place) && !InLog(place) && ResultOk(w) && !Parse(w.log).stage.Finished?
    requires after.log == w.log + [e] && after.result == w.result
    requires (after.workflowCursor, after.activityCursor, after.retryCursor, after.resultCursor)
          == (w.workflowCursor, w.activityCursor, w.retryCursor, w.resultCursor)
    requires next.WakePending? == IsWake(e) && next.SchedulePending? == IsScheduled(e)
    requires next.RetryPending? == IsRetried(e)
    ensures Streams(after, next) && ResultOk(after)
  {
    hide Parse;
    AheadAppend(w.log, w.workflowCursor, IsWake, e);
    AheadAppend(w.log, w.activityCursor, IsScheduled, e);
    AheadAppend(w.log, w.retryCursor, IsRetried, e);
  }

  lemma {:induction false} InvAtStart(cfg: Config)
    ensures Inv(cfg, Start(cfg), WakePending)
  {
    StartLogOk(cfg);
  }

  // ---------------------------------------------------------------------------------------------
  // The projectors
  // ---------------------------------------------------------------------------------------------

  lemma {:induction false} StartedIsFirst(log: seq<Event>)
    requires log != [] && !Parse(log).stage.Malformed? && log[|log| - 1].WorkflowStarted?
    ensures |log| == 1
  {
    var init := log[..|log| - 1];
    if init != [] {
      MalformedStays(Parse(init), log[|log| - 1]);
      ParseSound(init);
    }
  }

  lemma {:induction false} CompletedIsLast(log: seq<Event>, j: nat)
    requires j < |log| && log[j].WorkflowCompleted? && !Parse(log).stage.Malformed?
    ensures j == |log| - 1 && Parse(log).stage == Finished(log[j])
  {
    hide RenderAll, Tail;
    var init, e := log[..|log| - 1], log[|log| - 1];
    MalformedStays(Parse(init), e);
    if j < |init| {
      CompletedIsLast(init, j);
    } else if init != [] {
      ParseSound(init);
    }
  }

  lemma {:induction false} WakeMakesTask(cfg: Config, log: seq<Event>)
    requires ValidConfig(cfg) && LogOk(cfg, log) && IsWake(log[|log| - 1])
    ensures WorkflowTaskFor(cfg.inputs, log[|log| - 1]) == Publish(TaskOf(cfg))
  {
    hide Parse, ChainAllowed, Follows;
    var e := log[|log| - 1];
    assert e in log;
    if e.WorkflowStarted? {
      StartedIsFirst(log);
    }
  }

  lemma {:induction false} ProjectWorkflowKeeps(cfg: Config, w: World, place: Place) returns (next: Place)
    requires ValidConfig(cfg) && Inv(cfg, w, place) && Enabled(cfg, w, ProjectWorkflow)
    ensures Inv(cfg, Delivery.Perform(cfg, w, ProjectWorkflow), next)
    ensures if IsWake(w.log[w.workflowCursor]) then place.WakePending? && next.WorkflowQueued? else next == place
  {
    hide Parse, LogOk, Expected;
    var e := w.log[w.workflowCursor];
    AheadAdvance(w.log, w.workflowCursor, IsWake, place.WakePending?);
    next := if IsWake(e) then WorkflowQueued else place;
    if IsWake(e) {
      WakeMakesTask(cfg, w.log);
    }
  }

  lemma {:induction false} ProjectActivityKeeps(cfg: Config, w: World, place: Place, nowMs: int) returns (next: Place)
    requires Inv(cfg, w, place) && Enabled(cfg, w, ProjectActivity(nowMs))
    ensures Inv(cfg, Delivery.Perform(cfg, w, ProjectActivity(nowMs)), next)
    ensures if IsScheduled(w.log[w.activityCursor])
      then place.SchedulePending? && next.ActivityQueued? else next == place
  {
    hide Parse, LogOk, Expected;
    var e := w.log[w.activityCursor];
    AheadAdvance(w.log, w.activityCursor, IsScheduled, place.SchedulePending?);
    next := if IsScheduled(e) then ActivityQueued else place;
  }

  lemma {:induction false} ProjectRetryKeeps(cfg: Config, w: World, place: Place) returns (next: Place)
    requires Inv(cfg, w, place) && Enabled(cfg, w, ProjectRetry)
    ensures Inv(cfg, Delivery.Perform(cfg, w, ProjectRetry), next)
    ensures if IsRetried(w.log[w.retryCursor]) then place.RetryPending? && next.TimerPending? else next == place
  {
    hide Parse, LogOk, Expected;
    var e := w.log[w.retryCursor];
    AheadAdvance(w.log, w.retryCursor, IsRetried, place.RetryPending?);
    next := if IsRetried(e) then TimerPending else place;
  }

  lemma {:induction false} CompletionIsLast(log: seq<Event>)
    requires !Parse(log).stage.Malformed? && Parse(log).stage.Finished?
    ensures log != [] && log[|log| - 1] == Parse(log).stage.completion && log[|log| - 1].WorkflowCompleted?
  {
    EndEvents(log);
    MalformedStays(Parse(log[..|log| - 1]), log[|log| - 1]);
  }

  lemma {:induction false} ProjectResultKeeps(cfg: Config, w: World, place: Place)
    requires Inv(cfg, w, place) && Enabled(cfg, w, ProjectResult)
    ensures Inv(cfg, Delivery.Perform(cfg, w, ProjectResult), place)
  {
    hide Parse, ChainAllowed, Follows, Expected;
    var e := w.log[w.resultCursor];
    if e.WorkflowCompleted? {
      CompletedIsLast(w.log, w.resultCursor);
    }
    if Parse(w.log).stage.Finished? {
      CompletionIsLast(w.log);
    }
  }

  // ---------------------------------------------------------------------------------------------
  // Retries and activities
  // ---------------------------------------------------------------------------------------------

  /** The events of the open call are in the log, and all are about one activity. */
  lemma {:induction false} OpenCall(log: seq<Event>)
    requires !Parse(log).stage.Malformed? && Parse(log).stage.Busy?
    ensures var stage := Parse(log).stage;
      && log != [] && OpenBlock(stage.schedule, stage.retries) && Known(log, stage.schedule)
      && forall e :: e in stage.retries ==> e in log
  {
    hide RenderAll;
    SchedulesKnown(log);
    ParseSound(log);
    var stage := Parse(log).stage;
    var front := [log[0]] + RenderAll(Parse(log).blocks);
    assert log == front + ([stage.schedule] + stage.retries);
    forall e | e in stage.retries ensures e in log {
      var j :| 0 <= j < |stage.retries| && stage.retries[j] == e;
      assert log[|front| + 1 + j] == e;
    }
  }

  /** What the current task carries: the next attempt number and the payload of that attempt. */
  lemma {:induction false} CurrentTask(cfg: Config, log: seq<Event>, t: ActivityTask)
    requires LogOk(cfg, log) && Parse(log).stage.Busy?
    requires IsCurrentTask(log, Parse(log).stage.schedule, Parse(log).stage.retries, t)
    ensures var stage := Parse(log).stage;
      && (t.id, t.workflowFn, t.activityFn) == (cfg.id, cfg.workflowFn, stage.schedule.ActivityName())
      && t.attempt == AttemptNumber(|stage.retries|)
      && t.input == InputOf(PayloadOf(log, stage.schedule, |stage.retries|))
      && t.policy == PolicyOf(PayloadOf(log, stage.schedule, |stage.retries|))
  {
    hide Parse, Follows, FirstSchedule;
    OpenCall(log);
    var stage := Parse(log).stage;
    assert stage.schedule in log;
    if stage.retries != [] {
      var j := |stage.retries| - 1;
      assert stage.retries[j] in stage.retries;
      assert RetryAllowed(log, stage.schedule, j, stage.retries[j]);
    }
  }

  lemma {:induction false} RetriedIsAllowed(log: seq<Event>, schedule: Event, j: nat, t: ActivityTask, error: string,
                                            nowMs: int, outOfRange: int)
    requires ShouldRetry(t, error, nowMs, outOfRange)
    requires t.attempt == AttemptNumber(j) && t.policy == PolicyOf(PayloadOf(log, schedule, j))
    ensures RetryAllowed(log, schedule, j, AttemptEvent(t, Failed(error), nowMs, outOfRange))
  {
    hide Backoff, RetryDelay, PayloadOf;
  }

  /** What one attempt appends, and that it is accounted for. */
  lemma {:induction false} AttemptAppends(cfg: Config, log: seq<Event>, t: ActivityTask, outcome: Outcome,
                                          nowMs: int, outOfRange: int) returns (e: Event)
    requires LogOk(cfg, log) && Parse(log).stage.Busy?
    requires IsCurrentTask(log, Parse(log).stage.schedule, Parse(log).stage.retries, t)
    ensures e == AttemptEvent(t, outcome, nowMs, outOfRange) && (e.IsOutcome() || e.ActivityRetried?)
    ensures LogOk(cfg, log + [e])
    ensures Expected(log + [e]) == Expected(log) + [AttemptAt(t, outcome)]
    ensures var s, stage := Parse(log), Parse(log).stage;
      Parse(log + [e]) ==
        if e.ActivityRetried? then s.(stage := Busy(stage.schedule, stage.retries + [e]))
        else Story(s.blocks + [Block(stage.schedule, stage.retries, e)], Idle)
  {
    hide Parse, LogOk, Expected, ShouldRetry, RetryDelay, PayloadOf, AttemptNumber;
    CurrentTask(cfg, log, t);
    var stage := Parse(log).stage;
    e := AttemptEvent(t, outcome, nowMs, outOfRange);
    if e.ActivityRetried? {
      RetriedIsAllowed(log, stage.schedule, |stage.retries|, t, outcome.error, nowMs, outOfRange);
      RetryLogOk(cfg, log, e);
    } else {
      OutcomeLogOk(cfg, log, e);
    }
  }

  ghost function OutcomeOfRun(cfg: Config, w: World, s: Step): Outcome
    requires s.RunActivity? && Enabled(cfg, w, s)
  {
    AttemptOutcome(cfg.activities, w.activityTasks[s.i], s.returned)
  }

  lemma {:induction false} RunActivityKeeps(cfg: Config, w: World, place: Place, s: Step) returns (next: Place)
    requires Inv(cfg, w, place) && s.RunActivity? && Enabled(cfg, w, s)
    ensures Inv(cfg, Delivery.Perform(cfg, w, s), next) && !next.Gone?
    ensures place.ActivityQueued? && (next.WakePending? || next.RetryPending?)
    ensures Delivery.Perform(cfg, w, s).log
         == w.log + [AttemptEvent(w.activityTasks[0], OutcomeOfRun(cfg, w, s), s.nowMs, s.outOfRange)]
  {
    hide Parse, LogOk, Expected, AttemptEvent, Streams, IsCurrentTask, ResultOk, LastAttemptLost;
    var e := AttemptAppends(cfg, w.log, w.activityTasks[0], OutcomeOfRun(cfg, w, s), s.nowMs, s.outOfRange);
    next := if e.ActivityRetried? then RetryPending else WakePending;
    StreamsAppend(w, place, e, Delivery.Perform(cfg, w, s), next);
  }

  /** A retry task that is found is the one the open call needs. */
  lemma {:induction false} TimerTask(cfg: Config, log: seq<Event>, stampMs: int)
    requires LogOk(cfg, log) && Parse(log).stage.Busy? && Parse(log).stage.retries != []
    ensures var stage := Parse(log).stage;
      var e := stage.retries[|stage.retries| - 1];
      && e.ActivityRetried?
      && (RetryTaskFor(log, e, stampMs).Some? ==>
            IsCurrentTask(log, stage.schedule, stage.retries, RetryTaskFor(log, e, stampMs).value))
  {
    hide Parse, FirstSchedule;
    OpenCall(log);
    var stage := Parse(log).stage;
    var e := stage.retries[|stage.retries| - 1];
    assert e in stage.retries;
    if RetryTaskFor(log, e, stampMs).Some? {
      FirstScheduleStable(Window(log), log, e.activityFn);
    }
  }

  lemma {:induction false} FireTimerKeeps(cfg: Config, w: World, place: Place, s: Step) returns (next: Place)
    requires Inv(cfg, w, place) && s.FireTimer? && Enabled(cfg, w, s)
    ensures Inv(cfg, Delivery.Perform(cfg, w, s), next) && place.TimerPending?
    ensures next == if RetryTaskFor(w.log, w.timers[s.i], s.stampMs).Some? then ActivityQueued else Gone
  {
    hide Parse, LogOk, Expected, RetryTaskFor, IsCurrentTask;
    var stage := Parse(w.log).stage;
    var e := w.timers[0];
    next := Gone;
    if RetryTaskFor(w.log, e, s.stampMs).Some? {
      next := ActivityQueued;
      TimerTask(cfg, w.log, s.stampMs);
    }
  }

  // ---------------------------------------------------------------------------------------------
  // Workflow tasks
  // ---------------------------------------------------------------------------------------------

  /** What one run of the workflow's task appends: one event, and what it means for the story. */
  lemma {:induction false} TaskAppends(cfg: Config, log: seq<Event>, n: nat, clock: nat -> int) returns (e: Event)
    requires ValidConfig(cfg) && LogOk(cfg, log) && (Parse(log).stage.Idle? || Parse(log).stage.Broken?)
    requires TaskStops(cfg.registry, TaskOf(cfg), log, n)
    ensures RunTask(cfg.registry, TaskOf(cfg), log, n, clock) == TaskResult([e], e.WorkflowFailed?)
    ensures LogOk(cfg, log + [e]) && Expected(log + [e]) == Expected(log)
    ensures (e.ActivityScheduled? && Parse(log).stage.Idle? && Parse(log + [e]).stage == Busy(e, []))
      || (e.WorkflowCompleted? && Parse(log).stage.Idle? && Parse(log + [e]).stage == Finished(e))
      || (e.WorkflowFailed? && Parse(log + [e]).stage.Broken?)
    ensures Parse(log + [e]).blocks == Parse(log).blocks
  {
    hide Parse, ChainAllowed, Expected, RunN, FreshEvents, BlocksIssued, Issued;
    EndEvents(log);
    var task := TaskOf(cfg);
    match Resolve(cfg.registry, task)
    case Rejected(error) =>
      e := WorkflowFailed(cfg.id, cfg.workflowFn, error);
      EndLogOk(cfg, log, e);
    case Body(p) =>
      assert IdentityOf(log) == (cfg.id, cfg.workflowFn) by {
        assert log[|log| - 1] in log;
      }
      var r, next := TaskFollowsDirect(p, task, log, n, clock);
      var outs := Outcomes(Parse(log).blocks);
      assert EndsWith(p, outs, r.status);
      BrokenEndsAlike(cfg, p, log, r.status);
      if r.status.Suspended? {
        e := next;
        ScheduleLogOk(cfg, log, e);
      } else {
        e := FinalEvents(task, r.status)[0];
        assert FinalEvents(task, r.status) == [e];
        EndLogOk(cfg, log, e);
      }
  }

  /** A workflow that has failed fails again the same way. */
  lemma {:induction false} BrokenEndsAlike(cfg: Config, p: Program, log: seq<Event>, status: Status)
    requires Resolve(cfg.registry, TaskOf(cfg)) == Body(p)
    requires LogOk(cfg, log) && EndsWith(p, Outcomes(Parse(log).blocks), status)
    ensures Parse(log).stage.Broken? ==> FinalEvents(TaskOf(cfg), status) == [Parse(log).stage.failure]
  {
    hide Parse, ChainAllowed, RunN, BlocksIssued, Resolve;
    var outs := Outcomes(Parse(log).blocks);
    if Parse(log).stage.Broken? {
      var other :| EndsWith(p, outs, other) && FinalEvents(TaskOf(cfg), other) == [Parse(log).stage.failure];
      EndsOnce(p, outs, status, other);
    }
  }

  lemma {:induction false} EndsOnce(p: Program, outs: seq<Outcome>, s: Status, t: Status)
    requires EndsWith(p, outs, s) && EndsWith(p, outs, t)
    ensures s == t
  {
    hide RunN;
    var m: nat :| Stopped(RunN(p, Direct(outs), m)) && RunN(p, Direct(outs), m).status == s;
    var n: nat :| Stopped(RunN(p, Direct(outs), n)) && RunN(p, Direct(outs), n).status == t;
    StopsOnce(p, Direct(outs), m, n);
  }

  lemma {:induction false} RunWorkflowKeeps(cfg: Config, w: World, place: Place, s: Step) returns (next: Place)
    requires ValidConfig(cfg) && Inv(cfg, w, place) && s.RunWorkflow? && Enabled(cfg, w, s)
    ensures Inv(cfg, Delivery.Perform(cfg, w, s), next) && place.WorkflowQueued?
    ensures next.SchedulePending? || (next.WorkflowQueued? && Parse(Delivery.Perform(cfg, w, s).log).stage.Broken?)
      || (next.Gone? && Parse(Delivery.Perform(cfg, w, s).log).stage.Finished?)
  {
    hide Parse, LogOk, Expected, RunTask, TaskStops, Streams, ResultOk, LastAttemptLost;
    var e := TaskAppends(cfg, w.log, s.n, s.clock);
    next := if e.ActivityScheduled? then SchedulePending else if e.WorkflowFailed? then WorkflowQueued else Gone;
    StreamsAppend(w, place, e, Delivery.Perform(cfg, w, s), next);
  }

  // ---------------------------------------------------------------------------------------------
  // Every step
  // ---------------------------------------------------------------------------------------------

  /** A crash between acknowledgement and effect, or a retry whose lookup finds nothing. */
  predicate Loses(w: World, s: Step) {
    || s.LoseWorkflowTask? || s.LoseActivityTask? || s.LoseTimer?
    || (s.FireTimer? && s.i < |w.timers| && w.timers[s.i].ActivityRetried?
        && RetryTaskFor(w.log, w.timers[s.i], s.stampMs).None?)
  }

  lemma {:induction false} LossKeeps(cfg: Config, w: World, place: Place, s: Step)
    requires Inv(cfg, w, place) && Enabled(cfg, w, s)
    requires s.LoseWorkflowTask? || s.LoseTimer? || (s.LoseActivityTask? && s.attempted.None?)
    ensures Inv(cfg, Delivery.Perform(cfg, w, s), Gone)
  {
    hide Parse, LogOk, Expected, IsCurrentTask;
  }

  lemma {:induction false} AttemptLossKeeps(cfg: Config, w: World, place: Place, s: Step)
    requires Inv(cfg, w, place) && Enabled(cfg, w, s) && s.LoseActivityTask? && s.attempted.Some?
    ensures Inv(cfg, Delivery.Perform(cfg, w, s), Gone)
  {
    hide Parse, LogOk, Expected, IsCurrentTask, PayloadOf, AttemptNumber;
    CurrentTask(cfg, w.log, w.activityTasks[0]);
    var stage := Parse(w.log).stage;
    var outcome := AttemptOutcome(cfg.activities, w.activityTasks[0], s.attempted.value);
    assert AttemptAt(w.activityTasks[0], outcome) == Attempt(w.log, stage.schedule, |stage.retries|, outcome);
  }

  /** Every step keeps the invariant; without a loss, the token is gone only once the workflow has
      completed. */
  lemma {:induction false} StepKeeps(cfg: Config, w: World, place: Place, s: Step) returns (next: Place)
    requires ValidConfig(cfg) && Inv(cfg, w, place) && Enabled(cfg, w, s)
    ensures Inv(cfg, Delivery.Perform(cfg, w, s), next)
    ensures next.Gone? ==> place.Gone? || Loses(w, s) || Parse(Delivery.Perform(cfg, w, s).log).stage.Finished?
  {
    hide Parse, Inv, RetryTaskFor, RunTask, AttemptEvent, WorkflowTaskFor;
    match s
    case ProjectWorkflow => next := ProjectWorkflowKeeps(cfg, w, place);
    case ProjectActivity(nowMs) => next := ProjectActivityKeeps(cfg, w, place, nowMs);
    case ProjectRetry => next := ProjectRetryKeeps(cfg, w, place);
    case ProjectResult => next := place; ProjectResultKeeps(cfg, w, place);
    case FireTimer(_, _) => next := FireTimerKeeps(cfg, w, place, s);
    case RunWorkflow(_, _, _) => next := RunWorkflowKeeps(cfg, w, place, s);
    case RunActivity(_, _, _, _) => next := RunActivityKeeps(cfg, w, place, s);
    case NakActivity(_) => next := place;
    case LoseActivityTask(_, Some(_)) => next := Gone; AttemptLossKeeps(cfg, w, place, s);
    case _ => next := Gone; LossKeeps(cfg, w, place, s);
  }

  /** Nothing is lost in the first `k` steps of a run. */
  ghost predicate Lossless(states: seq<World>, steps: seq<Step>, k: nat) {
    forall j :: 0 <= j < k && j < |steps| && j < |states| ==> !Loses(states[j], steps[j])
  }

  /** The invariant holds in every state of every run. */
  lemma {:induction false} AlwaysInv(cfg: Config, states: seq<World>, steps: seq<Step>, k: nat) returns (place: Place)
    requires ValidConfig(cfg) && Behavior(cfg, states, steps) && k < |states|
    ensures Inv(cfg, states[k], place)
    ensures Lossless(states, steps, k) && place.Gone? ==> Parse(states[k].log).stage.Finished?
  {
    hide Parse, Inv, Delivery.Perform, Loses, Enabled;
    if k == 0 {
      place := WakePending;
      InvAtStart(cfg);
    } else {
      var before := AlwaysInv(cfg, states, steps, k - 1);
      place := StepKeeps(cfg, states[k - 1], before, steps[k - 1]);
      if Parse(states[k - 1].log).stage.Finished? {
        FinishedStays(cfg, states[k - 1], before, steps[k - 1]);
      }
    }
  }

  /** Nothing is appended to a finished log. */
  lemma {:induction false} FinishedStays(cfg: Config, w: World, place: Place, s: Step)
    requires Inv(cfg, w, place) && Enabled(cfg, w, s) && Parse(w.log).stage.Finished?
    ensures place.Gone? && Delivery.Perform(cfg, w, s).log == w.log
  {
    hide Parse, LogOk, Expected, RunTask, AttemptEvent, RetryTaskFor, WorkflowTaskFor, TaskStops, Streams;
    assert w.workflowTasks == [] && w.activityTasks == [];
  }

  // ---------------------------------------------------------------------------------------------
  // Token conservation
  // ---------------------------------------------------------------------------------------------

  ghost function CountAhead(log: seq<Event>, cursor: nat, kind: Event -> bool): nat
    requires cursor <= |log|
    decreases |log| - cursor
  {
    if cursor == |log| then 0
    else (if kind(log[cursor]) then 1 else 0) + CountAhead(log, cursor + 1, kind)
  }

  lemma {:induction false} CountOfAhead(log: seq<Event>, cursor: nat, kind: Event -> bool, here: bool)
    requires cursor <= |log| && Ahead(log, cursor, kind, here)
    ensures CountAhead(log, cursor, kind) == if here then 1 else 0
    decreases |log| - cursor
  {
    if cursor < |log| {
      AheadAdvance(log, cursor, kind, here);
      CountOfAhead(log, cursor + 1, kind, here && !kind(log[cursor]));
    }
  }

  /** Everything that can still make the workflow move: unprojected wake-ups, schedules and retried
      events, queued tasks, and sleeping retries. */
  ghost function Tokens(w: World): nat
    requires w.workflowCursor <= |w.log| && w.activityCursor <= |w.log| && w.retryCursor <= |w.log|
  {
    CountAhead(w.log, w.workflowCursor, IsWake)
      + CountAhead(w.log, w.activityCursor, IsScheduled)
      + CountAhead(w.log, w.retryCursor, IsRetried)
      + |w.workflowTasks| + |w.activityTasks| + |w.timers|
  }

  /** Token conservation: never two tokens; exactly one until the workflow completes, if nothing was
      lost; none afterwards. */
  lemma {:induction false} TokenConservation(cfg: Config, states: seq<World>, steps: seq<Step>, k: nat)
    requires ValidConfig(cfg) && Behavior(cfg, states, steps) && k < |states|
    ensures var w := states[k];
      && w.workflowCursor <= |w.log| && w.activityCursor <= |w.log| && w.retryCursor <= |w.log|
      && Tokens(w) <= 1
      && (Parse(w.log).stage.Finished? ==> Tokens(w) == 0)
      && (Lossless(states, steps, k) && !Parse(w.log).stage.Finished? ==> Tokens(w) == 1)
  {
    hide Parse, Delivery.Perform, Loses, Enabled, LogOk, Expected;
    var place := AlwaysInv(cfg, states, steps, k);
    var w := states[k];
    CountOfAhead(w.log, w.workflowCursor, IsWake, place.WakePending?);
    CountOfAhead(w.log, w.activityCursor, IsScheduled, place.SchedulePending?);
    CountOfAhead(w.log, w.retryCursor, IsRetried, place.RetryPending?);
  }
}
