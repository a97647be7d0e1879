/** What every run under exact delivery promises: the shape of the log, the attempts that were made,
    and that the result is the one a direct execution of the workflow would have produced. */
module Guarantees {
  import opened Api
  import opened History
  import opened Futures
  import opened Workflows
  import opened Runs
  import opened Worker
  import opened Projection
  import opened Sequential
  import opened Story
  import opened Attempts
  import opened DirectExecution
  import opened Delivery
  import opened Tokens

  /** The log is Started, then one block Scheduled Retried* Outcome for each finished call, then the
      open call or the end; and every event names the workflow it belongs to. */
  lemma {:induction false} HistoryGrammar(cfg: Config, states: seq<World>, steps: seq<Step>, k: nat)
    requires ValidConfig(cfg) && Behavior(cfg, states, steps) && k < |states|
    ensures var log := states[k].log;
      var story := Parse(log);
      && WellFormedStory(story)
      && log == [WorkflowStarted(cfg.id, cfg.workflowFn, cfg.input)] + RenderAll(story.blocks) + Tail(story.stage)
      && forall e :: e in log ==> (e.id, e.workflowFn) == (cfg.id, cfg.workflowFn)
  {
    hide Parse, Delivery.Perform, Expected, Follows, ChainAllowed, RenderAll, Tail, WellFormedStory;
    var _ := AlwaysInv(cfg, states, steps, k);
    ParseSound(states[k].log);
  }

  // ---------------------------------------------------------------------------------------------
  // Attempts
  // ---------------------------------------------------------------------------------------------

  /** A worker that dies after it has made an attempt and acknowledged the task. */
  predicate LosesAttempt(s: Step) { s.LoseActivityTask? && s.attempted.Some? }

  lemma {:induction false} StepAccounts(cfg: Config, w: World, place: Place, s: Step)
    requires ValidConfig(cfg) && Inv(cfg, w, place) && Enabled(cfg, w, s) && w.attempts == Expected(w.log)
    ensures var after := Delivery.Perform(cfg, w, s); after.attempts == Expected(after.log) <==> !LosesAttempt(s)
  {
    hide Parse, LogOk, Expected, RunTask, AttemptEvent, RetryTaskFor, WorkflowTaskFor, Streams, Queues, StageFits;
    match s
    case RunWorkflow(_, _, _) => var next := RunWorkflowKeeps(cfg, w, place, s);
    case RunActivity(_, _, _, _) => var next := RunActivityKeeps(cfg, w, place, s);
    case _ =>
  }

  /** Once the token is gone, no step changes the log or makes an attempt. */
  lemma {:induction false} GoneStays(cfg: Config, w: World, place: Place, s: Step)
    requires Inv(cfg, w, place) && Enabled(cfg, w, s) && place.Gone?
    ensures var after := Delivery.Perform(cfg, w, s);
      after.log == w.log && after.attempts == w.attempts && after.bodies == w.bodies && !LosesAttempt(s)
  {
    hide Parse, LogOk, Expected, RunTask, AttemptEvent, RetryTaskFor, WorkflowTaskFor, Streams, StageFits;
  }

  /** The attempts made are, in order, exactly those the log testifies to, if and only if no worker died
      between an attempt and its save. If one did, its attempt is the only one unrecorded. */
  lemma {:induction false} AttemptsAreRecorded(cfg: Config, states: seq<World>, steps: seq<Step>, k: nat)
    requires ValidConfig(cfg) && Behavior(cfg, states, steps) && k < |states|
    ensures states[k].attempts == Expected(states[k].log) <==> forall j :: 0 <= j < k ==> !LosesAttempt(steps[j])
    ensures states[k].attempts == Expected(states[k].log) || LastAttemptLost(states[k])
  {
    hide Parse, Delivery.Perform, Expected, LogOk, Streams, Queues, StageFits, ResultOk, LastAttemptLost;
    var _ := AlwaysInv(cfg, states, steps, k);
    if k == 0 {
      StartLogOk(cfg);
    } else {
      AttemptsAreRecorded(cfg, states, steps, k - 1);
      var before := AlwaysInv(cfg, states, steps, k - 1);
      if states[k - 1].attempts == Expected(states[k - 1].log) {
        StepAccounts(cfg, states[k - 1], before, steps[k - 1]);
      } else {
        GoneStays(cfg, states[k - 1], before, steps[k - 1]);
      }
    }
  }

  // ---------------------------------------------------------------------------------------------
  // Bodies
  // ---------------------------------------------------------------------------------------------

  /** The attempts whose input fitted, in order. */
  function Ran(activities: ActivityRegistry, attempts: seq<Invocation>): (r: seq<Invocation>)
    ensures |r| <= |attempts|
  {
    if attempts == [] then []
    else
      var last := attempts[|attempts| - 1];
      Ran(activities, attempts[..|attempts| - 1]) + if Fits(activities, last.activityFn, last.input) then [last] else []
  }

  lemma {:induction false} RanConcat(activities: ActivityRegistry, a: seq<Invocation>, b: seq<Invocation>)
    ensures Ran(activities, a + b) == Ran(activities, a) + Ran(activities, b)
  {
    if b == [] {
      assert a + b == a;
    } else {
      var init := b[..|b| - 1];
      assert (a + b)[..|a + b| - 1] == a + init;
      RanConcat(activities, a, init);
    }
  }

  /** An attempt whose input did not fit has failed with the reason. */
  predicate Settled(activities: ActivityRegistry, t: Invocation) {
    && t.activityFn in activities
    && (activities[t.activityFn].convert(t.input).Some? ==>
          t.outcome == Failed(activities[t.activityFn].convert(t.input).value))
  }

  ghost predicate BodiesOk(cfg: Config, w: World) {
    w.bodies == Ran(cfg.activities, w.attempts) && forall t :: t in w.attempts ==> Settled(cfg.activities, t)
  }

  lemma {:induction false} AttemptSettles(cfg: Config, w: World, i: nat, returned: Outcome)
    requires BodiesOk(cfg, w) && i < |w.activityTasks| && w.activityTasks[i].activityFn in cfg.activities
    ensures BodiesOk(cfg, Attempted(cfg, w, i, returned))
  {
    var after := Attempted(cfg, w, i, returned);
    assert after.attempts[..|w.attempts|] == w.attempts;
  }

  lemma {:induction false} AlwaysBodiesOk(cfg: Config, states: seq<World>, steps: seq<Step>, k: nat)
    requires Behavior(cfg, states, steps) && k < |states|
    ensures BodiesOk(cfg, states[k])
  {
    hide BodiesOk, Attempted, RunTask, AttemptEvent, AttemptOutcome, RetryTaskFor, WorkflowTaskFor;
    if k == 0 {
      NoBodiesYet(cfg);
    } else {
      AlwaysBodiesOk(cfg, states, steps, k - 1);
      StepKeepsBodies(cfg, states[k - 1], steps[k - 1]);
    }
  }

  lemma {:induction false} NoBodiesYet(cfg: Config)
    ensures BodiesOk(cfg, Start(cfg))
  {
  }

  lemma {:induction false} StepKeepsBodies(cfg: Config, w: World, s: Step)
    requires BodiesOk(cfg, w) && Enabled(cfg, w, s)
    ensures BodiesOk(cfg, Delivery.Perform(cfg, w, s))
  {
    hide Ran, Settled, Attempted, RunTask, TaskStops, AttemptEvent, AttemptOutcome, RetryTaskFor, WorkflowTaskFor;
    match s
    case RunActivity(i, returned, _, _) => AttemptSettles(cfg, w, i, returned);
    case LoseActivityTask(i, Some(returned)) => AttemptSettles(cfg, w, i, returned);
    case _ =>
  }

  /** A lost attempt that had called the activity's body. */
  ghost predicate LosesBody(cfg: Config, w: World, s: Step) {
    LosesAttempt(s) && s.i < |w.activityTasks|
    && Fits(cfg.activities, w.activityTasks[s.i].activityFn, w.activityTasks[s.i].input)
  }

  /** The activity bodies that ran are, in order, those of the recorded attempts whose input fitted, if
      and only if no worker died between a body and its save; every other attempt failed with the
      reason its input did not fit. At most one body is ever unrecorded. */
  lemma {:induction false} BodiesRunAreRecorded(cfg: Config, states: seq<World>, steps: seq<Step>, k: nat)
    requires ValidConfig(cfg) && Behavior(cfg, states, steps) && k < |states|
    ensures states[k].bodies == Ran(cfg.activities, Expected(states[k].log))
      <==> forall j :: 0 <= j < k ==> !LosesBody(cfg, states[j], steps[j])
    ensures |states[k].bodies| <= |Ran(cfg.activities, Expected(states[k].log))| + 1
    ensures forall t :: t in states[k].attempts ==> Settled(cfg.activities, t)
  {
    hide Parse, Delivery.Perform, Enabled, Expected, LogOk, Streams, Queues, StageFits, ResultOk;
    hide Ran, LosesBody, Settled;
    AlwaysBodiesOk(cfg, states, steps, k);
    AttemptsAreRecorded(cfg, states, steps, k);
    UnrecordedBody(cfg, states[k]);
    if k == 0 {
      StartLogOk(cfg);
    } else {
      BodiesRunAreRecorded(cfg, states, steps, k - 1);
      AlwaysBodiesOk(cfg, states, steps, k - 1);
      var before := AlwaysInv(cfg, states, steps, k - 1);
      if states[k - 1].attempts == Expected(states[k - 1].log) {
        LostBody(cfg, states[k - 1], before, steps[k - 1]);
      } else {
        GoneStays(cfg, states[k - 1], before, steps[k - 1]);
        BodyIsAttempt(cfg, states[k - 1], steps[k - 1]);
      }
    }
  }

  lemma {:induction false} BodyIsAttempt(cfg: Config, w: World, s: Step)
    ensures LosesBody(cfg, w, s) ==> LosesAttempt(s)
  {
  }

  lemma {:induction false} UnrecordedBody(cfg: Config, w: World)
    requires BodiesOk(cfg, w) && (w.attempts == Expected(w.log) || LastAttemptLost(w))
    ensures |w.bodies| <= |Ran(cfg.activities, Expected(w.log))| + 1
  {
    hide Expected, Parse, Attempt;
    if w.attempts != Expected(w.log) {
      RanConcat(cfg.activities, Expected(w.log), [w.attempts[|w.attempts| - 1]]);
    }
  }

  lemma {:induction false} LostBody(cfg: Config, w: World, place: Place, s: Step)
    requires ValidConfig(cfg) && Inv(cfg, w, place) && Enabled(cfg, w, s)
    requires BodiesOk(cfg, w) && w.attempts == Expected(w.log)
    ensures var after := Delivery.Perform(cfg, w, s);
      after.bodies == Ran(cfg.activities, Expected(after.log)) <==> !LosesBody(cfg, w, s)
  {
    hide Parse, Inv, Expected, RunTask, AttemptEvent, AttemptOutcome, RetryTaskFor, WorkflowTaskFor, Ran, Settled;
    StepAccounts(cfg, w, place, s);
    StepKeepsBodies(cfg, w, s);
  }

  lemma {:induction false} RetriedAttemptsAt(log: seq<Event>, schedule: Event, retries: seq<Event>)
    ensures var r := RetriedAttempts(log, schedule, retries);
      && |r| == |retries|
      && forall j: nat :: j < |r| ==> r[j] == Attempt(log, schedule, j, Failed(ErrorOf(retries[j])))
  {
    if retries != [] {
      var init := retries[..|retries| - 1];
      RetriedAttemptsAt(log, schedule, init);
      forall j: nat | j < |init| ensures ErrorOf(init[j]) == ErrorOf(retries[j]) {
      }
    }
  }

  /** Call `i` of the story, finished or still open. */
  ghost predicate IsCall(s: Story, i: nat, schedule: Event, retries: seq<Event>) {
    || (i < |s.blocks| && s.blocks[i].schedule == schedule && s.blocks[i].retries == retries)
    || (i == |s.blocks| && s.stage == Busy(schedule, retries))
  }

  /** The attempts at the first `i` blocks come first. */
  lemma {:induction false} AttemptsBefore(log: seq<Event>, blocks: seq<Block>, i: nat) returns (rest: seq<Invocation>)
    requires i <= |blocks|
    ensures AllAttempts(log, blocks) == AllAttempts(log, blocks[..i]) + rest
  {
    hide BlockAttempts;
    if i == |blocks| {
      assert blocks[..i] == blocks;
      rest := [];
    } else {
      var init := blocks[..|blocks| - 1];
      var more := AttemptsBefore(log, init, i);
      assert init[..i] == blocks[..i];
      var last := BlockAttempts(log, blocks[|blocks| - 1]);
      assert (AllAttempts(log, blocks[..i]) + more) + last == AllAttempts(log, blocks[..i]) + (more + last);
      rest := more + last;
    }
  }

  /** Whatever follows the attempts at the finished calls is about the open call. */
  lemma {:induction false} OpenAttempts(w: World) returns (open: seq<Invocation>)
    requires w.attempts == Expected(w.log) || LastAttemptLost(w)
    ensures w.attempts == AllAttempts(w.log, Parse(w.log).blocks) + open
    ensures var stage := Parse(w.log).stage;
      stage.Busy? ==>
        var retried := RetriedAttempts(w.log, stage.schedule, stage.retries);
        || open == retried
        || exists outcome :: open == retried + [Attempt(w.log, stage.schedule, |stage.retries|, outcome)]
  {
    hide Parse, AllAttempts, RetriedAttempts, Attempt;
    var s := Parse(w.log);
    var finished := AllAttempts(w.log, s.blocks);
    open := w.attempts[|finished|..];
    if w.attempts != Expected(w.log) {
      var retried := RetriedAttempts(w.log, s.stage.schedule, s.stage.retries);
      var outcome :| w.attempts == Expected(w.log) + [Attempt(w.log, s.stage.schedule, |s.stage.retries|, outcome)];
      assert open == retried + [Attempt(w.log, s.stage.schedule, |s.stage.retries|, outcome)];
    }
  }

  lemma {:induction false} FinishedAttempts(log: seq<Event>, blocks: seq<Block>, i: nat, open: seq<Invocation>)
    returns (after: seq<Invocation>)
    requires i < |blocks|
    ensures AllAttempts(log, blocks) + open
         == AllAttempts(log, blocks[..i]) + BlockAttempts(log, blocks[i]) + after
  {
    hide AllAttempts, BlockAttempts;
    var rest := AttemptsBefore(log, blocks, i + 1);
    OneMoreBlock(log, blocks, i);
    after := rest + open;
  }

  /** The attempts made at call `i`, in the history of all attempts: those at the calls before it, its
      own, and those at later calls. */
  lemma {:induction false} AttemptsOfCall(w: World, i: nat, schedule: Event, retries: seq<Event>)
    returns (before: seq<Invocation>, made: seq<Invocation>, after: seq<Invocation>)
    requires w.attempts == Expected(w.log) || LastAttemptLost(w)
    requires IsCall(Parse(w.log), i, schedule, retries)
    ensures w.attempts == before + made + after && before == AllAttempts(w.log, Parse(w.log).blocks[..i])
    ensures i == |Parse(w.log).blocks| ==> after == []
    ensures var retried := RetriedAttempts(w.log, schedule, retries);
      || (made == retried && i == |Parse(w.log).blocks|)
      || exists outcome :: made == retried + [Attempt(w.log, schedule, |retries|, outcome)]
  {
    hide Parse, AllAttempts, RetriedAttempts, Attempt, Expected, LastAttemptLost;
    var blocks := Parse(w.log).blocks;
    var open := OpenAttempts(w);
    before := AllAttempts(w.log, blocks[..i]);
    if i < |blocks| {
      made := BlockAttempts(w.log, blocks[i]);
      after := FinishedAttempts(w.log, blocks, i, open);
    } else {
      assert blocks[..i] == blocks;
      made, after := open, [];
    }
  }

  lemma {:induction false} OneMoreBlock(log: seq<Event>, blocks: seq<Block>, i: nat)
    requires i < |blocks|
    ensures AllAttempts(log, blocks[..i + 1]) == AllAttempts(log, blocks[..i]) + BlockAttempts(log, blocks[i])
  {
    assert blocks[..i + 1][..i] == blocks[..i];
  }

  /** The attempt chain of a call: its attempts are numbered 1, 2, 3 and so on, every retried event
      carries the number of the attempt that failed, and there are at most as many as the policy allows,
      even if a worker died after the last one, provided the policy the retries are rebuilt with is the
      call's own. The bodies that ran for the call are those of its attempts whose input fitted. */
  lemma {:induction false} AttemptChain(cfg: Config, states: seq<World>, steps: seq<Step>, k: nat, i: nat,
                                        schedule: Event, retries: seq<Event>, policy: RetryPolicy)
    returns (before: seq<Invocation>, made: seq<Invocation>, after: seq<Invocation>)
    requires ValidConfig(cfg) && Behavior(cfg, states, steps) && k < |states|
    requires IsCall(Parse(states[k].log), i, schedule, retries)
    requires PolicyOf(schedule) == PolicyOf(PayloadOf(states[k].log, schedule, 1)) == Some(policy)
    requires 0 < policy.maximumAttempts < 0x8000_0000
    ensures states[k].attempts == before + made + after
    ensures before == AllAttempts(states[k].log, Parse(states[k].log).blocks[..i])
    ensures i == |Parse(states[k].log).blocks| ==> after == []
    ensures |retries| <= |made| <= |retries| + 1 <= policy.maximumAttempts
    ensures i < |Parse(states[k].log).blocks| ==> |made| == |retries| + 1
    ensures forall j: nat :: j < |made| ==> made[j].attempt == j + 1 && made[j].activityFn == schedule.ActivityName()
    ensures forall j: nat :: j < |retries| ==> retries[j].ActivityRetried? && retries[j].attempt == j + 1
    ensures states[k].bodies
         == Ran(cfg.activities, before) + Ran(cfg.activities, made) + Ran(cfg.activities, after)
  {
    hide Parse, Delivery.Perform, Expected, Follows, PayloadOf, AttemptNumber, RetriesAllowed, LastAttemptLost, Ran;
    var _ := AlwaysInv(cfg, states, steps, k);
    before, made, after := AttemptsOfCall(states[k], i, schedule, retries);
    AttemptsNumbered(states[k].log, i, schedule, retries, policy, made);
    AlwaysBodiesOk(cfg, states, steps, k);
    RanConcat(cfg.activities, before, made);
    RanConcat(cfg.activities, before + made, after);
  }

  lemma {:induction false} AttemptsNumbered(log: seq<Event>, i: nat, schedule: Event, retries: seq<Event>,
                                            policy: RetryPolicy, made: seq<Invocation>)
    requires ChainAllowed(log) && IsCall(Parse(log), i, schedule, retries)
    requires PolicyOf(schedule) == PolicyOf(PayloadOf(log, schedule, 1)) == Some(policy)
    requires 0 < policy.maximumAttempts < 0x8000_0000
    requires var retried := RetriedAttempts(log, schedule, retries);
      made == retried || exists outcome :: made == retried + [Attempt(log, schedule, |retries|, outcome)]
    ensures |RetriedAttempts(log, schedule, retries)| == |retries| <= |made| <= |retries| + 1 <= policy.maximumAttempts
    ensures forall j: nat :: j < |made| ==> made[j].attempt == j + 1 && made[j].activityFn == schedule.ActivityName()
    ensures forall j: nat :: j < |retries| ==> retries[j].ActivityRetried? && retries[j].attempt == j + 1
  {
    hide Parse, PayloadOf, AttemptNumber, RetriesAllowed, ChainAllowed;
    CallAllowed(log, i, schedule, retries);
    AttemptsBounded(log, schedule, retries, policy);
    RetriedAttemptsAt(log, schedule, retries);
    forall j: nat | j <= |retries| ensures AttemptNumber(j) == j + 1 {
      AttemptNumberCounts(j);
    }
  }

  lemma {:induction false} CallAllowed(log: seq<Event>, i: nat, schedule: Event, retries: seq<Event>)
    requires ChainAllowed(log) && IsCall(Parse(log), i, schedule, retries)
    ensures RetriesAllowed(log, schedule, retries)
  {
    hide Parse, RetriesAllowed;
    if i < |Parse(log).blocks| {
      assert Parse(log).blocks[i] in Parse(log).blocks;
    }
  }

  // ---------------------------------------------------------------------------------------------
  // End to end
  // ---------------------------------------------------------------------------------------------

  /** Retries take their input from the first schedule of the name. */
  predicate RetriedWithOwnInput(log: seq<Event>, b: Block) {
    b.retries == [] || (
      var first := FirstSchedule(log, b.schedule.ActivityName());
      first.Some? && log[first.value].input == InputOf(b.schedule))
  }

  /** The last attempt of a call produced its outcome. It ran with the call's own arguments exactly
      when the call was never retried or the first call of its name had the same arguments. */
  lemma {:induction false} FinalAttempt(log: seq<Event>, b: Block)
    requires Known(log, b.schedule)
    ensures var attempts := BlockAttempts(log, b);
      && |attempts| == |b.retries| + 1
      && attempts[|b.retries|].activityFn == b.schedule.ActivityName()
      && attempts[|b.retries|].outcome == OutcomeOf(b.outcome)
      && (attempts[|b.retries|].input == b.schedule.input <==> RetriedWithOwnInput(log, b))
  {
    hide FirstSchedule;
    KnownFirst(log, b.schedule);
    RetriedAttemptsAt(log, b.schedule, b.retries);
  }

  /** A direct execution that ends has made one call per block. */
  lemma {:induction false} OneCallPerBlock(p: Program, blocks: seq<Block>, n: nat)
    requires AwaitsAtOnce(p) && BlocksIssued(p, blocks)
    requires var r := RunN(p, Direct(Outcomes(blocks)), n); Stopped(r) && !r.status.Suspended?
    ensures var calls := RunN(p, Direct(Outcomes(blocks)), n).calls;
      && |calls| == |blocks| && NamesMatch(calls, blocks)
      && forall i: nat | i < |calls| :: Schedules(blocks[i].schedule, calls[i])
  {
    hide RunN, BlocksIssued, AwaitsAtOnce, CarriesOptions;
    var a := Direct(Outcomes(blocks));
    var calls := RunN(p, a, n).calls;
    SequentialShape(p, a, n);
    SuspendedCallCount(p, Outcomes(blocks), RunN(p, a, n));
    forall i: nat | i < |blocks|
      ensures i < |calls| && Schedules(blocks[i].schedule, calls[i])
    {
      var m, call := CallOfBlock(p, blocks, i);
      RunsBeforeStop(p, a, m, n);
      RunGrows(p, a, m, n);
      assert i < |calls|;
    }
    if blocks != [] {
      assert Schedules(blocks[|blocks| - 1].schedule, calls[|blocks| - 1]);
    }
  }

  /** Call `i` of run `r` was answered, and on replay of the log is answered, by the last of the attempts
      at block `i`. */
  ghost predicate AnsweredByFinalAttempt(log: seq<Event>, blocks: seq<Block>, r: Run, i: nat)
    requires i < |r.calls| && i < |blocks|
  {
    var attempts := BlockAttempts(log, blocks[i]);
    && attempts != []
    && var last := attempts[|attempts| - 1];
    && last.activityFn == r.calls[i].activityFn
    && Answer(Direct(Outcomes(blocks)), r.calls, i) == Resolved(last.outcome)
    && Answer(Replayed(log), r.calls, i) == Resolved(last.outcome)
    && (last.input == r.calls[i].args <==> RetriedWithOwnInput(log, blocks[i]))
  }

  /** End to end: a completed workflow has the result of one direct execution of the registered code on
      the started input, and the attempts made are, call by call, the attempts at the calls of that
      execution, each call answered by the outcome of its own last attempt; bodies ran for exactly those
      whose input fitted. Retries, suspensions and replays leave no other trace. The result entry holds
      that result: never another, and as soon as the result projector has read the log. */
  lemma {:induction false} EndToEnd(cfg: Config, states: seq<World>, steps: seq<Step>, k: nat)
    returns (p: Program, r: Run)
    requires ValidConfig(cfg) && Behavior(cfg, states, steps) && k < |states|
    requires Parse(states[k].log).stage.Finished?
    ensures cfg.workflowFn in cfg.registry && cfg.registry[cfg.workflowFn].convert(cfg.input).None?
    ensures p == cfg.registry[cfg.workflowFn].body(cfg.input)
    ensures var w, blocks := states[k], Parse(states[k].log).blocks;
      && IsRunOf(p, Direct(Outcomes(blocks)), r)
      && r.status.Returned? && |r.calls| == |blocks|
      && Parse(w.log).stage.completion == WorkflowCompleted(cfg.id, cfg.workflowFn, r.status.result)
      && (w.result.Some? ==> w.result.value == r.status.result)
      && (w.resultCursor == |w.log| ==> w.result.Some?)
      && w.attempts == AllAttempts(w.log, blocks) && w.bodies == Ran(cfg.activities, w.attempts)
      && (forall t :: t in w.attempts ==> Settled(cfg.activities, t))
      && forall i: nat | i < |blocks| ::
           Schedules(blocks[i].schedule, r.calls[i]) && AnsweredByFinalAttempt(w.log, blocks, r, i)
  {
    hide Parse, Delivery.Perform, ChainAllowed, BlocksIssued, RunN, AllAttempts, Resolve, AwaitsAtOnce, IsRunOf;
    hide AnsweredByFinalAttempt, Ran, Settled, Schedules, NamesMatch, AgreeOn;
    AlwaysBodiesOk(cfg, states, steps, k);
    var _ := AlwaysInv(cfg, states, steps, k);
    var log, blocks := states[k].log, Parse(states[k].log).blocks;
    p := Resolve(cfg.registry, TaskOf(cfg)).program;
    EndEvents(log);
    var status :| EndsWith(p, Outcomes(blocks), status)
               && FinalEvents(TaskOf(cfg), status) == [Parse(log).stage.completion];
    var n: nat :| Stopped(RunN(p, Direct(Outcomes(blocks)), n))
               && RunN(p, Direct(Outcomes(blocks)), n).status == status;
    r := RunN(p, Direct(Outcomes(blocks)), n);
    RunIsRun(p, Direct(Outcomes(blocks)), n);
    OneCallPerBlock(p, blocks, n);
    AnswersAgree(log, r.calls);
    forall i: nat | i < |blocks| ensures AnsweredByFinalAttempt(log, blocks, r, i) {
      CallAnswered(log, r, i);
    }
  }

  lemma {:induction false} CallAnswered(log: seq<Event>, r: Run, i: nat)
    requires !Parse(log).stage.Malformed? && i < |Parse(log).blocks| && i < |r.calls|
    requires Schedules(Parse(log).blocks[i].schedule, r.calls[i])
    requires AgreeOn(Direct(Outcomes(Parse(log).blocks)), Replayed(log), r.calls)
    ensures AnsweredByFinalAttempt(log, Parse(log).blocks, r, i)
  {
    hide Parse, BlockAttempts, RetriedWithOwnInput, CarriesOptions, Answer;
    SchedulesKnown(log);
    FinalAttempt(log, Parse(log).blocks[i]);
    DirectAnswers(Outcomes(Parse(log).blocks), r.calls, i);
  }

  /** A workflow that fails, however often its task is redelivered, only ever reports why its function
      cannot be called, or the panic that the direct execution of the registered code on the started
      input ends with; and it never gets a result entry. */
  lemma {:induction false} FailureEndToEnd(cfg: Config, states: seq<World>, steps: seq<Step>, k: nat)
    requires ValidConfig(cfg) && Behavior(cfg, states, steps) && k < |states|
    requires Parse(states[k].log).stage.Broken?
    ensures states[k].result == None
    ensures forall e :: e in states[k].log && e.IsTerminal() ==> e == Parse(states[k].log).stage.failure
    ensures var failure := Parse(states[k].log).stage.failure;
      if cfg.workflowFn !in cfg.registry then
        failure == WorkflowFailed(cfg.id, cfg.workflowFn, "key " + cfg.workflowFn + " have no value")
      else if cfg.registry[cfg.workflowFn].convert(cfg.input).Some? then
        failure == WorkflowFailed(cfg.id, cfg.workflowFn, cfg.registry[cfg.workflowFn].convert(cfg.input).value)
      else
        exists reason, r: Run ::
          && IsRunOf(cfg.registry[cfg.workflowFn].body(cfg.input), Direct(Outcomes(Parse(states[k].log).blocks)), r)
          && r.status == Panicked(reason) && failure == WorkflowFailed(cfg.id, cfg.workflowFn, PanicText(reason))
  {
    hide Parse, Delivery.Perform, ChainAllowed, Expected, BlocksIssued, PanicText, Resolve, RunN, IsRunOf;
    var _ := AlwaysInv(cfg, states, steps, k);
    var log := states[k].log;
    EndEvents(log);
    TerminalsOfBroken(log);
    match Resolve(cfg.registry, TaskOf(cfg))
    case Rejected(_) =>
    case Body(p) =>
      var a := Direct(Outcomes(Parse(log).blocks));
      var status :| EndsWith(p, Outcomes(Parse(log).blocks), status)
                 && FinalEvents(TaskOf(cfg), status) == [Parse(log).stage.failure];
      assert status.Panicked?;
      var n: nat :| Stopped(RunN(p, a, n)) && RunN(p, a, n).status == status;
      RunIsRun(p, a, n);
      assert IsRunOf(p, a, RunN(p, a, n)) && RunN(p, a, n).status == Panicked(status.reason);
  }

  lemma {:induction false} NoTerminalYet(log: seq<Event>, e: Event)
    requires !Parse(log).stage.Malformed? && !Parse(log).stage.Finished? && !Parse(log).stage.Broken?
    requires e in log
    ensures !e.IsTerminal()
  {
    var init, last := log[..|log| - 1], log[|log| - 1];
    MalformedStays(Parse(init), last);
    if e in init {
      NoTerminalYet(init, e);
    }
  }

  lemma {:induction false} TerminalsOfBroken(log: seq<Event>)
    requires Parse(log).stage.Broken?
    ensures forall e :: e in log && e.IsTerminal() ==> e == Parse(log).stage.failure
  {
    var init, last := log[..|log| - 1], log[|log| - 1];
    if Parse(init).stage.Broken? {
      TerminalsOfBroken(init);
    } else {
      forall e | e in init ensures !e.IsTerminal() {
        NoTerminalYet(init, e);
      }
    }
    assert log == init + [last];
  }
}
