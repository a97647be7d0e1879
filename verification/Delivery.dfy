/** One workflow under exact delivery: every history event is projected once and in order, and a
    task is redelivered only when the worker sends a NAK. Crashes may still lose a task or a timer. */
module Delivery {
  import opened Api
  import opened History
  import opened Worker
  import opened Sequential
  import opened Projection
  import opened Story
  import opened Attempts
  import opened DirectExecution

  /** One workflow, the workflows and activities the workers have registered, and the input bucket. */
  datatype Config = Config(
    id: string,
    workflowFn: string,
    input: seq<Value>,
    registry: Registry,
    activities: ActivityRegistry,
    inputs: map<string, seq<Value>>)

  function TaskOf(cfg: Config): WorkflowTask { WorkflowTask(cfg.id, cfg.workflowFn, cfg.input) }

  /** The input was stored before the workflow started, and its code awaits every call at once. */
  ghost predicate ValidConfig(cfg: Config) {
    && WorkflowInputKey(cfg.workflowFn, cfg.id) in cfg.inputs
    && cfg.inputs[WorkflowInputKey(cfg.workflowFn, cfg.id)] == cfg.input
    && (Resolve(cfg.registry, TaskOf(cfg)).Body? ==> AwaitsAtOnce(Resolve(cfg.registry, TaskOf(cfg)).program))
  }

  /** The log, one cursor per projector, the queues, the sleeping retries, the result entry, the attempts
      that workers have made, and those of them that called the activity's body. */
  datatype World = World(
    log: seq<Event>,
    workflowCursor: nat,
    activityCursor: nat,
    retryCursor: nat,
    resultCursor: nat,
    workflowTasks: seq<WorkflowTask>,
    activityTasks: seq<ActivityTask>,
    timers: seq<Event>,
    result: Option<seq<Value>>,
    attempts: seq<Invocation>,
    bodies: seq<Invocation>)

  function Start(cfg: Config): World {
    World([WorkflowStarted(cfg.id, cfg.workflowFn, cfg.input)], 0, 0, 0, 0, [], [], [], None, [], [])
  }

  /** A task of an unregistered activity is sent back. For a lost activity task an attempt may have been
      made: the worker acknowledges after the attempt and saves after the acknowledgement. `returned`
      is what the activity's body returns if the attempt calls it. */
  datatype Step =
    | ProjectWorkflow
    | ProjectActivity(nowMs: int)
    | ProjectRetry
    | ProjectResult
    | FireTimer(i: nat, stampMs: int)
    | RunWorkflow(i: nat, n: nat, clock: nat -> int)
    | RunActivity(i: nat, returned: Outcome, nowMs: int, outOfRange: int)
    | NakActivity(i: nat)
    | LoseWorkflowTask(i: nat)
    | LoseActivityTask(i: nat, attempted: Option<Outcome>)
    | LoseTimer(i: nat)

  ghost predicate Enabled(cfg: Config, w: World, s: Step) {
    match s
    case ProjectWorkflow => w.workflowCursor < |w.log|
    case ProjectActivity(_) => w.activityCursor < |w.log|
    case ProjectRetry => w.retryCursor < |w.log|
    case ProjectResult => w.resultCursor < |w.log|
    case FireTimer(i, _) => i < |w.timers| && w.timers[i].ActivityRetried?
    case RunWorkflow(i, n, _) => i < |w.workflowTasks| && TaskStops(cfg.registry, w.workflowTasks[i], w.log, n)
    case RunActivity(i, _, _, _) => i < |w.activityTasks| && w.activityTasks[i].activityFn in cfg.activities
    case NakActivity(i) => i < |w.activityTasks| && w.activityTasks[i].activityFn !in cfg.activities
    case LoseWorkflowTask(i) => i < |w.workflowTasks|
    case LoseActivityTask(i, attempted) =>
      i < |w.activityTasks| && (attempted.Some? ==> w.activityTasks[i].activityFn in cfg.activities)
    case LoseTimer(i) => i < |w.timers|
  }

  function Remove<T>(s: seq<T>, i: nat): seq<T>
    requires i < |s|
  {
    s[..i] + s[i + 1..]
  }

  function AttemptAt(task: ActivityTask, outcome: Outcome): Invocation {
    Invocation(task.activityFn, task.input, task.attempt, outcome)
  }

  /** A worker takes the task from the queue and makes an attempt. */
  function Attempted(cfg: Config, w: World, i: nat, returned: Outcome): World
    requires i < |w.activityTasks| && w.activityTasks[i].activityFn in cfg.activities
  {
    var task := w.activityTasks[i];
    var attempt := AttemptAt(task, AttemptOutcome(cfg.activities, task, returned));
    w.(activityTasks := Remove(w.activityTasks, i),
       attempts := w.attempts + [attempt],
       bodies := w.bodies + if Fits(cfg.activities, task.activityFn, task.input) then [attempt] else [])
  }

  ghost function Perform(cfg: Config, w: World, s: Step): World
    requires Enabled(cfg, w, s)
  {
    match s
    case ProjectWorkflow =>
      var next := w.(workflowCursor := w.workflowCursor + 1);
      (match WorkflowTaskFor(cfg.inputs, w.log[w.workflowCursor])
       case Publish(task) => next.(workflowTasks := w.workflowTasks + [task])
       case _ => next)
    case ProjectActivity(nowMs) =>
      var next := w.(activityCursor := w.activityCursor + 1);
      var e := w.log[w.activityCursor];
      if e.ActivityScheduled? then next.(activityTasks := w.activityTasks + [FirstAttempt(e, nowMs)]) else next
    case ProjectRetry =>
      var next := w.(retryCursor := w.retryCursor + 1);
      var e := w.log[w.retryCursor];
      if e.ActivityRetried? then next.(timers := w.timers + [e]) else next
    case ProjectResult =>
      var next := w.(resultCursor := w.resultCursor + 1);
      var e := w.log[w.resultCursor];
      if e.WorkflowCompleted? then next.(result := Some(e.result)) else next
    case FireTimer(i, stampMs) =>
      var next := w.(timers := Remove(w.timers, i));
      (match RetryTaskFor(w.log, w.timers[i], stampMs)
       case Some(task) => next.(activityTasks := w.activityTasks + [task])
       case None => next)
    case RunWorkflow(i, n, clock) =>
      var run := RunTask(cfg.registry, w.workflowTasks[i], w.log, n, clock);
      w.(log := w.log + run.events,
         workflowTasks := if run.failed then w.workflowTasks else Remove(w.workflowTasks, i))
    case RunActivity(i, returned, nowMs, outOfRange) =>
      var task := w.activityTasks[i];
      var outcome := AttemptOutcome(cfg.activities, task, returned);
      Attempted(cfg, w, i, returned).(log := w.log + [AttemptEvent(task, outcome, nowMs, outOfRange)])
    case NakActivity(_) => w
    case LoseWorkflowTask(i) => w.(workflowTasks := Remove(w.workflowTasks, i))
    case LoseActivityTask(i, None) => w.(activityTasks := Remove(w.activityTasks, i))
    case LoseActivityTask(i, Some(returned)) => Attempted(cfg, w, i, returned)
    case LoseTimer(i) => w.(timers := Remove(w.timers, i))
  }

  /** A finite run of the protocol: `states[k+1]` results from `steps[k]`. */
  ghost predicate Behavior(cfg: Config, states: seq<World>, steps: seq<Step>) {
    && |states| == |steps| + 1 && states[0] == Start(cfg)
    && forall k :: 0 <= k < |steps| ==>
      Enabled(cfg, states[k], steps[k]) && states[k + 1] == Perform(cfg, states[k], steps[k])
  }

  // ---------------------------------------------------------------------------------------------
  // What the log always looks like
  // ---------------------------------------------------------------------------------------------

  /** The story agrees with the program: each call is the one it makes next, and the end is the end
      of its direct execution. */
  ghost predicate Follows(cfg: Config, s: Story) {
    match Resolve(cfg.registry, TaskOf(cfg))
    case Rejected(error) =>
      && s.blocks == [] && (s.stage.Idle? || s.stage.Broken?)
      && (s.stage.Broken? ==> s.stage.failure == WorkflowFailed(cfg.id, cfg.workflowFn, error))
    case Body(p) =>
      && BlocksIssued(p, s.blocks)
      && (s.stage.Busy? ==> Issued(p, Outcomes(s.blocks), s.stage.schedule))
      && (s.stage.Finished? ==> exists status ::
            EndsWith(p, Outcomes(s.blocks), status) && FinalEvents(TaskOf(cfg), status) == [s.stage.completion])
      && (s.stage.Broken? ==> exists status ::
            EndsWith(p, Outcomes(s.blocks), status) && FinalEvents(TaskOf(cfg), status) == [s.stage.failure])
  }

  ghost predicate LogOk(cfg: Config, log: seq<Event>) {
    && log != [] && log[0] == WorkflowStarted(cfg.id, cfg.workflowFn, cfg.input)
    && (forall e :: e in log ==> (e.id, e.workflowFn) == (cfg.id, cfg.workflowFn))
    && !Parse(log).stage.Malformed? && !Parse(log).stage.NotStarted?
    && ChainAllowed(log)
    && Follows(cfg, Parse(log))
  }

  lemma {:induction false} StartLogOk(cfg: Config)
    ensures LogOk(cfg, Start(cfg).log) && Parse(Start(cfg).log) == Story([], Idle)
    ensures Expected(Start(cfg).log) == []
  {
    var log := Start(cfg).log;
    assert Parse([]) == Story([], NotStarted);
    assert log[..0] == [];
  }

  lemma {:induction false} ScheduleLogOk(cfg: Config, log: seq<Event>, e: Event)
    requires LogOk(cfg, log) && Parse(log).stage.Idle?
    requires Resolve(cfg.registry, TaskOf(cfg)).Body?
    requires e.ActivityScheduled? && (e.id, e.workflowFn) == (cfg.id, cfg.workflowFn)
    requires Issued(Resolve(cfg.registry, TaskOf(cfg)).program, Outcomes(Parse(log).blocks), e)
    ensures LogOk(cfg, log + [e]) && Expected(log + [e]) == Expected(log)
    ensures Parse(log + [e]) == Parse(log).(stage := Busy(e, []))
  {
    ParseAppend(log, e);
    AppendToIdle(log, e);
  }

  lemma {:induction false} EndLogOk(cfg: Config, log: seq<Event>, e: Event)
    requires LogOk(cfg, log) && (Parse(log).stage.Idle? || Parse(log).stage.Broken?)
    requires (e.id, e.workflowFn) == (cfg.id, cfg.workflowFn) && (e.WorkflowCompleted? || e.WorkflowFailed?)
    requires Parse(log).stage.Broken? ==> e == Parse(log).stage.failure
    requires match Resolve(cfg.registry, TaskOf(cfg))
      case Rejected(error) => e == WorkflowFailed(cfg.id, cfg.workflowFn, error)
      case Body(p) => exists status ::
        EndsWith(p, Outcomes(Parse(log).blocks), status) && FinalEvents(TaskOf(cfg), status) == [e]
    ensures LogOk(cfg, log + [e]) && Expected(log + [e]) == Expected(log)
    ensures Parse(log + [e]).stage
         == if Parse(log).stage.Broken? then Broken(e, Parse(log).stage.times + 1)
            else if e.WorkflowCompleted? then Finished(e) else Broken(e, 1)
    ensures Parse(log + [e]).blocks == Parse(log).blocks
  {
    ParseAppend(log, e);
    AppendToIdle(log, e);
  }

  lemma {:induction false} RetryLogOk(cfg: Config, log: seq<Event>, e: Event)
    requires LogOk(cfg, log) && Parse(log).stage.Busy?
    requires (e.id, e.workflowFn) == (cfg.id, cfg.workflowFn)
    requires e.ActivityName() == Parse(log).stage.schedule.ActivityName()
    requires RetryAllowed(log, Parse(log).stage.schedule, |Parse(log).stage.retries|, e)
    ensures LogOk(cfg, log + [e])
    ensures Parse(log + [e]) == Parse(log).(stage := Busy(Parse(log).stage.schedule, Parse(log).stage.retries + [e]))
    ensures Expected(log + [e]) == Expected(log)
      + [Attempt(log, Parse(log).stage.schedule, |Parse(log).stage.retries|, Failed(ErrorOf(e)))]
  {
    hide Parse, Expected, ChainAllowed, Attempt;
    AppendRetry(log, e);
  }

  lemma {:induction false} OutcomeLogOk(cfg: Config, log: seq<Event>, e: Event)
    requires LogOk(cfg, log) && Parse(log).stage.Busy?
    requires (e.id, e.workflowFn) == (cfg.id, cfg.workflowFn)
    requires e.IsOutcome() && e.ActivityName() == Parse(log).stage.schedule.ActivityName()
    ensures LogOk(cfg, log + [e])
    ensures Parse(log + [e])
         == Story(Parse(log).blocks + [Block(Parse(log).stage.schedule, Parse(log).stage.retries, e)], Idle)
    ensures Expected(log + [e]) == Expected(log)
      + [Attempt(log, Parse(log).stage.schedule, |Parse(log).stage.retries|, OutcomeOf(e))]
  {
    hide Parse, Expected, ChainAllowed, Attempt, BlocksIssued;
    AppendOutcome(log, e);
    var s := Parse(log);
    match Resolve(cfg.registry, TaskOf(cfg))
    case Rejected(_) =>
    case Body(p) =>
      BlocksIssuedAppend(p, s.blocks, Block(s.stage.schedule, s.stage.retries, e));
  }
}
