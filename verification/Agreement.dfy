/** Many workflows at once under the weakest delivery: every event may be projected any number of
    times and in any order, every task may be delivered again or never, a worker may have read an
    old prefix of the log, and its events are appended to whatever the log has become. */
module Agreement {
  import opened Api
  import opened History
  import opened Workflows
  import opened Worker
  import opened Projection

  datatype Origin = Origin(workflowFn: string, input: seq<Value>)

  /** Accepted start commands, event logs, the two buckets, and every task ever published. */
  datatype Cluster = Cluster(
    origins: map<string, Origin>,
    logs: map<string, seq<Event>>,
    inputs: map<string, seq<Value>>,
    results: map<string, seq<Value>>,
    workflowTasks: set<WorkflowTask>,
    activityTasks: set<ActivityTask>)

  const EMPTY := Cluster(map[], map[], map[], map[], {}, {})

  datatype Move =
    | PutInput(id: string, origin: Origin)
    | PublishStarted(id: string)
    | ProjectWorkflow(id: string, i: nat)
    | ProjectActivity(id: string, i: nat, nowMs: int)
    | ProjectResult(id: string, i: nat)
    | FireRetry(id: string, i: nat, seen: nat, stampMs: int)
    | RunWorkflow(task: WorkflowTask, seen: nat, n: nat, clock: nat -> int)
    | RunActivity(attempt: ActivityTask, outcome: Outcome, atMs: int, outOfRange: int)

  /** `seen` is how much of the log the reader saw. A fresh ID is a UUID: new, and without slashes. */
  ghost predicate Enabled(registry: Registry, c: Cluster, m: Move) {
    match m
    case PutInput(id, _) => id !in c.origins && '/' !in id
    case PublishStarted(id) => id in c.origins && id !in c.logs
    case ProjectWorkflow(id, i) => id in c.logs && i < |c.logs[id]|
    case ProjectActivity(id, i, _) => id in c.logs && i < |c.logs[id]| && c.logs[id][i].ActivityScheduled?
    case ProjectResult(id, i) => id in c.logs && i < |c.logs[id]| && c.logs[id][i].WorkflowCompleted?
    case FireRetry(id, i, seen, _) =>
      id in c.logs && i < |c.logs[id]| && c.logs[id][i].ActivityRetried? && seen <= |c.logs[id]|
    case RunWorkflow(task, seen, n, _) =>
      && task in c.workflowTasks && task.id in c.logs && 0 < seen <= |c.logs[task.id]|
      && TaskStops(registry, task, c.logs[task.id][..seen], n)
    case RunActivity(attempt, _, _, _) => attempt in c.activityTasks && attempt.id in c.logs
  }

  function Append(c: Cluster, id: string, events: seq<Event>): Cluster
    requires id in c.logs
  {
    c.(logs := c.logs[id := c.logs[id] + events])
  }

  ghost function Next(registry: Registry, c: Cluster, m: Move): Cluster
    requires Enabled(registry, c, m)
  {
    match m
    case PutInput(id, o) =>
      c.(origins := c.origins[id := o], inputs := c.inputs[WorkflowInputKey(o.workflowFn, id) := o.input])
    case PublishStarted(id) =>
      c.(logs := c.logs[id := [WorkflowStarted(id, c.origins[id].workflowFn, c.origins[id].input)]])
    case ProjectWorkflow(id, i) =>
      (match WorkflowTaskFor(c.inputs, c.logs[id][i])
       case Publish(task) => c.(workflowTasks := c.workflowTasks + {task})
       case _ => c)
    case ProjectActivity(id, i, nowMs) =>
      c.(activityTasks := c.activityTasks + {FirstAttempt(c.logs[id][i], nowMs)})
    case ProjectResult(id, i) => c.(results := c.results[c.logs[id][i].id := c.logs[id][i].result])
    case FireRetry(id, i, seen, stampMs) =>
      (match RetryTaskFor(c.logs[id][..seen], c.logs[id][i], stampMs)
       case Some(task) => c.(activityTasks := c.activityTasks + {task})
       case None => c)
    case RunWorkflow(task, seen, n, clock) =>
      Append(c, task.id, RunTask(registry, task, c.logs[task.id][..seen], n, clock).events)
    case RunActivity(attempt, outcome, atMs, outOfRange) =>
      Append(c, attempt.id, [AttemptEvent(attempt, outcome, atMs, outOfRange)])
  }

  ghost predicate Behavior(registry: Registry, states: seq<Cluster>, moves: seq<Move>) {
    && |states| == |moves| + 1 && states[0] == EMPTY
    && forall k :: 0 <= k < |moves| ==>
      Enabled(registry, states[k], moves[k]) && states[k + 1] == Next(registry, states[k], moves[k])
  }

  // ---------------------------------------------------------------------------------------------
  // Why a terminal event is there
  // ---------------------------------------------------------------------------------------------

  /** The workflow, run on this log, ends with `e`. */
  ghost predicate EndsIn(p: Program, task: WorkflowTask, log: seq<Event>, n: nat, e: Event) {
    var r := RunN(p, Replayed(log), n);
    Stopped(r) && r.status != Panicked(BadOptions) && FinalEvents(task, r.status) == [e]
  }

  /** The workflow once crashed on ill-typed activity options. */
  ghost predicate CrashedOnOptions(p: Program, task: WorkflowTask, log: seq<Event>, k: nat, n: nat, e: Event) {
    && k <= |log| && RunN(p, Replayed(log[..k]), n).status == Panicked(BadOptions)
    && FinalEvents(task, Panicked(BadOptions)) == [e]
  }

  ghost predicate Justified(registry: Registry, task: WorkflowTask, log: seq<Event>, e: Event) {
    match Resolve(registry, task)
    case Rejected(error) => e == WorkflowFailed(task.id, task.workflowFn, error)
    case Body(p) =>
      || (exists n: nat :: EndsIn(p, task, log, n, e))
      || (exists k: nat, n: nat :: CrashedOnOptions(p, task, log, k, n, e))
  }

  /** A justification survives everything that is appended later. */
  lemma {:induction false} JustifiedStable(registry: Registry, task: WorkflowTask, log: seq<Event>, more: seq<Event>,
                                           e: Event)
    requires Justified(registry, task, log, e)
    ensures Justified(registry, task, log + more, e)
  {
    hide RunN, FinalEvents;
    match Resolve(registry, task)
    case Rejected(_) =>
    case Body(p) =>
      if n: nat :| EndsIn(p, task, log, n, e) {
        EndsInStable(p, task, log, more, n, e);
      } else {
        var k: nat, n: nat :| CrashedOnOptions(p, task, log, k, n, e);
        assert (log + more)[..k] == log[..k];
        assert CrashedOnOptions(p, task, log + more, k, n, e);
      }
  }

  lemma {:induction false} EndsInStable(p: Program, task: WorkflowTask, log: seq<Event>, more: seq<Event>, n: nat,
                                        e: Event)
    requires EndsIn(p, task, log, n, e)
    ensures EndsIn(p, task, log + more, n, e)
  {
    hide RunN;
    LongerLogRefines(log, log + more);
    PrefixStability(p, Replayed(log), Replayed(log + more), n);
  }

  lemma {:induction false} FinalJustified(registry: Registry, p: Program, task: WorkflowTask, log: seq<Event>,
                                          seen: nat, n: nat, e: Event)
    requires Resolve(registry, task) == Body(p) && seen <= |log|
    requires Stopped(RunN(p, Replayed(log[..seen]), n))
    requires FinalEvents(task, RunN(p, Replayed(log[..seen]), n).status) == [e]
    ensures Justified(registry, task, log, e)
  {
    hide RunN, FinalEvents, Resolve;
    if RunN(p, Replayed(log[..seen]), n).status == Panicked(BadOptions) {
      assert CrashedOnOptions(p, task, log, seen, n, e);
    } else {
      EndsInStable(p, task, log[..seen], log[seen..], n, e);
      assert log[..seen] + log[seen..] == log;
    }
  }

  /** Whatever a worker appends after reading a prefix is justified on the log it is appended to. */
  lemma {:induction false} RunJustifies(registry: Registry, task: WorkflowTask, log: seq<Event>, seen: nat, n: nat,
                                        clock: nat -> int, e: Event)
    requires seen <= |log| && TaskStops(registry, task, log[..seen], n)
    requires e in RunTask(registry, task, log[..seen], n, clock).events
    ensures e.IsTerminal() ==> Justified(registry, task, log, e)
    ensures !e.IsTerminal() ==> e.ActivityScheduled? && (e.id, e.workflowFn) == IdentityOf(log[..seen])
  {
    hide RunN, FreshEvents, Resolve, EndsIn, CrashedOnOptions;
    match Resolve(registry, task)
    case Rejected(_) =>
    case Body(p) =>
      var r := RunN(p, Replayed(log[..seen]), n);
      FreshEventsAreSchedules(log[..seen], r.calls, clock);
      if e.IsTerminal() {
        assert FinalEvents(task, r.status) == [e];
        FinalJustified(registry, p, task, log, seen, n, e);
      }
  }

  // ---------------------------------------------------------------------------------------------
  // The invariant
  // ---------------------------------------------------------------------------------------------

  /** One workflow's log: every event names the workflow it belongs to, every Started carries its
      input, and every terminal event is justified. */
  ghost predicate LogOk(registry: Registry, id: string, o: Origin, log: seq<Event>) {
    && log != []
    && forall e :: e in log ==>
      && (e.id, e.workflowFn) == (id, o.workflowFn)
      && (e.WorkflowStarted? ==> e.input == o.input)
      && (e.IsTerminal() ==> Justified(registry, WorkflowTask(id, o.workflowFn, o.input), log, e))
  }

  /** The task of an accepted workflow. */
  function TaskOf(c: Cluster, id: string): WorkflowTask
    requires id in c.origins
  {
    WorkflowTask(id, c.origins[id].workflowFn, c.origins[id].input)
  }

  predicate InputStored(c: Cluster, id: string)
    requires id in c.origins
  {
    var key := WorkflowInputKey(c.origins[id].workflowFn, id);
    key in c.inputs && c.inputs[key] == c.origins[id].input
  }

  ghost predicate Inv(registry: Registry, c: Cluster) {
    && (forall id :: id in c.origins ==> '/' !in id && InputStored(c, id))
    && (forall id :: id in c.logs ==> id in c.origins && LogOk(registry, id, c.origins[id], c.logs[id]))
    && (forall t :: t in c.workflowTasks ==>
          t.id in c.logs && t.id in c.origins && t == TaskOf(c, t.id))
    && (forall t :: t in c.activityTasks ==>
          t.id in c.logs && t.id in c.origins && t.workflowFn == c.origins[t.id].workflowFn)
    && (forall id :: id in c.results ==>
          id in c.logs && id in c.origins
          && WorkflowCompleted(id, c.origins[id].workflowFn, c.results[id]) in c.logs[id])
  }

  lemma {:induction false} LogGrows(registry: Registry, id: string, o: Origin, log: seq<Event>, more: seq<Event>)
    requires LogOk(registry, id, o, log)
    requires forall e :: e in more ==> (e.id, e.workflowFn) == (id, o.workflowFn) && !e.WorkflowStarted?
    requires forall e :: e in more && e.IsTerminal() ==>
      Justified(registry, WorkflowTask(id, o.workflowFn, o.input), log, e)
    ensures LogOk(registry, id, o, log + more)
  {
    hide Justified;
    var task := WorkflowTask(id, o.workflowFn, o.input);
    forall e | e in log + more && e.IsTerminal() ensures Justified(registry, task, log + more, e) {
      JustifiedStable(registry, task, log, more, e);
    }
  }

  lemma {:induction false} AppendKeeps(registry: Registry, c: Cluster, id: string, more: seq<Event>)
    requires Inv(registry, c) && id in c.logs && LogOk(registry, id, c.origins[id], c.logs[id] + more)
    ensures Inv(registry, Append(c, id, more))
  {
    hide LogOk;
  }

  lemma {:induction false} IdentityInLog(registry: Registry, c: Cluster, id: string, e: Event)
    requires Inv(registry, c) && id in c.logs && e in c.logs[id]
    ensures (e.id, e.workflowFn) == (id, c.origins[id].workflowFn)
    ensures e.WorkflowStarted? ==> e.input == c.origins[id].input
  {
  }

  /** The input lookup never misses: every wake-up event makes the workflow's own task, with exactly
      the input it was started with. */
  lemma {:induction false} LookupHits(registry: Registry, c: Cluster, id: string, i: nat)
    requires Inv(registry, c) && id in c.logs && i < |c.logs[id]| && c.logs[id][i].WakesWorkflow()
    ensures WorkflowTaskFor(c.inputs, c.logs[id][i])
         == Publish(TaskOf(c, id))
  {
    hide LogOk;
    IdentityInLog(registry, c, id, c.logs[id][i]);
    assert InputStored(c, id);
  }

  lemma {:induction false} PutInputKeeps(registry: Registry, c: Cluster, id: string, o: Origin)
    requires Inv(registry, c) && id !in c.origins && '/' !in id
    ensures Inv(registry, c.(origins := c.origins[id := o],
                             inputs := c.inputs[WorkflowInputKey(o.workflowFn, id) := o.input]))
  {
    hide LogOk, WorkflowInputKey;
    forall other | other in c.origins
      ensures WorkflowInputKey(c.origins[other].workflowFn, other) != WorkflowInputKey(o.workflowFn, id)
    {
      if WorkflowInputKey(c.origins[other].workflowFn, other) == WorkflowInputKey(o.workflowFn, id) {
        InputKeyInjective(c.origins[other].workflowFn, other, o.workflowFn, id);
      }
    }
  }

  lemma {:induction false} RunWorkflowKeeps(registry: Registry, c: Cluster, m: Move)
    requires Inv(registry, c) && m.RunWorkflow? && Enabled(registry, c, m)
    ensures Inv(registry, Next(registry, c, m))
  {
    hide Justified, RunTask, TaskStops;
    var id, log := m.task.id, c.logs[m.task.id];
    var more := RunTask(registry, m.task, log[..m.seen], m.n, m.clock).events;
    assert log[..m.seen][m.seen - 1] in log;
    forall e | e in more
      ensures (e.id, e.workflowFn) == (id, c.origins[id].workflowFn) && !e.WorkflowStarted?
      ensures e.IsTerminal() ==> Justified(registry, m.task, log, e)
    {
      RunJustifies(registry, m.task, log, m.seen, m.n, m.clock, e);
      if e.IsTerminal() {
        TerminalIdentity(registry, m.task, log[..m.seen], m.n, m.clock, e);
      }
    }
    LogGrows(registry, id, c.origins[id], log, more);
    AppendKeeps(registry, c, id, more);
  }

  lemma {:induction false} TerminalIdentity(registry: Registry, task: WorkflowTask, h: seq<Event>, n: nat,
                                            clock: nat -> int, e: Event)
    requires TaskStops(registry, task, h, n) && e in RunTask(registry, task, h, n, clock).events && e.IsTerminal()
    ensures (e.id, e.workflowFn) == (task.id, task.workflowFn)
  {
    hide RunN;
    match Resolve(registry, task)
    case Rejected(_) =>
    case Body(p) =>
      FreshEventsAreSchedules(h, RunN(p, Replayed(h), n).calls, clock);
  }

  lemma {:induction false} RunActivityKeeps(registry: Registry, c: Cluster, m: Move)
    requires Inv(registry, c) && m.RunActivity? && Enabled(registry, c, m)
    ensures Inv(registry, Next(registry, c, m))
  {
    hide Justified;
    var id := m.attempt.id;
    var e := AttemptEvent(m.attempt, m.outcome, m.atMs, m.outOfRange);
    LogGrows(registry, id, c.origins[id], c.logs[id], [e]);
    AppendKeeps(registry, c, id, [e]);
  }

  lemma {:induction false} ProjectWorkflowKeeps(registry: Registry, c: Cluster, m: Move)
    requires Inv(registry, c) && m.ProjectWorkflow? && Enabled(registry, c, m)
    ensures Inv(registry, Next(registry, c, m))
  {
    hide LogOk, WorkflowTaskFor;
    var e := c.logs[m.id][m.i];
    if e.WakesWorkflow() {
      LookupHits(registry, c, m.id, m.i);
    } else {
      NoWakeNoTask(c.inputs, e);
    }
  }

  lemma {:induction false} NoWakeNoTask(inputs: map<string, seq<Value>>, e: Event)
    ensures WorkflowTaskFor(inputs, e).Publish? ==> e.WakesWorkflow()
  {
  }

  lemma {:induction false} ProjectionKeeps(registry: Registry, c: Cluster, m: Move)
    requires Inv(registry, c) && Enabled(registry, c, m) && (m.ProjectActivity? || m.ProjectResult?)
    ensures Inv(registry, Next(registry, c, m))
  {
    hide LogOk;
    IdentityInLog(registry, c, m.id, c.logs[m.id][m.i]);
  }

  lemma {:induction false} FireRetryKeeps(registry: Registry, c: Cluster, m: Move)
    requires Inv(registry, c) && Enabled(registry, c, m) && m.FireRetry?
    ensures Inv(registry, Next(registry, c, m))
  {
    hide LogOk, FirstSchedule;
    IdentityInLog(registry, c, m.id, c.logs[m.id][m.i]);
  }

  lemma {:induction false} MoveKeeps(registry: Registry, c: Cluster, m: Move)
    requires Inv(registry, c) && Enabled(registry, c, m)
    ensures Inv(registry, Next(registry, c, m))
  {
    hide LogOk, RunTask, TaskStops, AttemptEvent;
    match m
    case PutInput(id, o) => PutInputKeeps(registry, c, id, o);
    case PublishStarted(id) => StartedLogOk(registry, id, c.origins[id]);
    case ProjectWorkflow(_, _) => ProjectWorkflowKeeps(registry, c, m);
    case RunWorkflow(_, _, _, _) => RunWorkflowKeeps(registry, c, m);
    case RunActivity(_, _, _, _) => RunActivityKeeps(registry, c, m);
    case FireRetry(_, _, _, _) => FireRetryKeeps(registry, c, m);
    case _ => ProjectionKeeps(registry, c, m);
  }

  lemma {:induction false} StartedLogOk(registry: Registry, id: string, o: Origin)
    ensures LogOk(registry, id, o, [WorkflowStarted(id, o.workflowFn, o.input)])
  {
  }

  lemma {:induction false} AlwaysInv(registry: Registry, states: seq<Cluster>, moves: seq<Move>, k: nat)
    requires Behavior(registry, states, moves) && k < |states|
    ensures Inv(registry, states[k])
  {
    hide LogOk, Next, Enabled;
    if k > 0 {
      AlwaysInv(registry, states, moves, k - 1);
      MoveKeeps(registry, states[k - 1], moves[k - 1]);
    }
  }

  /** Origins, result entries and logs are never taken back. */
  ghost predicate Later(c: Cluster, d: Cluster) {
    && (forall id :: id in c.origins ==> id in d.origins && d.origins[id] == c.origins[id])
    && (forall id :: id in c.logs ==> id in d.logs && c.logs[id] <= d.logs[id])
    && (forall id :: id in c.results ==> id in d.results)
  }

  lemma {:induction false} MoveIsLater(registry: Registry, c: Cluster, m: Move)
    requires Enabled(registry, c, m)
    ensures Later(c, Next(registry, c, m))
  {
    hide RunTask, TaskStops, AttemptEvent, RetryTaskFor, WorkflowTaskFor;
  }

  lemma {:induction false} AlwaysLater(registry: Registry, states: seq<Cluster>, moves: seq<Move>, j: nat, k: nat)
    requires Behavior(registry, states, moves) && j <= k < |states|
    ensures Later(states[j], states[k])
  {
    hide Next, Enabled;
    if j < k {
      AlwaysLater(registry, states, moves, j, k - 1);
      MoveIsLater(registry, states[k - 1], moves[k - 1]);
    }
  }

  // ---------------------------------------------------------------------------------------------
  // Identity and input
  // ---------------------------------------------------------------------------------------------

  /** In every reachable state all events and tasks of an ID carry the name it was started with, every
      workflow task carries exactly the started input, and the input lookup never misses. */
  lemma {:induction false} IdentityAndInput(registry: Registry, states: seq<Cluster>, moves: seq<Move>, k: nat)
    requires Behavior(registry, states, moves) && k < |states|
    ensures var c := states[k];
      && (forall id, e :: id in c.logs && e in c.logs[id] ==>
            id in c.origins && (e.id, e.workflowFn) == (id, c.origins[id].workflowFn)
            && (e.WorkflowStarted? ==> e.input == c.origins[id].input))
      && (forall t :: t in c.workflowTasks ==>
            t.id in c.origins && t == TaskOf(c, t.id))
      && (forall t :: t in c.activityTasks ==> t.id in c.origins && t.workflowFn == c.origins[t.id].workflowFn)
      && (forall id, i: nat :: id in c.logs && i < |c.logs[id]| && c.logs[id][i].WakesWorkflow() ==>
            WorkflowTaskFor(c.inputs, c.logs[id][i]).Publish?)
  {
    hide LogOk, WorkflowTaskFor;
    AlwaysInv(registry, states, moves, k);
    var c := states[k];
    forall id, e | id in c.logs && e in c.logs[id]
      ensures (e.id, e.workflowFn) == (id, c.origins[id].workflowFn)
      ensures e.WorkflowStarted? ==> e.input == c.origins[id].input
    {
      IdentityInLog(registry, c, id, e);
    }
    forall id, i: nat | id in c.logs && i < |c.logs[id]| && c.logs[id][i].WakesWorkflow()
      ensures WorkflowTaskFor(c.inputs, c.logs[id][i]).Publish?
    {
      LookupHits(registry, c, id, i);
    }
  }

  // ---------------------------------------------------------------------------------------------
  // Terminal agreement
  // ---------------------------------------------------------------------------------------------

  /** `e` reports that the workflow, run on a prefix of this log, crashed on ill-typed activity
      options: the one end that replay can undo. */
  ghost predicate ReportsOptionsCrash(registry: Registry, task: WorkflowTask, log: seq<Event>, e: Event) {
    && Resolve(registry, task).Body?
    && exists k: nat, n: nat :: CrashedOnOptions(Resolve(registry, task).program, task, log, k, n, e)
  }

  /** An end that was settled on a log is the only end settled on any longer one. */
  lemma {:induction false} SettledAgree(registry: Registry, task: WorkflowTask, log: seq<Event>, more: seq<Event>,
                                        a: Event, b: Event)
    requires Justified(registry, task, log, a) && !ReportsOptionsCrash(registry, task, log, a)
    requires Justified(registry, task, log + more, b) && !ReportsOptionsCrash(registry, task, log + more, b)
    ensures a == b
  {
    hide RunN, FinalEvents, CrashedOnOptions;
    match Resolve(registry, task)
    case Rejected(_) =>
    case Body(p) =>
      var m: nat :| EndsIn(p, task, log, m, a);
      var n: nat :| EndsIn(p, task, log + more, n, b);
      EndsInStable(p, task, log, more, m, a);
      StopsOnce(p, Replayed(log + more), m, n);
  }

  /** The event of this workflow reports a crash on its options. */
  ghost predicate IsOptionsFailure(registry: Registry, c: Cluster, id: string, e: Event) {
    id in c.origins && id in c.logs && ReportsOptionsCrash(registry, TaskOf(c, id), c.logs[id], e)
  }

  lemma {:induction false} CompletionIsNoReport(registry: Registry, c: Cluster, id: string, e: Event)
    requires e.WorkflowCompleted?
    ensures !IsOptionsFailure(registry, c, id, e)
  {
    hide RunN;
  }

  lemma {:induction false} JustifiedInLog(registry: Registry, c: Cluster, id: string, e: Event)
    requires Inv(registry, c) && id in c.logs && e in c.logs[id] && e.IsTerminal()
    ensures Justified(registry, TaskOf(c, id), c.logs[id], e)
  {
  }

  /** Terminal agreement: whatever was delivered twice, late, out of order or lost, all the terminal
      events a workflow ever gets are the same event. The one exception is the report of a crash on
      ill-typed activity options. */
  lemma {:induction false} TerminalAgreement(registry: Registry, states: seq<Cluster>, moves: seq<Move>,
                                             j: nat, k: nat, id: string, a: Event, b: Event)
    requires Behavior(registry, states, moves) && j <= k < |states|
    requires id in states[j].logs && a in states[j].logs[id] && a.IsTerminal()
    requires id in states[k].logs && b in states[k].logs[id] && b.IsTerminal()
    ensures a == b || IsOptionsFailure(registry, states[j], id, a) || IsOptionsFailure(registry, states[k], id, b)
  {
    hide LogOk, Justified, ReportsOptionsCrash, Behavior;
    AlwaysLater(registry, states, moves, j, k);
    AlwaysInv(registry, states, moves, j);
    AlwaysInv(registry, states, moves, k);
    JustifiedInLog(registry, states[j], id, a);
    JustifiedInLog(registry, states[k], id, b);
    var log, later := states[j].logs[id], states[k].logs[id];
    assert later == log + later[|log|..];
    var task := TaskOf(states[k], id);
    if !ReportsOptionsCrash(registry, task, log, a) && !ReportsOptionsCrash(registry, task, later, b) {
      SettledAgree(registry, task, log, later[|log|..], a, b);
    }
  }

  /** No registered workflow ever makes an unanswered call through ill-typed options. */
  ghost predicate AllUseOptionsSafely(registry: Registry) {
    forall task :: Resolve(registry, task).Body? ==> UsesOptionsSafely(Resolve(registry, task).program)
  }

  lemma {:induction false} SafeNeverReports(registry: Registry, task: WorkflowTask, log: seq<Event>, e: Event)
    requires AllUseOptionsSafely(registry)
    ensures !ReportsOptionsCrash(registry, task, log, e)
  {
    hide RunN, FinalEvents, UsesOptionsSafely;
    if Resolve(registry, task).Body? {
      var p := Resolve(registry, task).program;
      forall k: nat, n: nat ensures !CrashedOnOptions(p, task, log, k, n, e) {
        if k <= |log| {
          SafeNeverCrashes(p, log[..k], n);
        }
      }
    }
  }

  /** With options used safely there is no exception: one end, once and for all. */
  lemma {:induction false} TerminalAgreementWhenSafe(registry: Registry, states: seq<Cluster>, moves: seq<Move>,
                                                     j: nat, k: nat, id: string, a: Event, b: Event)
    requires AllUseOptionsSafely(registry) && Behavior(registry, states, moves) && j <= k < |states|
    requires id in states[j].logs && a in states[j].logs[id] && a.IsTerminal()
    requires id in states[k].logs && b in states[k].logs[id] && b.IsTerminal()
    ensures a == b
  {
    hide AllUseOptionsSafely, ReportsOptionsCrash, Behavior;
    TerminalAgreement(registry, states, moves, j, k, id, a, b);
    forall c: Cluster, e | id in c.origins && id in c.logs ensures !IsOptionsFailure(registry, c, id, e) {
      SafeNeverReports(registry, TaskOf(c, id), c.logs[id], e);
    }
  }

  /** A result entry, once written, is there to stay and never changes. */
  lemma {:induction false} ResultNeverChanges(registry: Registry, states: seq<Cluster>, moves: seq<Move>,
                                              j: nat, k: nat, id: string)
    requires Behavior(registry, states, moves) && j <= k < |states| && id in states[j].results
    ensures id in states[k].results && states[k].results[id] == states[j].results[id]
  {
    hide LogOk, Behavior, IsOptionsFailure;
    AlwaysLater(registry, states, moves, j, k);
    AlwaysInv(registry, states, moves, j);
    AlwaysInv(registry, states, moves, k);
    var a := WorkflowCompleted(id, states[j].origins[id].workflowFn, states[j].results[id]);
    var b := WorkflowCompleted(id, states[k].origins[id].workflowFn, states[k].results[id]);
    TerminalAgreement(registry, states, moves, j, k, id, a, b);
    CompletionIsNoReport(registry, states[j], id, a);
    CompletionIsNoReport(registry, states[k], id, b);
  }

  /** A workflow that has failed for any other reason than its options never has a result entry. */
  lemma {:induction false} FailedNeverHasResult(registry: Registry, states: seq<Cluster>, moves: seq<Move>,
                                                j: nat, k: nat, id: string, failure: Event)
    requires Behavior(registry, states, moves) && j < |states| && k < |states|
    requires id in states[j].logs && failure in states[j].logs[id]
    requires failure.WorkflowFailed? && !IsOptionsFailure(registry, states[j], id, failure)
    ensures id !in states[k].results
  {
    hide LogOk, Behavior, IsOptionsFailure;
    AlwaysInv(registry, states, moves, k);
    if id in states[k].results {
      var completion := WorkflowCompleted(id, states[k].origins[id].workflowFn, states[k].results[id]);
      CompletionIsNoReport(registry, states[k], id, completion);
      if j <= k {
        TerminalAgreement(registry, states, moves, j, k, id, failure, completion);
      } else {
        TerminalAgreement(registry, states, moves, k, j, id, completion, failure);
      }
    }
  }
}
