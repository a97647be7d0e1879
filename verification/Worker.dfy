/** What a worker does with a workflow task: replay the workflow on the log and record the result. */
module Worker {
  import opened Api
  import opened History
  import opened Futures
  import opened Options
  import opened Workflows
  import opened Engine
  import opened Retry

  /** A registered workflow function: `convert` reports why the decoded input does not fit the
      function's parameters, if it does not. */
  datatype Registered = Registered(convert: seq<Value> -> Option<string>, body: seq<Value> -> Program)

  type Registry = map<string, Registered>

  datatype Resolution = Rejected(error: string) | Body(program: Program)

  function Resolve(registry: Registry, task: WorkflowTask): (r: Resolution)
    ensures r.Body? <==> task.workflowFn in registry && registry[task.workflowFn].convert(task.input).None?
    ensures r.Body? ==> r.program == registry[task.workflowFn].body(task.input)
    ensures r.Rejected? && task.workflowFn in registry ==>
      registry[task.workflowFn].convert(task.input) == Some(r.error)
    ensures task.workflowFn !in registry ==> r == Rejected("key " + task.workflowFn + " have no value")
  {
    if task.workflowFn !in registry then Rejected("key " + task.workflowFn + " have no value")
    else
      match registry[task.workflowFn].convert(task.input)
      case Some(error) => Rejected(error)
      case None => Body(registry[task.workflowFn].body(task.input))
  }

  function PanicText(reason: PanicReason): (text: string)
    ensures forall m :: reason == User(m) ==> text == "workflow panic: " + m
    ensures reason == NilPointer ==>
      text == "workflow panic: " + "runtime error: invalid memory address or nil pointer dereference"
    ensures reason == BadOptions ==> text == "workflow panic: " + "ActivityOptions has wrong type in context."
  {
    "workflow panic: " +
    match reason
    case User(message) => message
    case NilPointer => "runtime error: invalid memory address or nil pointer dereference"
    case BadOptions => "ActivityOptions has wrong type in context."
  }

  /** The event that ends the workflow, if the run reached an end. */
  function FinalEvents(task: WorkflowTask, status: Status): seq<Event> {
    match status
    case Returned(result) => [WorkflowCompleted(task.id, task.workflowFn, result)]
    case Panicked(reason) => [WorkflowFailed(task.id, task.workflowFn, PanicText(reason))]
    case _ => []
  }

  /** The schedules a run records: one for each call the log does not answer, in call order. The
      clock is read once per call. */
  function FreshEvents(h: seq<Event>, calls: seq<Call>, clock: nat -> int): (r: seq<Event>) {
    if calls == [] then []
    else
      var i := |calls| - 1;
      FreshEvents(h, calls[..i], clock) +
      if Answer(Replayed(h), calls, i).Resolved? then []
      else [ScheduledEvent(IdentityOf(h).0, IdentityOf(h).1, calls[i].activityFn, calls[i].args,
                           OptionsOf(calls[i].context), clock(i))]
  }

  lemma {:induction false} FreshEventsAppend(h: seq<Event>, calls: seq<Call>, call: Call, clock: nat -> int)
    ensures FreshEvents(h, calls + [call], clock) == FreshEvents(h, calls, clock) +
      if Answer(Replayed(h), calls + [call], |calls|).Resolved? then []
      else [ScheduledEvent(IdentityOf(h).0, IdentityOf(h).1, call.activityFn, call.args,
                           OptionsOf(call.context), clock(|calls|))]
  {
    assert (calls + [call])[..|calls|] == calls;
  }

  lemma {:induction false} FreshEventsAreSchedules(h: seq<Event>, calls: seq<Call>, clock: nat -> int)
    ensures forall e :: e in FreshEvents(h, calls, clock) ==>
      e.ActivityScheduled? && (e.id, e.workflowFn) == IdentityOf(h)
  {
    if calls != [] {
      FreshEventsAreSchedules(h, calls[..|calls| - 1], clock);
    }
  }

  /** What a task adds to the log, and whether the worker reports an error for it. */
  datatype TaskResult = TaskResult(events: seq<Event>, failed: bool)

  /** `n` is any number of steps after which the run has stopped. */
  function RunTask(registry: Registry, task: WorkflowTask, h: seq<Event>, n: nat, clock: nat -> int): TaskResult {
    match Resolve(registry, task)
    case Rejected(error) => TaskResult([WorkflowFailed(task.id, task.workflowFn, error)], true)
    case Body(p) =>
      var r := RunN(p, Replayed(h), n);
      TaskResult(FreshEvents(h, r.calls, clock) + FinalEvents(task, r.status), r.status.Panicked?)
  }

  /** What a workflow task adds to the log: the failure that says why the function cannot be called, or
      the schedules of a run of the registered code on the task's input, then the end of that run. */
  lemma {:induction false} TaskRunsRegisteredCode(registry: Registry, task: WorkflowTask, h: seq<Event>, n: nat,
                                                  clock: nat -> int)
    ensures var result := RunTask(registry, task, h, n, clock);
      if task.workflowFn !in registry then
        result == TaskResult(
          [WorkflowFailed(task.id, task.workflowFn, "key " + task.workflowFn + " have no value")], true)
      else if registry[task.workflowFn].convert(task.input).Some? then
        result == TaskResult(
          [WorkflowFailed(task.id, task.workflowFn, registry[task.workflowFn].convert(task.input).value)], true)
      else
        var r := RunN(registry[task.workflowFn].body(task.input), Replayed(h), n);
        && result.failed == r.status.Panicked?
        && result.events == FreshEvents(h, r.calls, clock) + match r.status
           case Returned(values) => [WorkflowCompleted(task.id, task.workflowFn, values)]
           case Panicked(reason) => [WorkflowFailed(task.id, task.workflowFn, PanicText(reason))]
           case _ => []
  {
    hide RunN, FreshEvents, PanicText;
  }

  ghost predicate TaskStops(registry: Registry, task: WorkflowTask, h: seq<Event>, n: nat) {
    Resolve(registry, task).Body? ==> Stopped(RunN(Resolve(registry, task).program, Replayed(h), n))
  }

  lemma {:induction false} RunsBeforeStop(p: Program, a: Answers, i: nat, n: nat)
    requires RunN(p, a, i).status.Running? && Stopped(RunN(p, a, n))
    ensures i < n
  {
    hide Step;
    if n <= i {
      ContinueAdds(p, a, NEW_RUN, n, i - n);
      StoppedStays(p, a, RunN(p, a, n), i - n);
    }
  }

  /** The contexts workflow code holds share one state and carry the values of the abstract run. */
  ghost predicate ContextsMatch(state: WorkflowState, contexts: seq<WorkflowContext>, r: Run) {
    && |contexts| == |r.contexts|
    && forall j :: 0 <= j < |contexts| ==> contexts[j].state == state && contexts[j].values == r.contexts[j]
  }

  ghost predicate FuturesMatch(futures: seq<Future>, h: seq<Event>, calls: seq<Call>) {
    && |futures| == |calls|
    && forall j :: 0 <= j < |futures| ==> futures[j] == Answer(Replayed(h), calls, j)
  }

  lemma {:induction false} FuturesMatchAppend(futures: seq<Future>, h: seq<Event>, calls: seq<Call>, call: Call)
    requires FuturesMatch(futures, h, calls)
    ensures FuturesMatch(futures + [Answer(Replayed(h), calls + [call], |calls|)], h, calls + [call])
  {
    forall j | 0 <= j < |futures|
      ensures Answer(Replayed(h), calls + [call], j) == Answer(Replayed(h), calls, j)
    {
      AnswerOnPrefix(Replayed(h), calls, calls + [call], j);
    }
  }

  /** The state has recorded the schedules of `calls`. */
  ghost predicate Recorded(state: WorkflowState, h: seq<Event>, calls: seq<Call>, clock: nat -> int)
    reads state, state.entries
  {
    state.Valid() && state.uncommitted == FreshEvents(h, calls, clock)
  }

  /** The shared state is the one reached on log `h` after `calls`. */
  ghost predicate StateMatches(state: WorkflowState, h: seq<Event>, calls: seq<Call>, clock: nat -> int)
    reads state, state.entries
  {
    && Recorded(state, h, calls, clock)
    && IdentityOf(state.applied) == IdentityOf(h)
    && (forall name :: OutcomesOf(state.applied, name) == OutcomesOf(h, name))
    && (forall name :: state.Consumed(name) == CountCalls(calls, name))
  }

  /** `ExecuteActivity` on a live context is the abstract call. */
  method Perform(c: WorkflowContext, name: string, args: seq<Value>, now: int,
                 ghost h: seq<Event>, ghost calls: seq<Call>, ghost clock: nat -> int)
    returns (issued: ExecuteResult)
    requires StateMatches(c.state, h, calls, clock) && now == clock(|calls|)
    modifies c.state, c.state.entries
    ensures fresh(c.state.entries - old(c.state.entries))
    ensures var next := calls + [Call(c.values, name, args)];
      var answer := Answer(Replayed(h), next, |calls|);
      if answer.Pending? && IllTyped(c.values)
      then issued == WrongOptions && Recorded(c.state, h, calls, clock)
      else issued == Issued(answer) && StateMatches(c.state, h, next, clock) && Recorded(c.state, h, next, clock)
  {
    hide FreshEvents;
    hide OutcomesOf;
    hide CountCalls;
    ghost var call := Call(c.values, name, args);
    FreshEventsAppend(h, calls, call, clock);
    CountCallsAppend(calls, call);
    assert (calls + [call])[..|calls|] == calls;
    ghost var applied := c.state.applied;
    issued := c.ExecuteActivity(name, args, now);
    if issued == Issued(Pending) {
      OutcomesUnchanged(applied, c.state.applied[|applied|]);
    }
  }

  lemma {:induction false} StateMatchesAtStart(state: WorkflowState, clock: nat -> int)
    requires state.Valid() && state.uncommitted == [] && forall name :: state.Consumed(name) == 0
    ensures StateMatches(state, state.applied, [], clock) && Recorded(state, state.applied, [], clock)
  {
  }

  /** Runs workflow code against the replay state until it returns, panics or has to wait. */
  method ExecuteBody(state: WorkflowState, p: Program, clock: nat -> int, ghost n: nat) returns (status: Status)
    requires state.Valid() && state.uncommitted == [] && forall name :: state.Consumed(name) == 0
    requires Stopped(RunN(p, Replayed(state.applied), n))
    modifies state, state.entries
    ensures fresh(state.entries - old(state.entries))
    ensures status == RunN(p, Replayed(old(state.applied)), n).status
    ensures Recorded(state, old(state.applied), RunN(p, Replayed(old(state.applied)), n).calls, clock)
  {
    hide FreshEvents;
    hide Answer;
    hide StateMatches;
    hide Recorded;
    ghost var h := state.applied;
    ghost var r := NEW_RUN;
    StateMatchesAtStart(state, clock);
    ghost var i: nat := 0;
    var root := new WorkflowContext(state, map[]);
    var contexts, futures := [root], [];
    var observations := [];
    status := Running;
    while status.Running?
      invariant r == RunN(p, Replayed(h), i) && status == r.status && observations == r.observations
      invariant ContextsMatch(state, contexts, r) && FuturesMatch(futures, h, r.calls)
      invariant status.Running? ==> StateMatches(state, h, r.calls, clock)
      invariant Recorded(state, h, r.calls, clock)
      invariant fresh(state.entries - old(state.entries))
      invariant r.status.Running? ==> i < n
      decreases n - i
    {
      ghost var next := Step(p, Replayed(h), r);
      match p(observations) {
        case WithValue(c, key, value) =>
          if c >= |contexts| {
            status := Panicked(NilPointer);
          } else {
            var derived := contexts[c].WithValue(key, value);
            contexts, observations := contexts + [derived], observations + [Derived];
          }
        case Execute(c, name, args) =>
          if c >= |contexts| {
            status := Panicked(NilPointer);
          } else {
            var issued := Perform(contexts[c], name, args, clock(|futures|), h, r.calls, clock);
            ghost var _ := StepExecute(p, Replayed(h), r, c, name, args);
            match issued {
              case WrongOptions =>
                status := Panicked(BadOptions);
              case Issued(f) =>
                FuturesMatchAppend(futures, h, r.calls, Call(r.contexts[c], name, args));
                futures, observations := futures + [f], observations + [Called];
            }
          }
        case Await(f, wanted) =>
          if f >= |futures| {
            status := Panicked(NilPointer);
          } else {
            var got := Get(futures[f], wanted);
            if got.Suspends? {
              status := Suspended;
            } else {
              observations := observations + [Got(got)];
            }
          }
        case Return(result) =>
          status := Returned(result);
        case Panic(message) =>
          status := Panicked(User(message));
      }
      r, i := next, i + 1;
      assert r == RunN(p, Replayed(h), i);
      if status.Running? {
        RunsBeforeStop(p, Replayed(h), i, n);
      }
    }
    StopsOnce(p, Replayed(h), i, n);
  }

  /** Replays the workflow and records how the task went; an error makes the caller send a NAK. */
  method ProcessWorkflowTask(state: WorkflowState, registry: Registry, task: WorkflowTask, clock: nat -> int,
                             ghost n: nat)
    returns (failed: bool)
    requires state.Valid() && state.uncommitted == [] && forall name :: state.Consumed(name) == 0
    requires TaskStops(registry, task, state.applied, n)
    modifies state, state.entries
    ensures TaskResult(state.uncommitted, failed) == RunTask(registry, task, old(state.applied), n, clock)
  {
    hide FreshEvents;
    hide RunN;
    if task.workflowFn !in registry {
      state.RecordThat(WorkflowFailed(task.id, task.workflowFn, "key " + task.workflowFn + " have no value"));
      return true;
    }
    var mismatch := registry[task.workflowFn].convert(task.input);
    if mismatch.Some? {
      state.RecordThat(WorkflowFailed(task.id, task.workflowFn, mismatch.value));
      return true;
    }
    var status := ExecuteBody(state, registry[task.workflowFn].body(task.input), clock, n);
    match status {
      case Returned(result) =>
        state.RecordThat(WorkflowCompleted(task.id, task.workflowFn, result));
        failed := false;
      case Panicked(reason) =>
        state.RecordThat(WorkflowFailed(task.id, task.workflowFn, PanicText(reason)));
        failed := true;
      case _ =>
        failed := false;
    }
  }

  /** Rebuilds the replay state from a log. */
  method Load(log: seq<Event>) returns (state: WorkflowState)
    ensures fresh(state) && fresh(state.entries)
    ensures state.Valid() && state.applied == log && state.uncommitted == []
    ensures forall name :: state.Consumed(name) == 0
  {
    state := new WorkflowState();
    for i := 0 to |log|
      invariant fresh(state) && fresh(state.entries)
      invariant state.Valid() && state.applied == log[..i] && state.uncommitted == []
      invariant forall name :: state.Consumed(name) == 0
    {
      state.Apply(log[i]);
    }
  }

  datatype Disposition = Acked | Naked | Terminated

  /** One workflow task from receipt to save. The task is acknowledged first: a worker that dies
      before the save has settled the task and appended nothing. */
  method HandleWorkflowTask(log: seq<Event>, registry: Registry, task: WorkflowTask, clock: nat -> int,
                            diesBeforeSave: bool, ghost n: nat)
    returns (disposition: Disposition, saved: seq<Event>)
    requires TaskStops(registry, task, log, n)
    ensures log == [] ==> disposition == Terminated && saved == []
    ensures log != [] ==> var result := RunTask(registry, task, log, n, clock);
      && disposition == (if result.failed then Naked else Acked)
      && saved == if diesBeforeSave then [] else result.events
  {
    if log == [] {
      return Terminated, [];
    }
    var state := Load(log);
    var failed := ProcessWorkflowTask(state, registry, task, clock, n);
    disposition := if failed then Naked else Acked;
    saved := if diesBeforeSave then [] else state.uncommitted;
  }

  /** The event one attempt of an activity records, given what its body returned. */
  function AttemptEvent(task: ActivityTask, outcome: Outcome, nowMs: int, outOfRange: int): Event {
    match outcome
    case Completed(result) => ActivityCompleted(task.id, task.workflowFn, task.activityFn, result)
    case Failed(error) =>
      if ShouldRetry(task, error, nowMs, outOfRange) then
        ActivityRetried(task.id, task.workflowFn, task.activityFn, task.attempt, error,
                        Milliseconds(RetryDelay(task, outOfRange)))
      else ActivityFailed(task.id, task.workflowFn, task.activityFn, error)
  }

  /** A registered activity function: `convert` reports why an input does not fit its parameters, in
      number or in type, if it does not. */
  datatype RegisteredActivity = RegisteredActivity(convert: seq<Value> -> Option<string>)

  type ActivityRegistry = map<string, RegisteredActivity>

  /** An attempt with this input gets as far as calling the activity's body. */
  predicate Fits(activities: ActivityRegistry, activityFn: string, input: seq<Value>) {
    activityFn in activities && activities[activityFn].convert(input).None?
  }

  /** What an attempt comes to: an input that does not fit is an error, and the body is not called. */
  function AttemptOutcome(activities: ActivityRegistry, task: ActivityTask, returned: Outcome): (r: Outcome)
    requires task.activityFn in activities
    ensures Fits(activities, task.activityFn, task.input) ==> r == returned
    ensures !Fits(activities, task.activityFn, task.input) ==> r.Failed?
  {
    match activities[task.activityFn].convert(task.input)
    case Some(error) => Failed(error)
    case None => returned
  }

  /** Makes one attempt and records its outcome; `returned` is what the body returns if it is called. */
  method ProcessActivityTask(state: WorkflowState, activities: ActivityRegistry, task: ActivityTask,
                             returned: Outcome, nowMs: int, outOfRange: int)
    returns (failed: bool, called: bool)
    requires state.Valid() && state.uncommitted == []
    modifies state, state.entries
    ensures failed == (task.activityFn !in activities)
    ensures called == Fits(activities, task.activityFn, task.input)
    ensures state.uncommitted == if failed then []
      else [AttemptEvent(task, AttemptOutcome(activities, task, returned), nowMs, outOfRange)]
  {
    if task.activityFn !in activities {
      return true, false;
    }
    var mismatch := activities[task.activityFn].convert(task.input);
    called := mismatch.None?;
    var outcome := if called then returned else Failed(mismatch.value);
    match outcome {
      case Completed(result) =>
        state.RecordThat(ActivityCompleted(task.id, task.workflowFn, task.activityFn, result));
      case Failed(error) =>
        if ShouldRetry(task, error, nowMs, outOfRange) {
          var delay := RetryDelay(task, outOfRange);
          state.RecordThat(ActivityRetried(task.id, task.workflowFn, task.activityFn, task.attempt, error,
                                           Milliseconds(delay)));
        } else {
          state.RecordThat(ActivityFailed(task.id, task.workflowFn, task.activityFn, error));
        }
    }
    failed := false;
  }

  /** One activity task from receipt to save, with the same order of acknowledgement and save. */
  method HandleActivityTask(log: seq<Event>, activities: ActivityRegistry, task: ActivityTask, returned: Outcome,
                            nowMs: int, outOfRange: int, diesBeforeSave: bool)
    returns (disposition: Disposition, called: bool, saved: seq<Event>)
    ensures log == [] ==> disposition == Terminated && !called && saved == []
    ensures log != [] ==> called == Fits(activities, task.activityFn, task.input)
    ensures log != [] && task.activityFn !in activities ==> disposition == Naked && saved == []
    ensures log != [] && task.activityFn in activities ==>
      && disposition == Acked
      && saved == if diesBeforeSave then []
           else [AttemptEvent(task, AttemptOutcome(activities, task, returned), nowMs, outOfRange)]
  {
    if log == [] {
      return Terminated, false, [];
    }
    var state := Load(log);
    var failed;
    failed, called := ProcessActivityTask(state, activities, task, returned, nowMs, outOfRange);
    disposition := if failed then Naked else Acked;
    saved := if diesBeforeSave then [] else state.uncommitted;
  }
}
