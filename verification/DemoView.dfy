/** The demo's view of a workflow: a fold of its history into one row per activity. */
module DemoView {
  import opened Api
  import opened Story
  import opened Sequential
  import opened Attempts

  datatype RetryAttempt = RetryAttempt(attempt: int, error: string, nextRetryDelay: int)

  /** One row of the view. Wall-clock fields are not modelled. */
  datatype StepDetail = StepDetail(
    name: string,
    status: string,
    attempts: int,
    error: string,
    retryHistory: seq<RetryAttempt>)

  function NewStep(name: string): StepDetail { StepDetail(name, "pending", 0, "", []) }

  // ---------------------------------------------------------------------------------------------
  // What a row should be
  // ---------------------------------------------------------------------------------------------

  /** A row after one more event about its activity. */
  function Touched(step: StepDetail, e: Event): StepDetail {
    var retries := |step.retryHistory| + 1;
    match e
    case ActivityScheduled(_, _, _, _, _, _, _) =>
      step.(status := "running", attempts := if step.attempts + 1 == 0 then 1 else step.attempts + 1)
    case ActivityCompleted(_, _, _, _) =>
      step.(status := "completed", attempts := if step.retryHistory != [] then retries else step.attempts)
    case ActivityFailed(_, _, _, error) =>
      step.(status := "failed", error := error, attempts := if retries > step.attempts then retries else step.attempts)
    case ActivityRetried(_, _, _, attempt, error, delay) =>
      step.(status := "running", error := "",
            retryHistory := step.retryHistory + [RetryAttempt(attempt, error, delay)],
            attempts := if retries + 1 > step.attempts then retries + 1 else step.attempts)
    case _ => step
  }

  /** The events that concern the row of `name`. */
  predicate Concerns(e: Event, name: string) {
    (e.ActivityScheduled? || e.ActivityRetried? || e.IsOutcome()) && e.ActivityName() == name
  }

  /** The row of `name` after `log`; a row that was not listed beforehand is created by a schedule. */
  function Row(listed: set<string>, log: seq<Event>, name: string): Option<StepDetail> {
    if log == [] then (if name in listed then Some(NewStep(name)) else None)
    else
      var before, e := Row(listed, log[..|log| - 1], name), log[|log| - 1];
      if Concerns(e, name) then RowAfter(before, e, name) else before
  }

  function RowAfter(before: Option<StepDetail>, e: Event, name: string): Option<StepDetail> {
    match before
    case Some(step) => Some(Touched(step, e))
    case None => if e.ActivityScheduled? then Some(Touched(NewStep(name), e)) else None
  }

  lemma {:induction false} RowAppend(listed: set<string>, log: seq<Event>, e: Event, name: string)
    ensures Row(listed, log + [e], name)
         == if Concerns(e, name) then RowAfter(Row(listed, log, name), e, name) else Row(listed, log, name)
  {
    assert (log + [e])[..|log|] == log;
  }

  /** The status a workflow's own events give it. */
  function StatusOf(log: seq<Event>): string {
    if log == [] then "pending"
    else
      match log[|log| - 1]
      case WorkflowStarted(_, _, _) => "running"
      case WorkflowCompleted(_, _, _) => "completed"
      case WorkflowFailed(_, _, _) => "failed"
      case _ => StatusOf(log[..|log| - 1])
  }

  lemma {:induction false} StatusAppend(log: seq<Event>, e: Event)
    ensures StatusOf(log + [e]) == match e
      case WorkflowStarted(_, _, _) => "running"
      case WorkflowCompleted(_, _, _) => "completed"
      case WorkflowFailed(_, _, _) => "failed"
      case _ => StatusOf(log)
  {
    assert (log + [e])[..|log|] == log;
  }

  // ---------------------------------------------------------------------------------------------
  // The view
  // ---------------------------------------------------------------------------------------------

  predicate Distinct(steps: seq<StepDetail>) {
    forall i, j :: 0 <= i < j < |steps| ==> steps[i].name != steps[j].name
  }

  predicate NoStep(steps: seq<StepDetail>, name: string) {
    forall i :: 0 <= i < |steps| ==> steps[i].name != name
  }

  /** One row per name, each as it should be, and none missing. */
  ghost predicate RowsOk(listed: set<string>, log: seq<Event>, steps: seq<StepDetail>) {
    && Distinct(steps)
    && (forall i :: 0 <= i < |steps| ==> Row(listed, log, steps[i].name) == Some(steps[i]))
    && (forall name :: NoStep(steps, name) ==> Row(listed, log, name) == None)
  }

  /** The rows once a schedule has made sure that its own exists. */
  function WithStep(steps: seq<StepDetail>, e: Event): seq<StepDetail> {
    if e.ActivityScheduled? && NoStep(steps, e.activityFn) then steps + [NewStep(e.activityFn)] else steps
  }

  lemma {:induction false} RowsUnchanged(listed: set<string>, log: seq<Event>, e: Event, steps: seq<StepDetail>)
    requires RowsOk(listed, log, steps)
    requires !Concerns(e, e.ActivityName()) || (NoStep(steps, e.ActivityName()) && !e.ActivityScheduled?)
    ensures RowsOk(listed, log + [e], steps)
  {
    hide Row;
    forall name ensures Row(listed, log + [e], name) == Row(listed, log, name) {
      RowAppend(listed, log, e, name);
    }
  }

  lemma {:induction false} RowTouched(listed: set<string>, log: seq<Event>, e: Event, steps: seq<StepDetail>,
                                      index: nat)
    requires RowsOk(listed, log, steps) && Concerns(e, e.ActivityName())
    requires index < |WithStep(steps, e)| && WithStep(steps, e)[index].name == e.ActivityName()
    ensures RowsOk(listed, log + [e], WithStep(steps, e)[index := Touched(WithStep(steps, e)[index], e)])
  {
    hide Row, Touched;
    TouchKeepsName(WithStep(steps, e)[index], e);
    forall name
      ensures Row(listed, log + [e], name)
        == if Concerns(e, name) then RowAfter(Row(listed, log, name), e, name) else Row(listed, log, name)
    {
      RowAppend(listed, log, e, name);
    }
    if WithStep(steps, e) != steps {
      assert Row(listed, log, e.activityFn) == None;
    }
    var after := WithStep(steps, e)[index := Touched(WithStep(steps, e)[index], e)];
    forall name | NoStep(after, name) ensures NoStep(steps, name) && name != e.ActivityName() {
      assert after[index].name != name;
      forall i | 0 <= i < |steps| ensures steps[i].name != name {
        assert after[i].name == steps[i].name;
      }
    }
  }

  lemma {:induction false} TouchKeepsName(step: StepDetail, e: Event)
    ensures Touched(step, e).name == step.name
  {
  }

  class WorkflowState {
    const workflowId: string
    ghost const listed: set<string>
    var status: string
    var currentStep: nat
    var stepDetails: seq<StepDetail>
    var result: Option<Value>
    var error: string
    /** The events handled so far. */
    ghost var seen: seq<Event>

    /** The rows are those of the events seen: one row per name, each as it should be, none missing. */
    ghost predicate Valid()
      reads this
    {
      && RowsOk(listed, seen, stepDetails)
      && status == StatusOf(seen)
    }

    constructor (id: string, steps: seq<StepDetail>)
      requires Distinct(steps) && forall i :: 0 <= i < |steps| ==> steps[i] == NewStep(steps[i].name)
      ensures Valid() && seen == [] && workflowId == id && stepDetails == steps
    {
      workflowId, status, currentStep, stepDetails, result, error := id, "pending", 0, steps, None, "";
      listed := set i | 0 <= i < |steps| :: steps[i].name;
      seen := [];
      new;
      forall name | NoStep(stepDetails, name) ensures name !in listed {
      }
    }

    method FindOrCreateStep(name: string) returns (i: nat)
      requires Distinct(stepDetails)
      modifies `stepDetails
      ensures i < |stepDetails| && stepDetails[i].name == name && Distinct(stepDetails)
      ensures stepDetails
           == if NoStep(old(stepDetails), name) then old(stepDetails) + [NewStep(name)] else old(stepDetails)
    {
      i := 0;
      while i < |stepDetails|
        invariant i <= |stepDetails|
        invariant forall j :: 0 <= j < i ==> stepDetails[j].name != name
      {
        if stepDetails[i].name == name {
          return;
        }
        i := i + 1;
      }
      assert NoStep(stepDetails, name);
      stepDetails := stepDetails + [NewStep(name)];
    }

    method FindStepByName(name: string) returns (i: int)
      ensures i == -1 <==> NoStep(stepDetails, name)
      ensures i != -1 ==> 0 <= i < |stepDetails| && stepDetails[i].name == name
    {
      i := 0;
      while i < |stepDetails|
        invariant 0 <= i <= |stepDetails|
        invariant forall j :: 0 <= j < i ==> stepDetails[j].name != name
      {
        if stepDetails[i].name == name {
          return;
        }
        i := i + 1;
      }
      i := -1;
    }

    /** Folds one more event about an activity into its row. */
    method UpdateStep(e: Event)
      requires RowsOk(listed, seen, stepDetails)
      modifies `currentStep, `stepDetails
      ensures RowsOk(listed, seen + [e], stepDetails)
      ensures if e.ActivityScheduled?
        then 1 <= currentStep <= |stepDetails| && stepDetails[currentStep - 1].name == e.activityFn
        else currentStep == old(currentStep)
    {
      assert Distinct(stepDetails);
      hide RowsOk, Row, Distinct, NoStep;
      ghost var before := stepDetails;
      var index := -1;
      match e {
        case ActivityScheduled(_, _, name, _, _, _, _) =>
          index := FindOrCreateStep(name);
          var step := stepDetails[index];
          var attempts := step.attempts + 1;
          currentStep := index + 1;
          if attempts == 0 {
            attempts := 1;
          }
          step := step.(status := "running", attempts := attempts);
          assert step == Touched(WithStep(before, e)[index], e);
          stepDetails := stepDetails[index := step];
        case ActivityCompleted(_, _, name, _) =>
          index := FindStepByName(name);
          if index >= 0 {
            var step := stepDetails[index].(status := "completed");
            if |step.retryHistory| > 0 {
              step := step.(attempts := |step.retryHistory| + 1);
            }
            assert step == Touched(before[index], e);
            stepDetails := stepDetails[index := step];
          }
        case ActivityFailed(_, _, name, failure) =>
          index := FindStepByName(name);
          if index >= 0 {
            var step := stepDetails[index].(status := "failed", error := failure);
            if |step.retryHistory| + 1 > step.attempts {
              step := step.(attempts := |step.retryHistory| + 1);
            }
            assert step == Touched(before[index], e);
            stepDetails := stepDetails[index := step];
          }
        case ActivityRetried(_, _, name, attempt, failure, delay) =>
          index := FindStepByName(name);
          if index >= 0 {
            var step := stepDetails[index].(status := "running", error := "");
            step := step.(retryHistory := step.retryHistory + [RetryAttempt(attempt, failure, delay)]);
            if |step.retryHistory| + 1 > step.attempts {
              step := step.(attempts := |step.retryHistory| + 1);
            }
            assert step == Touched(before[index], e);
            stepDetails := stepDetails[index := step];
          }
        case _ =>
      }
      hide Touched;
      if index >= 0 {
        RowTouched(listed, seen, e, before, index);
      } else {
        RowsUnchanged(listed, seen, e, before);
      }
    }

    /** Folds one more event into the view. */
    method Update(e: Event)
      requires Valid()
      modifies `status, `currentStep, `stepDetails, `result, `error, `seen
      ensures Valid() && seen == old(seen) + [e]
      ensures if e.ActivityScheduled?
        then 1 <= currentStep <= |stepDetails| && stepDetails[currentStep - 1].name == e.activityFn
        else currentStep == old(currentStep)
      ensures result == if e.WorkflowCompleted? && |e.result| > 0 then Some(e.result[0]) else old(result)
      ensures error == if e.WorkflowFailed? then e.error else old(error)
    {
      hide RowsOk, StatusOf;
      StatusAppend(seen, e);
      match e {
        case WorkflowStarted(_, _, _) =>
          status := "running";
        case WorkflowCompleted(_, _, values) =>
          status := "completed";
          if |values| > 0 {
            result := Some(values[0]);
          }
        case WorkflowFailed(_, _, failure) =>
          status := "failed";
          error := failure;
        case _ =>
      }
      UpdateStep(e);
      seen := seen + [e];
    }
  }

  class DemoHandler {
    var workflowStates: map<string, WorkflowState>
    ghost var states: set<WorkflowState>

    ghost predicate Valid()
      reads this, states
    {
      forall id :: id in workflowStates ==>
        workflowStates[id] in states && workflowStates[id].workflowId == id && workflowStates[id].Valid()
    }

    constructor ()
      ensures Valid() && workflowStates == map[] && states == {}
    {
      workflowStates, states := map[], {};
    }

    /** Registers a started workflow with the rows the demo always shows. */
    method Register(id: string, steps: seq<StepDetail>)
      requires Valid() && Distinct(steps) && forall i :: 0 <= i < |steps| ==> steps[i] == NewStep(steps[i].name)
      modifies this
      ensures Valid() && id in workflowStates && fresh(workflowStates[id])
      ensures workflowStates == old(workflowStates)[id := workflowStates[id]]
      ensures workflowStates[id].seen == [] && workflowStates[id].stepDetails == steps
    {
      var state := new WorkflowState(id, steps);
      workflowStates, states := workflowStates[id := state], states + {state};
    }

    /** Folds a history message into the view of its workflow; a message that cannot be decoded and an
        ID that was never registered change nothing. */
    method HandleEvent(message: Option<Event>)
      requires Valid()
      modifies states
      ensures Valid()
      ensures message.None? || message.value.id !in workflowStates ==>
        forall state :: state in states ==> unchanged(state)
      ensures message.Some? ==> forall id :: id in workflowStates ==>
        workflowStates[id].seen == old(workflowStates[id].seen) + if id == message.value.id then [message.value] else []
    {
      if message.None? {
        return;
      }
      var e := message.value;
      if e.id !in workflowStates {
        return;
      }
      workflowStates[e.id].Update(e);
    }
  }

  // ---------------------------------------------------------------------------------------------
  // The view agrees with the log
  // ---------------------------------------------------------------------------------------------

  function RetriesOf(log: seq<Event>, name: string): seq<RetryAttempt> {
    if log == [] then []
    else
      var e := log[|log| - 1];
      RetriesOf(log[..|log| - 1], name)
        + if e.ActivityRetried? && e.activityFn == name
          then [RetryAttempt(e.attempt, e.error, e.nextRetryDelay)] else []
  }

  /** The status a name's last event gives it. */
  function LastStatus(log: seq<Event>, name: string): string {
    if log == [] then "pending"
    else
      var e := log[|log| - 1];
      if !Concerns(e, name) then LastStatus(log[..|log| - 1], name)
      else if e.ActivityCompleted? then "completed" else if e.ActivityFailed? then "failed" else "running"
  }

  /** The error text of a name: that of its last failure, unless a retry came after it. A completion
      does not clear it. */
  function LastError(log: seq<Event>, name: string): string {
    if log == [] then ""
    else
      var e := log[|log| - 1];
      if Concerns(e, name) && e.ActivityFailed? then e.error
      else if Concerns(e, name) && e.ActivityRetried? then ""
      else LastError(log[..|log| - 1], name)
  }

  /** Nothing is heard of an activity before it is scheduled. */
  predicate Orderly(log: seq<Event>, name: string) {
    log == [] ||
      var init, e := log[..|log| - 1], log[|log| - 1];
      Orderly(init, name) && (Concerns(e, name) && !e.ActivityScheduled? ==> CountSchedules(init, name) > 0)
  }

  /** The row of a name, on an orderly log: there is one if it was listed or scheduled, its retry
      history is that name's retried events in order, its status is set by the name's last event, and
      its error text is that of the last failure no retry has followed. */
  lemma {:induction false} RowOfLog(listed: set<string>, log: seq<Event>, name: string)
    requires Orderly(log, name)
    ensures CountSchedules(log, name) == 0 ==>
      RetriesOf(log, name) == [] && LastStatus(log, name) == "pending" && LastError(log, name) == ""
    ensures var row := Row(listed, log, name);
      && (row.Some? <==> name in listed || CountSchedules(log, name) > 0)
      && (row.Some? ==>
            && row.value.name == name && row.value.status == LastStatus(log, name)
            && row.value.retryHistory == RetriesOf(log, name) && row.value.error == LastError(log, name))
  {
    if log != [] {
      RowOfLog(listed, log[..|log| - 1], name);
    }
  }

  /** The attempts shown are at least one more than the retries, and exactly one more when the name
      was scheduled once. */
  lemma {:induction false} AttemptsOfRow(listed: set<string>, log: seq<Event>, name: string)
    requires Orderly(log, name)
    ensures var row, count := Row(listed, log, name), CountSchedules(log, name);
      row.Some? ==>
        && (count == 0 ==> row.value.attempts == 0 && row.value.retryHistory == [])
        && (count >= 1 ==> row.value.attempts >= 1 + |row.value.retryHistory|)
        && (count == 1 ==> row.value.attempts == 1 + |row.value.retryHistory|)
  {
    if log != [] {
      RowOfLog(listed, log[..|log| - 1], name);
      AttemptsOfRow(listed, log[..|log| - 1], name);
    }
  }

  /** A completion of a name that has been retried sets the attempts shown anew. */
  predicate Resets(log: seq<Event>, name: string, e: Event) {
    e.ActivityCompleted? && e.activityFn == name && RetriesOf(log, name) != []
  }

  /** No event lowers the attempts shown, other than a completion of a name that has been retried, and
      such a completion shows one attempt more than the retries. */
  lemma {:induction false} AttemptsNeverDrop(listed: set<string>, log: seq<Event>, e: Event, name: string)
    requires Orderly(log, name) && Row(listed, log, name).Some?
    ensures Row(listed, log + [e], name).Some?
    ensures var before, after := Row(listed, log, name).value.attempts, Row(listed, log + [e], name).value.attempts;
      if Resets(log, name, e) then after == 1 + |RetriesOf(log, name)| else after >= before
  {
    hide Row;
    RowAppend(listed, log, e, name);
    RowOfLog(listed, log, name);
  }

  /** Where counting starts: after the last such completion, or after the first schedule. */
  function CountsFrom(log: seq<Event>, name: string): (t: nat)
    ensures t <= |log|
  {
    if log == [] then 0
    else
      var init, e := log[..|log| - 1], log[|log| - 1];
      if Resets(init, name, e) || (e.ActivityScheduled? && e.activityFn == name && CountSchedules(init, name) == 0)
      then |log| else CountsFrom(init, name)
  }

  /** The attempts that the retries up to `cut` and the schedules from there on account for. */
  function AttemptsAcross(log: seq<Event>, name: string, cut: nat): int
    requires cut <= |log|
  {
    1 + |RetriesOf(log[..cut], name)| + CountSchedules(log[cut..], name)
  }

  /** The exact number shown, for every orderly log: the largest that any cut accounts for, among the cuts
      where counting has started. */
  lemma {:induction false} AttemptsExactly(listed: set<string>, log: seq<Event>, name: string) returns (cut: nat)
    requires Orderly(log, name) && CountSchedules(log, name) > 0
    ensures Row(listed, log, name).Some? && CountsFrom(log, name) <= cut <= |log|
    ensures Row(listed, log, name).value.attempts == AttemptsAcross(log, name, cut)
    ensures forall c: nat | CountsFrom(log, name) <= c <= |log| ::
      AttemptsAcross(log, name, c) <= Row(listed, log, name).value.attempts
  {
    hide Row, AttemptsAcross, RetriesOf, CountSchedules, Orderly, Touched;
    ScheduledNotEmpty(log, name);
    var init, e := log[..|log| - 1], log[|log| - 1];
    assert log == init + [e];
    RowOfLog(listed, log, name);
    AttemptsOfRow(listed, log, name);
    AcrossAll(log, name);
    if CountsFrom(log, name) == |log| {
      cut := |log|;
      StartsExact(listed, init, e, name);
    } else {
      InitOrderly(log, name);
      cut := AttemptsExactly(listed, init, name);
      forall c: nat | c <= |init|
        ensures AttemptsAcross(log, name, c)
          == AttemptsAcross(init, name, c) + if e.ActivityScheduled? && e.activityFn == name then 1 else 0
      {
        AcrossAppend(init, e, name, c);
      }
      AttemptsStep(listed, init, e, name);
      if Row(listed, log, name).value.attempts == AttemptsAcross(log, name, |log|) {
        cut := |log|;
      }
    }
  }

  lemma {:induction false} ScheduledNotEmpty(log: seq<Event>, name: string)
    requires CountSchedules(log, name) > 0
    ensures log != []
  {
  }

  lemma {:induction false} AcrossAll(log: seq<Event>, name: string)
    ensures AttemptsAcross(log, name, |log|) == 1 + |RetriesOf(log, name)|
  {
    assert log[..|log|] == log && log[|log|..] == [];
  }

  lemma {:induction false} AcrossAppend(log: seq<Event>, e: Event, name: string, c: nat)
    requires c <= |log|
    ensures AttemptsAcross(log + [e], name, c)
         == AttemptsAcross(log, name, c) + if e.ActivityScheduled? && e.activityFn == name then 1 else 0
  {
    hide RetriesOf, CountSchedules;
    assert (log + [e])[..c] == log[..c] && (log + [e])[c..] == log[c..] + [e];
    CountSchedulesAppend(log[c..], e, name);
  }

  lemma {:induction false} InitOrderly(log: seq<Event>, name: string)
    requires log != [] && Orderly(log, name) && CountSchedules(log, name) > 0 && CountsFrom(log, name) < |log|
    ensures var init := log[..|log| - 1];
      Orderly(init, name) && CountSchedules(init, name) > 0 && CountsFrom(init, name) == CountsFrom(log, name)
  {
  }

  /** At the event counting starts from, one attempt more than the retries is shown. */
  lemma {:induction false} StartsExact(listed: set<string>, log: seq<Event>, e: Event, name: string)
    requires Orderly(log + [e], name) && CountsFrom(log + [e], name) == |log| + 1
    ensures Row(listed, log + [e], name).Some?
    ensures Row(listed, log + [e], name).value.attempts == 1 + |RetriesOf(log + [e], name)|
  {
    hide Row;
    assert (log + [e])[..|log|] == log;
    RowAppend(listed, log, e, name);
    RowOfLog(listed, log, name);
    AttemptsOfRow(listed, log, name);
  }

  /** Elsewhere a schedule adds one attempt, and any other event leaves the number or makes it one more
      than the retries, if that is more. */
  lemma {:induction false} AttemptsStep(listed: set<string>, log: seq<Event>, e: Event, name: string)
    requires Orderly(log + [e], name) && CountSchedules(log, name) > 0 && !Resets(log, name, e)
    ensures Row(listed, log, name).Some? && Row(listed, log + [e], name).Some?
    ensures var before, after := Row(listed, log, name).value.attempts, Row(listed, log + [e], name).value.attempts;
      if e.ActivityScheduled? && e.activityFn == name then after == before + 1
      else after >= before && (after == before || after == 1 + |RetriesOf(log + [e], name)|)
  {
    hide Row;
    assert (log + [e])[..|log|] == log;
    RowAppend(listed, log, e, name);
    RowOfLog(listed, log, name);
    AttemptsOfRow(listed, log, name);
  }

  /** An event after which the row no longer counts every attempt: a retry after the name was scheduled
      a second time, or a completion then, if the name has ever been retried. */
  ghost predicate Miscounts(log: seq<Event>, name: string, i: nat)
    requires i < |log|
  {
    && Concerns(log[i], name) && CountSchedules(log[..i], name) >= 2
    && (log[i].ActivityRetried? || (log[i].ActivityCompleted? && RetriesOf(log[..i], name) != []))
  }

  /** Exactly when the attempts shown are right. They never exceed the schedules and retries of the
      name together, and reach them if and only if the log has no miscounting event. */
  lemma {:induction false} AttemptsExactIff(listed: set<string>, log: seq<Event>, name: string)
    requires Orderly(log, name) && Row(listed, log, name).Some?
    ensures var attempts := Row(listed, log, name).value.attempts;
      var all := CountSchedules(log, name) + |RetriesOf(log, name)|;
      && attempts <= all
      && (attempts == all <==> forall i: nat | i < |log| :: !Miscounts(log, name, i))
  {
    if log != [] {
      var init, e := log[..|log| - 1], log[|log| - 1];
      RowOfLog(listed, init, name);
      AttemptsOfRow(listed, init, name);
      MiscountsOfPrefix(log, name);
      if Row(listed, init, name).Some? {
        AttemptsExactIff(listed, init, name);
        if Concerns(e, name) {
          ExactStep(Row(listed, init, name).value, e, CountSchedules(init, name));
        }
      } else {
        NothingMiscounts(init, name);
      }
    }
  }

  /** One event and one row: the row falls behind the true count exactly at a miscounting event, and
      never catches up. */
  lemma {:induction false} ExactStep(step: StepDetail, e: Event, schedules: nat)
    requires step.attempts <= schedules + |step.retryHistory|
    requires schedules == 0 ==> step.attempts == 0 && step.retryHistory == []
    requires schedules >= 1 ==> step.attempts >= 1 + |step.retryHistory|
    requires schedules == 1 ==> step.attempts == 1 + |step.retryHistory|
    requires schedules == 0 ==> e.ActivityScheduled?
    ensures var after := Touched(step, e);
      var all := schedules + |after.retryHistory| + if e.ActivityScheduled? then 1 else 0;
      && after.attempts <= all
      && (after.attempts == all <==>
            && step.attempts == schedules + |step.retryHistory|
            && !(schedules >= 2 && (e.ActivityRetried? || (e.ActivityCompleted? && step.retryHistory != []))))
  {
  }

  lemma {:induction false} MiscountsOfPrefix(log: seq<Event>, name: string)
    requires log != []
    ensures var init := log[..|log| - 1];
      (forall i: nat | i < |log| :: !Miscounts(log, name, i))
      <==> (forall i: nat | i < |init| :: !Miscounts(init, name, i)) && !Miscounts(log, name, |log| - 1)
  {
    hide CountSchedules, RetriesOf, Concerns;
    var init := log[..|log| - 1];
    forall i: nat | i < |init| ensures Miscounts(init, name, i) == Miscounts(log, name, i) {
      assert init[..i] == log[..i];
    }
  }

  /** Before a name is scheduled nothing is miscounted. */
  lemma {:induction false} NothingMiscounts(log: seq<Event>, name: string)
    requires CountSchedules(log, name) == 0
    ensures forall i: nat | i < |log| :: !Miscounts(log, name, i)
  {
    forall i: nat | i < |log| ensures CountSchedules(log[..i], name) == 0 {
      assert log == log[..i] + log[i..];
      CountSchedulesConcat(log[..i], log[i..], name);
    }
  }

  lemma {:induction false} ScheduleCounts(log: seq<Event>, e: Event)
    requires e in log && e.ActivityScheduled?
    ensures CountSchedules(log, e.activityFn) > 0
  {
    if e in log[..|log| - 1] {
      ScheduleCounts(log[..|log| - 1], e);
    }
  }

  /** A grammatical log is orderly. */
  lemma {:induction false} GrammarIsOrderly(log: seq<Event>, name: string)
    requires !Parse(log).stage.Malformed?
    ensures Orderly(log, name)
  {
    if log != [] {
      var init, e := log[..|log| - 1], log[|log| - 1];
      MalformedStays(Parse(init), e);
      GrammarIsOrderly(init, name);
      EndEvents(init);
      SchedulesKnown(init);
      var stage := Parse(init).stage;
      if stage.Busy? {
        ScheduleCounts(init, stage.schedule);
      }
    }
  }

  /** A row is running exactly while its call is open. */
  lemma {:induction false} RunningIffOpen(log: seq<Event>, name: string)
    requires !Parse(log).stage.Malformed?
    ensures LastStatus(log, name) == "running" <==>
      Parse(log).stage.Busy? && Parse(log).stage.schedule.ActivityName() == name
  {
    if log != [] {
      var init, e := log[..|log| - 1], log[|log| - 1];
      MalformedStays(Parse(init), e);
      RunningIffOpen(init, name);
      EndEvents(init);
    }
  }

  /** The overall status is the stage of the log. */
  lemma {:induction false} StatusIsStage(log: seq<Event>)
    requires !Parse(log).stage.Malformed?
    ensures StatusOf(log) == match Parse(log).stage
      case NotStarted => "pending"
      case Finished(_) => "completed"
      case Broken(_, _) => "failed"
      case _ => "running"
  {
    if log != [] {
      var init, e := log[..|log| - 1], log[|log| - 1];
      MalformedStays(Parse(init), e);
      StatusIsStage(init);
      EndEvents(init);
    }
  }

  /** The view of a workflow whose whole log has been handled agrees with that log, row by row. */
  lemma {:induction false} ViewAgrees(view: WorkflowState)
    requires view.Valid() && !Parse(view.seen).stage.Malformed?
    ensures Distinct(view.stepDetails)
    ensures forall e :: e in view.seen && e.ActivityScheduled? ==> !NoStep(view.stepDetails, e.activityFn)
    ensures forall step :: step in view.stepDetails ==>
      && step.retryHistory == RetriesOf(view.seen, step.name)
      && step.status == LastStatus(view.seen, step.name) && step.error == LastError(view.seen, step.name)
      && (step.status == "running" <==>
            Parse(view.seen).stage.Busy? && Parse(view.seen).stage.schedule.ActivityName() == step.name)
      && (CountSchedules(view.seen, step.name) >= 1 ==> step.attempts >= 1 + |step.retryHistory|)
      && (CountSchedules(view.seen, step.name) == 1 ==> step.attempts == 1 + |step.retryHistory|)
  {
    hide Row, Parse, Orderly, LastStatus, LastError, RetriesOf, CountSchedules;
    forall step | step in view.stepDetails
      ensures Orderly(view.seen, step.name) && Row(view.listed, view.seen, step.name) == Some(step)
    {
      GrammarIsOrderly(view.seen, step.name);
    }
    forall step | step in view.stepDetails
      ensures step.retryHistory == RetriesOf(view.seen, step.name) && step.status == LastStatus(view.seen, step.name)
      ensures step.error == LastError(view.seen, step.name)
      ensures step.status == "running" <==>
        Parse(view.seen).stage.Busy? && Parse(view.seen).stage.schedule.ActivityName() == step.name
      ensures CountSchedules(view.seen, step.name) >= 1 ==> step.attempts >= 1 + |step.retryHistory|
      ensures CountSchedules(view.seen, step.name) == 1 ==> step.attempts == 1 + |step.retryHistory|
    {
      GrammarIsOrderly(view.seen, step.name);
      RunningIffOpen(view.seen, step.name);
      RowOfLog(view.listed, view.seen, step.name);
      AttemptsOfRow(view.listed, view.seen, step.name);
    }
    forall e | e in view.seen && e.ActivityScheduled? ensures !NoStep(view.stepDetails, e.activityFn) {
      ScheduleCounts(view.seen, e);
      GrammarIsOrderly(view.seen, e.activityFn);
      RowOfLog(view.listed, view.seen, e.activityFn);
    }
  }

  /** Two calls of one activity, each retried once and then completed. */
  function TwoCalls(): seq<Event> {
    [ ActivityScheduled("w", "F", "A", [], 0, 0, None), ActivityRetried("w", "F", "A", 1, "boom", 1000),
      ActivityCompleted("w", "F", "A", []),
      ActivityScheduled("w", "F", "A", [], 0, 0, None), ActivityRetried("w", "F", "A", 1, "boom", 1000),
      ActivityCompleted("w", "F", "A", []) ]
  }

  /** For a name scheduled twice the attempts shown can fall short of the bodies that ran: four ran,
      and three are shown. */
  lemma {:induction false} AttemptsUndercount()
    ensures CountSchedules(TwoCalls(), "A") + |RetriesOf(TwoCalls(), "A")| == 4
    ensures Row({}, TwoCalls(), "A").Some? && Row({}, TwoCalls(), "A").value.attempts == 3
  {
    hide Row, CountSchedules, RetriesOf;
    var log := TwoCalls();
    assert log[..6] == log;
    EmptyLog();
    for i := 0 to 6
      invariant Row({}, log[..i], "A") == RowAt(i)
      invariant CountSchedules(log[..i], "A") + |RetriesOf(log[..i], "A")| == ShouldShow(i)
    {
      assert log[..i + 1] == log[..i] + [log[i]];
      RowAppend({}, log[..i], log[i], "A");
      CountSchedulesAppend(log[..i], log[i], "A");
      RetriesOfAppend(log[..i], log[i], "A");
      RowAtNext(i);
    }
  }

  lemma {:induction false} EmptyLog()
    ensures Row({}, [], "A") == None && CountSchedules([], "A") == 0 && RetriesOf([], "A") == []
  {
  }

  lemma {:induction false} RetriesOfAppend(log: seq<Event>, e: Event, name: string)
    ensures RetriesOf(log + [e], name) == RetriesOf(log, name)
      + if e.ActivityRetried? && e.activityFn == name then [RetryAttempt(e.attempt, e.error, e.nextRetryDelay)] else []
  {
    assert (log + [e])[..|log|] == log;
  }

  lemma {:induction false} RowAtNext(i: nat)
    requires i < 6
    ensures RowAt(i + 1) == RowAfter(RowAt(i), TwoCalls()[i], "A")
  {
    var retry := RetryAttempt(1, "boom", 1000);
    assert [] + [retry] == [retry] && [retry] + [retry] == [retry, retry];
  }

  function ShouldShow(i: int): int { if i <= 2 then i else if i == 3 then 2 else if i == 4 then 3 else 4 }

  function RowAt(i: int): Option<StepDetail>
    requires 0 <= i <= 6
  {
    var retry := RetryAttempt(1, "boom", 1000);
    match i
    case 0 => None
    case 1 => Some(StepDetail("A", "running", 1, "", []))
    case 2 => Some(StepDetail("A", "running", 2, "", [retry]))
    case 3 => Some(StepDetail("A", "completed", 2, "", [retry]))
    case 4 => Some(StepDetail("A", "running", 3, "", [retry]))
    case 5 => Some(StepDetail("A", "running", 3, "", [retry, retry]))
    case _ => Some(StepDetail("A", "completed", 3, "", [retry, retry]))
  }
}
