/** The server side: the start command and the four projectors that read the history stream. */
module Projection {
  import opened Api
  import opened History
  import opened Options
  import opened Worker

  // ---------------------------------------------------------------------------------------------
  // What each projector makes of an event
  // ---------------------------------------------------------------------------------------------

  datatype Projected<+T> = Publish(task: T) | Ignore | Drop

  /** Started and outcome events wake the workflow. The input of later tasks comes from the input
      bucket; without an entry the event is terminated and no task is made. */
  function WorkflowTaskFor(inputs: map<string, seq<Value>>, e: Event): Projected<WorkflowTask> {
    if e.WorkflowStarted? then Publish(WorkflowTask(e.id, e.workflowFn, e.input))
    else if e.IsOutcome() then
      var key := WorkflowInputKey(e.workflowFn, e.id);
      if key in inputs then Publish(WorkflowTask(e.id, e.workflowFn, inputs[key])) else Drop
    else Ignore
  }

  function FirstAttempt(e: Event, nowMs: int): ActivityTask
    requires e.ActivityScheduled?
  {
    ActivityTask(e.workflowFn, e.id, e.activityFn, e.input, 1, e.scheduleToClose, e.startToClose, e.policy, nowMs)
  }

  /** The task for the attempt after `e`, with the payload of `schedule`. */
  function RetryAttempt(e: Event, schedule: Event, stampMs: int): ActivityTask
    requires e.ActivityRetried? && schedule.ActivityScheduled?
  {
    ActivityTask(e.workflowFn, e.id, e.activityFn, schedule.input, WrapInt32(e.attempt + 1),
                 schedule.scheduleToClose, schedule.startToClose, schedule.policy, stampMs)
  }

  /** How long the retry projector sleeps for a retried event. */
  function SleepOf(e: Event): Duration
    requires e.ActivityRetried?
  {
    WrapInt64(e.nextRetryDelay * MILLISECOND)
  }

  const WINDOW: nat := 100

  /** The events one fetch returns. */
  function Window(log: seq<Event>): seq<Event> {
    if |log| <= WINDOW then log else log[..WINDOW]
  }

  /** The retry task is rebuilt from the first schedule of the name in the window. */
  function RetryTaskFor(log: seq<Event>, e: Event, stampMs: int): Option<ActivityTask>
    requires e.ActivityRetried?
  {
    match FirstSchedule(Window(log), e.activityFn)
    case None => None
    case Some(i) => Some(RetryAttempt(e, Window(log)[i], stampMs))
  }

  // ---------------------------------------------------------------------------------------------
  // Subjects
  // ---------------------------------------------------------------------------------------------

  /** `strings.Split(s, ".")`. */
  function Split(s: string): (r: seq<string>)
    ensures |r| >= 1
  {
    if s == "" then [""]
    else
      var rest := Split(s[1..]);
      if s[0] == '.' then [""] + rest else [[s[0]] + rest[0]] + rest[1..]
  }

  function Join(parts: seq<string>): string
    requires |parts| >= 1
  {
    if |parts| == 1 then parts[0] else parts[0] + "." + Join(parts[1..])
  }

  lemma {:induction false} SplitThenJoin(s: string)
    ensures Join(Split(s)) == s
    ensures forall part :: part in Split(s) ==> '.' !in part
  {
    if s != "" {
      SplitThenJoin(s[1..]);
      var rest := Split(s[1..]);
      if s[0] == '.' {
        assert Split(s)[1..] == rest;
        assert s == "." + s[1..];
      } else {
        assert Split(s)[1..] == rest[1..];
        assert s == [s[0]] + s[1..];
        assert '.' !in rest[0];
      }
    }
  }

  lemma {:induction false} SplitAfterWord(word: string, s: string)
    requires '.' !in word
    ensures Split(word + "." + s) == [word] + Split(s)
  {
    var whole := word + "." + s;
    if word == "" {
      assert whole == "." + s && whole[1..] == s;
    } else {
      assert whole[1..] == word[1..] + "." + s;
      SplitAfterWord(word[1..], s);
      assert [word[0]] + word[1..] == word;
      assert ([word[1..]] + Split(s))[1..] == Split(s);
    }
  }

  function HistorySubject(id: string): string { "history." + id }
  function WorkflowSubject(id: string): string { "workflow." + id + ".tasks" }
  function ActivitySubject(token: string): string { "activity." + token + ".tasks" }

  /** First attempts are routed by the history subject, retries by the ID: always to one subject. */
  lemma {:induction false} RoutingAgreement(id: string)
    ensures |Split(HistorySubject(id))| > 1
    ensures Split(HistorySubject(id))[1] == Split(id)[0]
  {
    assert HistorySubject(id) == "history" + "." + id;
    SplitAfterWord("history", id);
  }

  /** The routing token is the ID itself exactly when the ID has no dot. */
  lemma {:induction false} RoutesToOwnToken(id: string)
    ensures Split(id)[0] == id <==> '.' !in id
  {
    SplitThenJoin(id);
    var head := Split(id)[0];
    assert head in Split(id);
    assert |Split(id)| > 1 ==> id[|head|] == '.';
  }

  lemma {:induction false} SplitBeforeWord(s: string, word: string)
    requires '.' !in word
    ensures Split(s + "." + word) == Split(s) + [word]
  {
    if s == "" {
      SplitAfterWord("", word);
      assert "" + "." + word == s + "." + word;
      SplitWord(word);
    } else {
      assert (s + "." + word)[1..] == s[1..] + "." + word;
      SplitBeforeWord(s[1..], word);
    }
  }

  lemma {:induction false} SplitWord(word: string)
    requires '.' !in word
    ensures Split(word) == [word]
  {
    if word != "" {
      SplitWord(word[1..]);
      assert [word[0]] + word[1..] == word;
    }
  }

  /** A subject matches a filter of the same number of tokens, where `*` stands for any one token. */
  predicate Matches(filter: string, subject: string) {
    var f, s := Split(filter), Split(subject);
    |f| == |s| && forall i :: 0 <= i < |f| ==> f[i] == "*" || f[i] == s[i]
  }

  lemma {:induction false} SubjectTokens(kind: string, middle: string)
    requires '.' !in kind
    ensures Split(kind + "." + middle + ".tasks") == [kind] + Split(middle) + ["tasks"]
  {
    hide Split;
    assert kind + "." + middle + ".tasks" == (kind + "." + middle) + "." + "tasks";
    SplitBeforeWord(kind + "." + middle, "tasks");
    SplitAfterWord(kind, middle);
  }

  /** The filters activity workers and workflow workers listen with. */
  lemma {:induction false} FilterTokens()
    ensures Split("activity.*.tasks") == ["activity", "*", "tasks"]
    ensures Split("workflow.*.tasks") == ["workflow", "*", "tasks"]
  {
    hide Split;
    SplitWord("*");
    SubjectTokens("activity", "*");
    SubjectTokens("workflow", "*");
    assert "activity" + "." + "*" + ".tasks" == "activity.*.tasks";
    assert "workflow" + "." + "*" + ".tasks" == "workflow.*.tasks";
  }

  /** Activity tasks are published where activity workers listen, for every ID; the subject carries the
      first part of the ID and nothing else of it. */
  lemma {:induction false} ActivityTasksReceived(id: string)
    ensures Matches("activity.*.tasks", ActivitySubject(Split(id)[0]))
    ensures Split(ActivitySubject(Split(id)[0])) == ["activity", Split(id)[0], "tasks"]
  {
    hide Split;
    SplitThenJoin(id);
    var token := Split(id)[0];
    assert token in Split(id);
    FilterTokens();
    SplitWord(token);
    SubjectTokens("activity", token);
    assert ActivitySubject(token) == "activity" + "." + token + ".tasks";
  }

  /** Workflow tasks are published where workflow workers listen if and only if the ID has no dot. */
  lemma {:induction false} WorkflowTasksReceivedIff(id: string)
    ensures Matches("workflow.*.tasks", WorkflowSubject(id)) <==> '.' !in id
    ensures Split(WorkflowSubject(id)) == ["workflow"] + Split(id) + ["tasks"]
  {
    hide Split;
    FilterTokens();
    SubjectTokens("workflow", id);
    assert WorkflowSubject(id) == "workflow" + "." + id + ".tasks";
    OneToken(id);
  }

  lemma {:induction false} OneToken(s: string)
    ensures |Split(s)| == 1 <==> '.' !in s
  {
    SplitThenJoin(s);
    if |Split(s)| == 1 {
      assert Split(s)[0] in Split(s);
    } else if '.' !in s {
      SplitWord(s);
    }
  }

  // ---------------------------------------------------------------------------------------------
  // The running server
  // ---------------------------------------------------------------------------------------------

  datatype Published<+T> = Published(subject: string, task: T)

  /** A stored history message; a message that cannot be decoded has no event. */
  datatype Message = Message(event: Option<Event>, timeMs: int)

  class Server {
    var inputs: map<string, seq<Value>>
    var results: map<string, seq<Value>>
    var history: map<string, seq<Event>>
    var workflowTasks: seq<Published<WorkflowTask>>
    var activityTasks: seq<Published<ActivityTask>>
    /** Retried events whose goroutine is sleeping. */
    var timers: seq<Event>

    constructor ()
      ensures inputs == map[] && results == map[] && history == map[]
      ensures workflowTasks == [] && activityTasks == [] && timers == []
    {
      inputs, results, history := map[], map[], map[];
      workflowTasks, activityTasks, timers := [], [], [];
    }

    /** The start command: the input is stored before the Started event is published, so no reader
        of the event can miss it. */
    method HandleStart(id: string, workflowFn: string, input: seq<Value>, putOk: bool, publishOk: bool)
      returns (accepted: bool)
      requires id !in history
      modifies `inputs, `history
      ensures accepted == (putOk && publishOk)
      ensures inputs == if putOk then old(inputs)[WorkflowInputKey(workflowFn, id) := input] else old(inputs)
      ensures history == if accepted then old(history)[id := [WorkflowStarted(id, workflowFn, input)]] else old(history)
    {
      if !putOk {
        return false;
      }
      inputs := inputs[WorkflowInputKey(workflowFn, id) := input];
      if !publishOk {
        return false;
      }
      history := history[id := [WorkflowStarted(id, workflowFn, input)]];
      accepted := true;
    }

    method OnWorkflowTasks(message: Option<Event>, publishOk: bool) returns (d: Disposition)
      modifies `workflowTasks
      ensures message.None? ==> d == Terminated && workflowTasks == old(workflowTasks)
      ensures message.Some? ==>
        match WorkflowTaskFor(inputs, message.value)
        case Ignore => d == Acked && workflowTasks == old(workflowTasks)
        case Drop => d == Terminated && workflowTasks == old(workflowTasks)
        case Publish(task) =>
          && d == (if publishOk then Acked else Naked)
          && workflowTasks == old(workflowTasks)
               + if publishOk then [Published(WorkflowSubject(task.id), task)] else []
    {
      if message.None? {
        return Terminated;
      }
      var shouldCreateTask := false;
      var inputArgs: seq<Value> := [];
      match message.value {
        case WorkflowStarted(_, _, input) =>
          shouldCreateTask, inputArgs := true, input;
        case ActivityCompleted(id, fn, _, _) =>
          var key := WorkflowInputKey(fn, id);
          if key !in inputs {
            return Terminated;
          }
          shouldCreateTask, inputArgs := true, inputs[key];
        case ActivityFailed(id, fn, _, _) =>
          var key := WorkflowInputKey(fn, id);
          if key !in inputs {
            return Terminated;
          }
          shouldCreateTask, inputArgs := true, inputs[key];
        case _ =>
          return Acked;
      }
      if shouldCreateTask {
        if !publishOk {
          return Naked;
        }
        var e := message.value;
        workflowTasks := workflowTasks
          + [Published(WorkflowSubject(e.id), WorkflowTask(e.id, e.workflowFn, inputArgs))];
      }
      d := Acked;
    }

    method OnActivityTasks(subjectId: string, message: Option<Event>, nowMs: int, publishOk: bool)
      returns (d: Disposition)
      modifies `activityTasks
      ensures message.None? ==> d == Terminated
      ensures message.Some? ==> d == if message.value.ActivityScheduled? && !publishOk then Naked else Acked
      ensures activityTasks == old(activityTasks) +
        if message.Some? && message.value.ActivityScheduled? && publishOk
        then [Published(ActivitySubject(Split(subjectId)[0]), FirstAttempt(message.value, nowMs))] else []
    {
      if message.None? {
        return Terminated;
      }
      if message.value.ActivityScheduled? {
        var task := FirstAttempt(message.value, nowMs);
        RoutingAgreement(subjectId);
        var subject := ActivitySubject(Split(HistorySubject(subjectId))[1]);
        if !publishOk {
          return Naked;
        }
        activityTasks := activityTasks + [Published(subject, task)];
      }
      d := Acked;
    }

    /** The message is acknowledged as soon as the goroutine is started: a server that stops while
        it sleeps has lost the retry. */
    method OnActivityRetries(message: Option<Event>) returns (d: Disposition)
      modifies `timers
      ensures d == if message.None? then Terminated else Acked
      ensures timers == old(timers) + if message.Some? && message.value.ActivityRetried? then [message.value] else []
    {
      if message.None? {
        return Terminated;
      }
      if message.value.ActivityRetried? {
        timers := timers + [message.value];
      }
      d := Acked;
    }

    /** A sleeping retry wakes up. If no schedule is found, or publishing fails, the retry is gone. */
    method OnRetryTimer(i: nat, stream: seq<Message>, publishOk: bool)
      requires i < |timers| && timers[i].ActivityRetried?
      modifies `timers, `activityTasks
      ensures timers == old(timers[..i] + timers[i + 1..])
      ensures publishOk || activityTasks == old(activityTasks)
      ensures activityTasks == old(activityTasks) || (
        && publishOk
        && exists j: nat ::
          && IsFirstMatch(stream, old(timers[i]).activityFn, j)
          && var task := RetryAttempt(old(timers[i]), stream[j].event.value, stream[j].timeMs);
          activityTasks == old(activityTasks) + [Published(ActivitySubject(Split(task.id)[0]), task)])
      ensures publishOk && (exists j: nat :: IsFirstMatch(stream, old(timers[i]).activityFn, j))
        ==> |activityTasks| > |old(activityTasks)|
    {
      var e := timers[i];
      timers := timers[..i] + timers[i + 1..];
      var task := FetchActivityTask(stream, e);
      if task.Some? {
        var next := task.value.(attempt := WrapInt32(e.attempt + 1));
        if publishOk {
          activityTasks := activityTasks + [Published(ActivitySubject(Split(e.id)[0]), next)];
        }
      }
    }

    /** Completions overwrite the result entry; a failed workflow writes nothing. */
    method OnWorkflowResults(message: Option<Event>, setOk: bool) returns (d: Disposition)
      modifies `results
      ensures message.None? ==> d == Terminated
      ensures message.Some? ==> d == if message.value.WorkflowCompleted? && !setOk then Naked else Acked
      ensures results ==
        if message.Some? && message.value.WorkflowCompleted? && setOk
        then old(results)[message.value.id := message.value.result] else old(results)
    {
      if message.None? {
        return Terminated;
      }
      if message.value.WorkflowCompleted? {
        if !setOk {
          return Naked;
        }
        results := results[message.value.id := message.value.result];
      }
      d := Acked;
    }
  }

  // ---------------------------------------------------------------------------------------------
  // Rebuilding a retry task
  // ---------------------------------------------------------------------------------------------

  predicate IsScheduleOf(m: Message, name: string) {
    m.event.Some? && m.event.value.ActivityScheduled? && m.event.value.activityFn == name
  }

  /** `i` is the first message among the fetched ones that schedules `name`. */
  ghost predicate IsFirstMatch(stream: seq<Message>, name: string, i: nat) {
    && i < |stream| && i < 100 && IsScheduleOf(stream[i], name)
    && forall j :: 0 <= j < i ==> !IsScheduleOf(stream[j], name)
  }

  /** The search over one fetched batch; undecodable messages are passed over. */
  method FetchActivityTask(stream: seq<Message>, e: Event) returns (task: Option<ActivityTask>)
    requires e.ActivityRetried?
    ensures task.None? ==> forall i :: 0 <= i < |stream| && i < 100 ==> !IsScheduleOf(stream[i], e.activityFn)
    ensures task.Some? ==> exists i: nat ::
      IsFirstMatch(stream, e.activityFn, i) && task.value == RetryAttempt(e, stream[i].event.value, stream[i].timeMs)
  {
    var batch := if |stream| <= WINDOW then stream else stream[..WINDOW];
    var scheduled: Option<Event> := None;
    var scheduledTime := 0;
    ghost var found: nat := 0;
    for i := 0 to |batch|
      invariant scheduled.None?
      invariant forall j :: 0 <= j < i ==> !IsScheduleOf(batch[j], e.activityFn)
    {
      if batch[i].event.Some? {
        var event := batch[i].event.value;
        if event.ActivityScheduled? && event.activityFn == e.activityFn {
          scheduled, scheduledTime, found := Some(event), batch[i].timeMs, i;
          assert IsFirstMatch(stream, e.activityFn, i);
          break;
        }
      }
    }
    if scheduled.None? {
      return None;
    }
    task := Some(RetryAttempt(e, scheduled.value, scheduledTime));
    assert IsFirstMatch(stream, e.activityFn, found);
  }

  /** On a decodable stream the search finds what the lookup in the log finds. */
  lemma {:induction false} FetchMeetsSpecification(log: seq<Event>, stream: seq<Message>, name: string, i: nat)
    requires |stream| == |log| && forall j :: 0 <= j < |log| ==> stream[j].event == Some(log[j])
    ensures IsFirstMatch(stream, name, i) <==> FirstSchedule(Window(log), name) == Some(i)
  {
    hide FirstSchedule;
    var window := Window(log);
    var first := FirstSchedule(window, name);
    assert forall j :: 0 <= j < |window| ==> window[j] == log[j];
    if IsFirstMatch(stream, name, i) {
      assert window[i] in window;
      assert first.Some?;
      var m := stream[first.value];
      assert IsScheduleOf(m, name);
    }
  }

  /** Two schedules that produce the same task payload. */
  predicate SamePayload(a: Event, b: Event)
    requires a.ActivityScheduled? && b.ActivityScheduled?
  {
    && a.input == b.input && a.policy == b.policy
    && a.scheduleToClose == b.scheduleToClose && a.startToClose == b.startToClose
  }

  /** The retry lookup succeeds exactly when the name is scheduled among the first hundred events. */
  lemma {:induction false} LookupSucceedsIff(log: seq<Event>, e: Event, stampMs: int)
    requires e.ActivityRetried?
    ensures RetryTaskFor(log, e, stampMs).Some? <==>
      exists i :: 0 <= i < |log| && i < 100 && log[i].ActivityScheduled? && log[i].activityFn == e.activityFn
  {
    if i :| 0 <= i < |log| && i < 100 && log[i].ActivityScheduled? && log[i].activityFn == e.activityFn {
      assert Window(log)[i] in Window(log);
    }
  }

  /** A rebuilt retry task is its schedule's first task with another attempt number and time, exactly
      when the first schedule of that name carries the same payload. */
  lemma {:induction false} RetryRebuildsIff(log: seq<Event>, s: nat, e: Event, stampMs: int)
    requires s < |log| && log[s].ActivityScheduled? && e.ActivityRetried?
    requires (e.id, e.workflowFn, e.activityFn) == (log[s].id, log[s].workflowFn, log[s].activityFn)
    requires RetryTaskFor(log, e, stampMs).Some?
    ensures FirstSchedule(log, e.activityFn).Some?
    ensures RetryTaskFor(log, e, stampMs).value
         == FirstAttempt(log[s], stampMs).(attempt := WrapInt32(e.attempt + 1))
      <==> SamePayload(log[FirstSchedule(log, e.activityFn).value], log[s])
  {
    FirstScheduleStable(Window(log), log, e.activityFn);
  }

  /** A second call of a name with another input is retried with the first call's input. */
  lemma {:induction false} RetryTakesFirstInput()
    ensures var log := [
        WorkflowStarted("w", "F", []),
        ActivityScheduled("w", "F", "A", [Number(1)], 0, 0, None),
        ActivityCompleted("w", "F", "A", [Nil, Nil]),
        ActivityScheduled("w", "F", "A", [Number(2)], 0, 0, None)];
      var retried := ActivityRetried("w", "F", "A", 1, "boom", 1000);
      RetryTaskFor(log, retried, 0).Some? && RetryTaskFor(log, retried, 0).value.input == [Number(1)]
  {
    var log := [
      WorkflowStarted("w", "F", []),
      ActivityScheduled("w", "F", "A", [Number(1)], 0, 0, None),
      ActivityCompleted("w", "F", "A", [Nil, Nil]),
      ActivityScheduled("w", "F", "A", [Number(2)], 0, 0, None)];
    assert log[1] in log;
  }
}
