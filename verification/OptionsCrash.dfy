/** The one exception to terminal agreement, reached: a workflow that fails on its activity options,
    and completes once an activity task has been delivered twice. */
module OptionsCrash {
  import opened Api
  import opened History
  import opened Workflows
  import opened Retry
  import opened Worker
  import opened Sequential
  import opened Agreement

  /** Calls A twice, the second time through a context whose options have the wrong type. */
  function MisusedOptions(obs: seq<Observation>): Action {
    match |obs|
    case 0 => Execute(0, "A", [])
    case 1 => WithValue(0, ACTIVITY_OPTIONS_KEY, Other(Text("")))
    case 2 => Execute(1, "A", [])
    case _ => Return([Nil, Nil])
  }

  const TASK := WorkflowTask("w", "F", [])
  const ATTEMPT := ActivityTask("F", "w", "A", [], 1, 0, 0, None, 0)
  const FAILURE := WorkflowFailed("w", "F", PanicText(BadOptions))
  const COMPLETION := WorkflowCompleted("w", "F", [Nil, Nil])

  function FullLog(): (log: seq<Event>)
    ensures |log| == 6
  {
    [ WorkflowStarted("w", "F", []),
      ActivityScheduled("w", "F", "A", [], 0, 0, None),
      FAILURE,
      ActivityCompleted("w", "F", "A", [Nil, Nil]),
      ActivityCompleted("w", "F", "A", [Nil, Nil]),
      COMPLETION ]
  }

  // ---------------------------------------------------------------------------------------------
  // The two runs
  // ---------------------------------------------------------------------------------------------

  lemma {:induction false} OutcomesOfA()
    ensures OutcomesOf(FullLog()[..1], "A") == []
    ensures OutcomesOf(FullLog()[..5], "A") == [Completed([Nil, Nil]), Completed([Nil, Nil])]
  {
    var h := FullLog();
    NoOutcomes(h[..1], "A");
    NoOutcomes(h[..3], "A");
    assert h[..4] == h[..3] + [h[3]] && h[..5] == h[..4] + [h[4]];
    OutcomesOfAppend(h[..3], h[3], "A");
    OutcomesOfAppend(h[..4], h[4], "A");
  }

  const CALL_1 := Call(map[], "A", [])
  const CALL_2 := Call(map[ACTIVITY_OPTIONS_KEY := Other(Text(""))], "A", [])
  const AFTER_1 := Run([map[]], [CALL_1], [Called], Running)
  const AFTER_2 := Run([map[], CALL_2.context], [CALL_1], [Called, Derived], Running)
  const AFTER_3 := Run([map[], CALL_2.context], [CALL_1, CALL_2], [Called, Derived, Called], Running)

  lemma {:induction false} StepsOnFirstLog()
    ensures var a := Replayed(FullLog()[..1]);
      && Step(MisusedOptions, a, NEW_RUN) == AFTER_1 && Step(MisusedOptions, a, AFTER_1) == AFTER_2
      && Step(MisusedOptions, a, AFTER_2) == AFTER_2.(status := Panicked(BadOptions))
  {
    hide OutcomesOf, FullLog;
    OutcomesOfA();
  }

  lemma {:induction false} CallsOfA()
    ensures CountCalls([], "A") == 0 && CountCalls([CALL_1], "A") == 1
  {
    assert [CALL_1][..0] == [];
  }

  lemma {:induction false} AnswersOnLastLog()
    ensures var a := Replayed(FullLog()[..5]);
      && Answer(a, [CALL_1], 0).Resolved?
      && Answer(a, [CALL_1, CALL_2], 0).Resolved? && Answer(a, [CALL_1, CALL_2], 1).Resolved?
  {
    hide OutcomesOf, FullLog, CountCalls;
    OutcomesOfA();
    CallsOfA();
    assert [CALL_1, CALL_2][..1] == [CALL_1] && [CALL_1, CALL_2][..0] == [] && [CALL_1][..0] == [];
  }

  lemma {:induction false} StepsOnLastLog()
    ensures var a := Replayed(FullLog()[..5]);
      && Step(MisusedOptions, a, NEW_RUN) == AFTER_1 && Step(MisusedOptions, a, AFTER_1) == AFTER_2
      && Step(MisusedOptions, a, AFTER_2) == AFTER_3
      && Step(MisusedOptions, a, AFTER_3) == AFTER_3.(status := Returned([Nil, Nil]))
  {
    hide Answer, FullLog;
    AnswersOnLastLog();
    assert [] + [CALL_1] == [CALL_1] && [CALL_1] + [CALL_2] == [CALL_1, CALL_2];
  }

  /** The first task schedules A and fails. */
  lemma {:induction false} FirstTask(registry: Registry, clock: nat -> int)
    requires Resolve(registry, TASK) == Body(MisusedOptions)
    ensures TaskStops(registry, TASK, FullLog()[..1], 3)
    ensures RunTask(registry, TASK, FullLog()[..1], 3, clock).events == FullLog()[1..3]
  {
    hide Step, Resolve;
    var h := FullLog()[..1];
    var a := Replayed(h);
    StepsOnFirstLog();
    assert RunN(MisusedOptions, a, 0) == NEW_RUN;
    assert RunN(MisusedOptions, a, 1) == AFTER_1;
    assert RunN(MisusedOptions, a, 2) == AFTER_2;
    assert RunN(MisusedOptions, a, 3) == AFTER_2.(status := Panicked(BadOptions));
    FirstSchedules(clock);
  }

  lemma {:induction false} FirstSchedules(clock: nat -> int)
    ensures FreshEvents(FullLog()[..1], [CALL_1], clock) == [FullLog()[1]]
  {
    hide OutcomesOf;
    OutcomesOfA();
    FreshEventsAppend(FullLog()[..1], [], CALL_1, clock);
    assert [] + [CALL_1] == [CALL_1];
  }

  /** With two outcomes of A in the log, the same code completes. */
  lemma {:induction false} LastTask(registry: Registry, clock: nat -> int)
    requires Resolve(registry, TASK) == Body(MisusedOptions)
    ensures TaskStops(registry, TASK, FullLog()[..5], 4)
    ensures RunTask(registry, TASK, FullLog()[..5], 4, clock).events == [COMPLETION]
  {
    hide Step, Resolve, FreshEvents, Answer, OutcomesOf;
    var a := Replayed(FullLog()[..5]);
    StepsOnLastLog();
    assert RunN(MisusedOptions, a, 0) == NEW_RUN;
    assert RunN(MisusedOptions, a, 1) == AFTER_1;
    assert RunN(MisusedOptions, a, 2) == AFTER_2;
    assert RunN(MisusedOptions, a, 3) == AFTER_3;
    assert RunN(MisusedOptions, a, 4) == AFTER_3.(status := Returned([Nil, Nil]));
    AnswersOnLastLog();
    NothingFresh(FullLog()[..5], AFTER_3.calls, clock);
  }

  // ---------------------------------------------------------------------------------------------
  // The run of the cluster
  // ---------------------------------------------------------------------------------------------

  /** How much of the history is there in each state. */
  function LengthAt(i: nat): nat {
    if i <= 1 then 0 else if i <= 3 then 1 else if i <= 5 then 3 else if i == 6 then 4 else if i == 7 then 5 else 6
  }

  function StateAt(i: nat): Cluster {
    Cluster(
      if i == 0 then map[] else map["w" := Origin("F", [])],
      if i <= 1 then map[] else map["w" := FullLog()[..LengthAt(i)]],
      if i == 0 then map[] else map[WorkflowInputKey("F", "w") := []],
      if i <= 8 then map[] else map["w" := [Nil, Nil]],
      if i <= 2 then {} else {TASK},
      if i <= 4 then {} else {ATTEMPT})
  }

  /** The activity task made in state 4 is run twice. */
  function MoveAt(i: nat, clock: nat -> int): Move {
    match i
    case 0 => PutInput("w", Origin("F", []))
    case 1 => PublishStarted("w")
    case 2 => ProjectWorkflow("w", 0)
    case 3 => Move.RunWorkflow(TASK, 1, 3, clock)
    case 4 => Move.ProjectActivity("w", 1, 0)
    case 5 => Move.RunActivity(ATTEMPT, Completed([Nil, Nil]), 0, 0)
    case 6 => Move.RunActivity(ATTEMPT, Completed([Nil, Nil]), 0, 0)
    case 7 => Move.RunWorkflow(TASK, 5, 4, clock)
    case _ => Move.ProjectResult("w", 5)
  }

  lemma {:induction false} Growth()
    ensures var h := FullLog();
      && h[..1] == [WorkflowStarted("w", "F", [])]
      && h[..1] + h[1..3] == h[..3] && h[..1][..1] == h[..1]
      && h[..3] + [ActivityCompleted("w", "F", "A", [Nil, Nil])] == h[..4]
      && h[..4] + [ActivityCompleted("w", "F", "A", [Nil, Nil])] == h[..5]
      && h[..5] + [COMPLETION] == h[..6] && h[..5][..5] == h[..5]
      && h[..3][1] == ActivityScheduled("w", "F", "A", [], 0, 0, None) && h[..6][5] == COMPLETION
      && h[..1][0].WorkflowStarted?
  {
  }

  lemma {:induction false} Accepted(registry: Registry, clock: nat -> int)
    ensures Agreement.Enabled(registry, StateAt(0), MoveAt(0, clock))
    ensures StateAt(1) == Next(registry, StateAt(0), MoveAt(0, clock))
  {
  }

  lemma {:induction false} Published(registry: Registry, clock: nat -> int)
    ensures Agreement.Enabled(registry, StateAt(1), MoveAt(1, clock))
    ensures StateAt(2) == Next(registry, StateAt(1), MoveAt(1, clock))
  {
    hide FullLog;
    Growth();
  }

  lemma {:induction false} Woken(registry: Registry, clock: nat -> int)
    ensures Agreement.Enabled(registry, StateAt(2), MoveAt(2, clock))
    ensures StateAt(3) == Next(registry, StateAt(2), MoveAt(2, clock))
  {
    hide FullLog;
    Growth();
  }

  lemma {:induction false} FirstRun(registry: Registry, clock: nat -> int)
    requires Resolve(registry, TASK) == Body(MisusedOptions)
    ensures Agreement.Enabled(registry, StateAt(3), MoveAt(3, clock))
    ensures StateAt(4) == Next(registry, StateAt(3), MoveAt(3, clock))
  {
    hide FullLog, RunTask, TaskStops, Resolve;
    Growth();
    FirstTask(registry, clock);
  }

  lemma {:induction false} LastRun(registry: Registry, clock: nat -> int)
    requires Resolve(registry, TASK) == Body(MisusedOptions)
    ensures Agreement.Enabled(registry, StateAt(7), MoveAt(7, clock))
    ensures StateAt(8) == Next(registry, StateAt(7), MoveAt(7, clock))
  {
    hide FullLog, RunTask, TaskStops, Resolve;
    Growth();
    LastTask(registry, clock);
  }

  lemma {:induction false} Scheduled(registry: Registry, clock: nat -> int)
    ensures Agreement.Enabled(registry, StateAt(4), MoveAt(4, clock))
    ensures StateAt(5) == Next(registry, StateAt(4), MoveAt(4, clock))
  {
    hide FullLog;
    Growth();
  }

  lemma {:induction false} Delivered(registry: Registry, clock: nat -> int)
    ensures Agreement.Enabled(registry, StateAt(5), MoveAt(5, clock))
    ensures StateAt(6) == Next(registry, StateAt(5), MoveAt(5, clock))
  {
    hide FullLog, ShouldRetry, RetryDelay;
    Growth();
  }

  lemma {:induction false} DeliveredAgain(registry: Registry, clock: nat -> int)
    ensures Agreement.Enabled(registry, StateAt(6), MoveAt(6, clock))
    ensures StateAt(7) == Next(registry, StateAt(6), MoveAt(6, clock))
  {
    hide FullLog, ShouldRetry, RetryDelay;
    Growth();
  }

  lemma {:induction false} Projected(registry: Registry, clock: nat -> int)
    ensures Agreement.Enabled(registry, StateAt(8), MoveAt(8, clock))
    ensures StateAt(9) == Next(registry, StateAt(8), MoveAt(8, clock))
  {
    hide FullLog;
    Growth();
  }

  /** A run of the cluster after which one log holds the failure and the completion, and the failed
      workflow has a result entry. */
  lemma {:induction false} DisagreementReached(registry: Registry, clock: nat -> int)
    returns (states: seq<Cluster>, moves: seq<Move>)
    requires Resolve(registry, TASK) == Body(MisusedOptions)
    ensures Agreement.Behavior(registry, states, moves)
    ensures var end := states[|moves|];
      && "w" in end.logs && FAILURE in end.logs["w"] && COMPLETION in end.logs["w"] && "w" in end.results
  {
    hide Agreement.Enabled, Next, StateAt, MoveAt, Resolve;
    states, moves := seq(10, i requires 0 <= i < 10 => StateAt(i)), seq(9, i requires 0 <= i < 9 => MoveAt(i, clock));
    forall k | 0 <= k < 9
      ensures Agreement.Enabled(registry, states[k], moves[k]) && states[k + 1] == Next(registry, states[k], moves[k])
    {
      match k
      case 0 => Accepted(registry, clock);
      case 1 => Published(registry, clock);
      case 2 => Woken(registry, clock);
      case 3 => FirstRun(registry, clock);
      case 4 => Scheduled(registry, clock);
      case 5 => Delivered(registry, clock);
      case 6 => DeliveredAgain(registry, clock);
      case 7 => LastRun(registry, clock);
      case _ => Projected(registry, clock);
    }
    Ends();
  }

  lemma {:induction false} Ends()
    ensures StateAt(0) == EMPTY
    ensures var end := StateAt(9);
      && "w" in end.logs && FAILURE in end.logs["w"] && COMPLETION in end.logs["w"] && "w" in end.results
  {
    assert FullLog()[..6] == FullLog();
    assert FullLog()[2] == FAILURE && FullLog()[5] == COMPLETION;
  }
}
