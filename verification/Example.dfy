/** A two-call workflow that meets every hypothesis of the theorems about exact delivery. */
module Example {
  import opened Api
  import opened Options
  import opened Workflows
  import opened Worker
  import opened Sequential
  import opened DirectExecution
  import opened Delivery
  import opened Progress

  const THREE_ATTEMPTS := ActivityOptions(0, 0, Some(RetryOptions(SECOND, 2.0, 0, 3, [])))

  /** Sets a retry policy, then calls A and awaits it, then calls B and awaits it. */
  function TwoCalls(obs: seq<Observation>): Action {
    match |obs|
    case 0 => WithValue(0, ACTIVITY_OPTIONS_KEY, ContextValue.Options(THREE_ATTEMPTS))
    case 1 => Execute(1, "A", [])
    case 2 => Await(0, false)
    case 3 => Execute(1, "B", [])
    case 4 => Await(1, false)
    case _ => Return([Nil, Nil])
  }

  /** Where a run of it stands after so many observations. */
  predicate Shape(r: Run) {
    var made := |r.observations|;
    && made <= 5
    && |r.contexts| == (if made == 0 then 1 else 2)
    && |r.calls| == (if made < 2 then 0 else if made < 4 then 1 else 2)
    && (forall call :: call in r.calls ==> call.activityFn == "A" || call.activityFn == "B")
    && forall i :: 0 <= i < made ==> (r.observations[i].Called? <==> i == 1 || i == 3)
  }

  lemma {:induction false} RunsHaveShape(a: Answers, n: nat)
    ensures Shape(RunN(TwoCalls, a, n))
  {
    hide Answer, IllTyped;
    if n > 0 {
      RunsHaveShape(a, n - 1);
    }
  }

  /** The hypotheses are about runs. What the code would do with observations that no run makes does
      not matter. */
  lemma {:induction false} TwoCallsIsSequential()
    ensures AwaitsAtOnce(TwoCalls) && WellTyped(TwoCalls) && UsesOptionsSafely(TwoCalls)
    ensures LimitsRetries(TwoCalls) && CallsOnly(TwoCalls, {"A", "B"})
  {
    hide RunN, UsesOptionsSafely;
    forall a: Answers, n: nat
      ensures AwaitsItsLastCall(TwoCalls, RunN(TwoCalls, a, n)) && BindsOnlyOptions(TwoCalls, RunN(TwoCalls, a, n))
      ensures AttachesLimits(TwoCalls, RunN(TwoCalls, a, n)) && NamesOf(RunN(TwoCalls, a, n).calls) <= {"A", "B"}
    {
      RunsHaveShape(a, n);
    }
    WellTypedIsSafe(TwoCalls);
  }

  ghost function CallsAhead(outs: seq<Outcome>): ORDINAL {
    if |outs| == 0 then 2 else if |outs| == 1 then 1 else 0
  }

  lemma {:induction false} TwoCallsEnds()
    ensures WellFounded(TwoCalls, CallsAhead) && AlwaysStops(TwoCalls)
  {
    hide RunN, AwaitsAtOnce;
    TwoCallsIsSequential();
    forall outs: seq<Outcome>, o: Outcome | WaitsOn(TwoCalls, outs) ensures CallsAhead(outs + [o]) < CallsAhead(outs) {
      var n: nat :| RunN(TwoCalls, Direct(outs), n).status.Suspended?;
      RunsHaveShape(Direct(outs), n);
      SequentialShape(TwoCalls, Direct(outs), n);
      SuspendedCallCount(TwoCalls, outs, RunN(TwoCalls, Direct(outs), n));
    }
    forall outs: seq<Outcome> ensures StopsOn(TwoCalls, outs) {
      RunsHaveShape(Direct(outs), 6);
      StepsAreObservations(TwoCalls, Direct(outs), 6);
      assert Stopped(RunN(TwoCalls, Direct(outs), 6));
    }
  }

  function TwoCallConfig(id: string, input: seq<Value>): Config {
    var accepts := RegisteredActivity(_ => None);
    Config(id, "F", input, map["F" := Registered(_ => None, _ => TwoCalls)], map["A" := accepts, "B" := accepts],
           map[WorkflowInputKey("F", id) := input])
  }

  lemma {:induction false} TwoCallConfigQualifies(id: string, input: seq<Value>)
    ensures var cfg := TwoCallConfig(id, input); ValidConfig(cfg) && Bounded(cfg, CallsAhead) && Runnable(cfg)
  {
    hide AwaitsAtOnce, LimitsRetries, CallsOnly, WellFounded, AlwaysStops;
    TwoCallsIsSequential();
    TwoCallsEnds();
    assert TwoCallConfig(id, input).activities.Keys == {"A", "B"};
  }
}
