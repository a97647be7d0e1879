/** How many schedules one run records, and workflows that await every call at once. */
module Sequential {
  import opened Api
  import opened History
  import opened Futures
  import opened Options
  import opened Workflows
  import opened Worker

  function CountSchedules(events: seq<Event>, name: string): nat {
    if events == [] then 0
    else
      var e := events[|events| - 1];
      CountSchedules(events[..|events| - 1], name)
        + if e.ActivityScheduled? && e.activityFn == name then 1 else 0
  }

  lemma {:induction false} CountSchedulesAppend(events: seq<Event>, e: Event, name: string)
    ensures CountSchedules(events + [e], name)
         == CountSchedules(events, name) + if e.ActivityScheduled? && e.activityFn == name then 1 else 0
  {
    assert (events + [e])[..|events|] == events;
  }

  /** Exact schedule count, for any workflow and any mix of derived contexts: a run records as many
      schedules of a name as its calls of that name exceed the outcomes already in the log. */
  lemma {:induction false} ScheduleCount(h: seq<Event>, calls: seq<Call>, clock: nat -> int, name: string)
    ensures var excess := CountCalls(calls, name) - |OutcomesOf(h, name)|;
      CountSchedules(FreshEvents(h, calls, clock), name) == if excess > 0 then excess else 0
  {
    if calls != [] {
      var init, call := calls[..|calls| - 1], calls[|calls| - 1];
      assert calls == init + [call] && calls[..|init|] == init;
      ScheduleCount(h, init, clock, name);
      CountCallsAppend(init, call);
      FreshEventsAppend(h, init, call, clock);
      if Answer(Replayed(h), calls, |init|).Resolved? {
        assert FreshEvents(h, calls, clock) == FreshEvents(h, init, clock);
      } else {
        CountSchedulesAppend(FreshEvents(h, init, clock),
          ScheduledEvent(IdentityOf(h).0, IdentityOf(h).1, call.activityFn, call.args,
                         OptionsOf(call.context), clock(|init|)), name);
      }
    }
  }

  lemma {:induction false} CountSchedulesConcat(a: seq<Event>, b: seq<Event>, name: string)
    ensures CountSchedules(a + b, name) == CountSchedules(a, name) + CountSchedules(b, name)
  {
    if b == [] {
      assert a + b == a;
    } else {
      var init := b[..|b| - 1];
      assert a + b == (a + init) + [b[|b| - 1]];
      CountSchedulesConcat(a, init, name);
      CountSchedulesAppend(a + init, b[|b| - 1], name);
    }
  }

  /** Exactly when no call is scheduled again. After a run that has reached at least as many calls of
      a name as there are outcomes, the log holds one schedule per call if and only if, before the
      run, every schedule of the name had its outcome. */
  lemma {:induction false} ScheduledOnceIff(h: seq<Event>, calls: seq<Call>, clock: nat -> int, name: string)
    ensures var after := CountSchedules(h + FreshEvents(h, calls, clock), name);
      if CountCalls(calls, name) >= |OutcomesOf(h, name)|
      then after == CountCalls(calls, name) <==> CountSchedules(h, name) == |OutcomesOf(h, name)|
      else after == CountSchedules(h, name)
  {
    ScheduleCount(h, calls, clock, name);
    CountSchedulesConcat(h, FreshEvents(h, calls, clock), name);
  }

  // ---------------------------------------------------------------------------------------------
  // A parallel workflow is scheduled twice
  // ---------------------------------------------------------------------------------------------

  /** Starts A and B, then awaits A, then B. */
  function ParallelProgram(obs: seq<Observation>): Action {
    match |obs|
    case 0 => Execute(0, "A", [])
    case 1 => Execute(0, "B", [])
    case 2 => Await(0, false)
    case 3 => Await(1, false)
    case _ => Return([Nil, Nil])
  }

  function ParallelLog(): seq<Event> {
    [ WorkflowStarted("w", "Par", []),
      ActivityScheduled("w", "Par", "A", [], 0, 0, None),
      ActivityScheduled("w", "Par", "B", [], 0, 0, None),
      ActivityCompleted("w", "Par", "A", [Nil, Nil]) ]
  }

  /** Schedules are not replayed: with B scheduled and still running, the task that A's completion
      triggers schedules B a second time. */
  lemma {:induction false} ParallelScheduledTwice(clock: nat -> int)
    ensures var r := RunN(ParallelProgram, Replayed(ParallelLog()), 4);
      && r.status.Suspended?
      && FreshEvents(ParallelLog(), r.calls, clock) == [ParallelLog()[2]]
  {
    var h, a := ParallelLog(), Replayed(ParallelLog());
    ParallelOutcomes();
    var r1 := RunN(ParallelProgram, a, 1);
    var r2 := RunN(ParallelProgram, a, 2);
    var c1, c2 := Call(map[], "A", []), Call(map[], "B", []);
    CountCallsAppend([c1], c2);
    assert [c1] + [c2] == [c1, c2] && [c1, c2][..1] == [c1];
    assert r1.calls == [c1];
    assert r2.calls == [c1, c2];
    assert Answer(a, [c1, c2], 0) == Resolved(Completed([Nil, Nil]));
    assert Answer(a, [c1, c2], 1) == Pending;
    var r3 := RunN(ParallelProgram, a, 3);
    assert r3.calls == r2.calls && |r3.observations| == 3;
    FreshEventsAppend(h, [], c1, clock);
    FreshEventsAppend(h, [c1], c2, clock);
  }

  lemma {:induction false} ParallelOutcomes()
    ensures OutcomesOf(ParallelLog(), "A") == [Completed([Nil, Nil])]
    ensures OutcomesOf(ParallelLog(), "B") == []
  {
    var h := ParallelLog();
    NoOutcomes(h[..3], "A");
    NoOutcomes(h[..3], "B");
    assert h == h[..3] + [h[3]];
    OutcomesOfAppend(h[..3], h[3], "A");
    OutcomesOfAppend(h[..3], h[3], "B");
  }

  // ---------------------------------------------------------------------------------------------
  // Sequential workflows
  // ---------------------------------------------------------------------------------------------

  /** Workflow code that awaits each call as its very next action, in every run it can have. */
  ghost predicate AwaitsAtOnce(p: Program) {
    forall a: Answers, n: nat :: AwaitsItsLastCall(p, RunN(p, a, n))
  }

  predicate AwaitsItsLastCall(p: Program, r: Run) {
    r.status.Running? && r.observations != [] && r.observations[|r.observations| - 1].Called? ==>
      p(r.observations).Await? && p(r.observations).future == |r.calls| - 1
  }

  /** Only the last call of `r` can be pending, and then the run is at its await. */
  ghost predicate OnlyLastPending(p: Program, a: Answers, r: Run) {
    && (forall i: nat | i + 1 < |r.calls| :: Answer(a, r.calls, i).Resolved?)
    && (r.calls != [] && Answer(a, r.calls, |r.calls| - 1).Pending? ==>
          || r.status.Suspended?
          || (r.status.Running? && p(r.observations).Await? && p(r.observations).future == |r.calls| - 1))
    && (r.status.Suspended? ==> r.calls != [] && Answer(a, r.calls, |r.calls| - 1).Pending?)
  }

  lemma {:induction false} ExecuteKeepsOnlyLastPending(p: Program, a: Answers, r: Run)
    requires r.status.Running? && OnlyLastPending(p, a, r) && AwaitsItsLastCall(p, Step(p, a, r))
    requires p(r.observations).Execute?
    ensures OnlyLastPending(p, a, Step(p, a, r))
  {
    hide Answer, IllTyped;
    var act := p(r.observations);
    if act.ctx < |r.contexts| {
      hide Step;
      var next := StepExecute(p, a, r, act.ctx, act.activityFn, act.args);
      forall i: nat | i < |r.calls| ensures Answer(a, next.calls, i) == Answer(a, r.calls, i) {
        AnswerOnPrefix(a, r.calls, next.calls, i);
      }
    }
  }

  lemma {:induction false} AwaitKeepsOnlyLastPending(p: Program, a: Answers, r: Run)
    requires r.status.Running? && OnlyLastPending(p, a, r) && p(r.observations).Await?
    ensures OnlyLastPending(p, a, Step(p, a, r))
  {
    hide Answer, IllTyped, Get;
  }

  lemma {:induction false} StepKeepsOnlyLastPending(p: Program, a: Answers, r: Run)
    requires r.status.Running? && OnlyLastPending(p, a, r) && AwaitsItsLastCall(p, Step(p, a, r))
    ensures OnlyLastPending(p, a, Step(p, a, r))
  {
    hide Answer, IllTyped, Get;
    match p(r.observations)
    case Execute(_, _, _) => ExecuteKeepsOnlyLastPending(p, a, r);
    case Await(_, _) => AwaitKeepsOnlyLastPending(p, a, r);
    case _ =>
  }

  lemma {:induction false} SequentialShape(p: Program, a: Answers, n: nat)
    requires AwaitsAtOnce(p)
    ensures OnlyLastPending(p, a, RunN(p, a, n))
  {
    hide Step;
    if n > 0 {
      SequentialShape(p, a, n - 1);
      var before := RunN(p, a, n - 1);
      if before.status.Running? {
        assert AwaitsItsLastCall(p, RunN(p, a, n));
        StepKeepsOnlyLastPending(p, a, before);
      }
    }
  }

  lemma {:induction false} NothingFresh(h: seq<Event>, calls: seq<Call>, clock: nat -> int)
    requires forall i: nat | i < |calls| :: Answer(Replayed(h), calls, i).Resolved?
    ensures FreshEvents(h, calls, clock) == []
  {
    if calls != [] {
      var init := calls[..|calls| - 1];
      forall i: nat | i < |init| ensures Answer(Replayed(h), init, i).Resolved? {
        AnswerOnPrefix(Replayed(h), init, calls, i);
      }
      NothingFresh(h, init, clock);
    }
  }

  function LastSchedule(identity: (string, string), r: Run, clock: nat -> int): Event
    requires r.calls != []
  {
    var last := |r.calls| - 1;
    ScheduledEvent(identity.0, identity.1, r.calls[last].activityFn, r.calls[last].args,
                   OptionsOf(r.calls[last].context), clock(last))
  }

  lemma {:induction false} LastFresh(h: seq<Event>, r: Run, clock: nat -> int)
    requires r.calls != [] && Answer(Replayed(h), r.calls, |r.calls| - 1).Pending?
    requires forall i: nat | i + 1 < |r.calls| :: Answer(Replayed(h), r.calls, i).Resolved?
    ensures FreshEvents(h, r.calls, clock) == [LastSchedule(IdentityOf(h), r, clock)]
  {
    hide Answer;
    var init := r.calls[..|r.calls| - 1];
    forall i: nat | i < |init| ensures Answer(Replayed(h), init, i).Resolved? {
      AnswerOnPrefix(Replayed(h), init, r.calls, i);
    }
    NothingFresh(h, init, clock);
  }

  /** A task of a workflow that awaits at once records exactly one schedule if it suspends, and
      none if it ends. */
  lemma {:induction false} SequentialFresh(p: Program, h: seq<Event>, n: nat, clock: nat -> int)
    requires AwaitsAtOnce(p) && Stopped(RunN(p, Replayed(h), n))
    ensures var r := RunN(p, Replayed(h), n);
      && (r.status.Suspended? ==> r.calls != [])
      && FreshEvents(h, r.calls, clock)
         == if r.status.Suspended? then [LastSchedule(IdentityOf(h), r, clock)] else []
  {
    hide RunN, Answer, FreshEvents, LastSchedule;
    var r := RunN(p, Replayed(h), n);
    SequentialShape(p, Replayed(h), n);
    if r.status.Suspended? {
      LastFresh(h, r, clock);
    } else {
      forall i: nat | i < |r.calls| ensures Answer(Replayed(h), r.calls, i).Resolved? {
        assert i + 1 < |r.calls| || i == |r.calls| - 1;
      }
      NothingFresh(h, r.calls, clock);
    }
  }
}
