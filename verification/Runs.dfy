/** What a run of workflow code is, stated without stepping: what each observation tells the code, what
    each context and call is made of, and what the run may end with. */
module Runs {
  import opened Api
  import opened Futures
  import opened Workflows

  function CountDerived(obs: seq<Observation>): nat {
    if obs == [] then 0 else CountDerived(obs[..|obs| - 1]) + if obs[|obs| - 1].Derived? then 1 else 0
  }

  function CountCalled(obs: seq<Observation>): nat {
    if obs == [] then 0 else CountCalled(obs[..|obs| - 1]) + if obs[|obs| - 1].Called? then 1 else 0
  }

  /** Observation `i` is what the action the code took there earns: a derived context has one more
      binding than the context it comes from, a call is made with the code's own context, name and
      arguments, and an await is told what `Get` makes of that call's answer. */
  ghost predicate ObservedAt(p: Program, a: Answers, r: Run, i: nat)
    requires i < |r.observations|
  {
    var seen := r.observations[..i];
    var d, k := CountDerived(seen) + 1, CountCalled(seen);
    match p(seen)
    case WithValue(c, key, value) =>
      && r.observations[i] == Derived
      && c < d < |r.contexts| && r.contexts[d] == r.contexts[c][key := value]
    case Execute(c, name, args) =>
      && r.observations[i] == Called
      && c < d <= |r.contexts| && k < |r.calls| && r.calls[k] == Call(r.contexts[c], name, args)
      && (IllTyped(r.contexts[c]) ==> Answer(a, r.calls, k).Resolved?)
    case Await(f, wanted) =>
      && f < k <= |r.calls| && Answer(a, r.calls, f).Resolved?
      && r.observations[i] == Got(Get(Answer(a, r.calls, f), wanted))
    case _ => false
  }

  /** The run has stopped only for a reason the code's next action gives. */
  ghost predicate EndedAt(p: Program, a: Answers, r: Run) {
    var act := p(r.observations);
    match r.status
    case Running => true
    case Suspended => act.Await? && act.future < |r.calls| && Answer(a, r.calls, act.future).Pending?
    case Returned(result) => act == Return(result)
    case Panicked(User(message)) => act == Panic(message)
    case Panicked(NilPointer) =>
      || (act.WithValue? && act.ctx >= |r.contexts|)
      || (act.Execute? && act.ctx >= |r.contexts|)
      || (act.Await? && act.future >= |r.calls|)
    case Panicked(BadOptions) =>
      && act.Execute? && act.ctx < |r.contexts| && IllTyped(r.contexts[act.ctx])
      && Answer(a, r.calls + [Call(r.contexts[act.ctx], act.activityFn, act.args)], |r.calls|).Pending?
  }

  /** `r` is a run of `p` on these answers. */
  ghost predicate IsRunOf(p: Program, a: Answers, r: Run) {
    && |r.contexts| == CountDerived(r.observations) + 1 && r.contexts[0] == map[]
    && |r.calls| == CountCalled(r.observations)
    && (forall i: nat | i < |r.observations| :: ObservedAt(p, a, r, i))
    && EndedAt(p, a, r)
  }

  lemma {:induction false} ObservedStays(p: Program, a: Answers, r: Run, next: Run, i: nat)
    requires i < |r.observations| && ObservedAt(p, a, r, i)
    requires r.contexts <= next.contexts && r.calls <= next.calls && r.observations <= next.observations
    ensures ObservedAt(p, a, next, i)
  {
    hide Answer, Get, CountDerived, CountCalled, IllTyped;
    assert next.observations[..i] == r.observations[..i];
    match p(r.observations[..i])
    case Execute(_, _, _) => AnswerOnPrefix(a, r.calls, next.calls, CountCalled(r.observations[..i]));
    case Await(f, _) => AnswerOnPrefix(a, r.calls, next.calls, f);
    case _ =>
  }

  lemma {:induction false} CountsAppend(obs: seq<Observation>, o: Observation)
    ensures CountDerived(obs + [o]) == CountDerived(obs) + if o.Derived? then 1 else 0
    ensures CountCalled(obs + [o]) == CountCalled(obs) + if o.Called? then 1 else 0
  {
    assert (obs + [o])[..|obs|] == obs;
  }

  /** One step observes what it should, or ends as it should. */
  lemma {:induction false} StepObserves(p: Program, a: Answers, r: Run)
    requires r.status.Running?
    requires |r.contexts| == CountDerived(r.observations) + 1 && |r.calls| == CountCalled(r.observations)
    ensures var next := Step(p, a, r);
      && r.contexts <= next.contexts && r.calls <= next.calls
      && (next.status.Running? ==>
            && |next.observations| == |r.observations| + 1 && next.observations[..|r.observations|] == r.observations
            && ObservedAt(p, a, next, |r.observations|)
            && |next.contexts| == CountDerived(next.observations) + 1 && |next.calls| == CountCalled(next.observations))
      && (Stopped(next) ==> next == r.(status := next.status) && EndedAt(p, a, next))
  {
    hide Answer, Get, CountDerived, CountCalled, IllTyped;
    var next := Step(p, a, r);
    if next.status.Running? {
      assert next.observations == r.observations + [next.observations[|r.observations|]];
      CountsAppend(r.observations, next.observations[|r.observations|]);
    }
  }

  /** Every run the model takes is one. */
  lemma {:induction false} RunIsRun(p: Program, a: Answers, n: nat)
    ensures IsRunOf(p, a, RunN(p, a, n))
  {
    hide Step, ObservedAt, EndedAt, CountDerived, CountCalled;
    if n == 0 {
      NewRunIsRun(p, a);
    } else {
      RunIsRun(p, a, n - 1);
      var r, next := RunN(p, a, n - 1), RunN(p, a, n);
      if r.status.Running? {
        StepObserves(p, a, r);
        forall i: nat | i < |r.observations| ensures ObservedAt(p, a, next, i) {
          ObservedStays(p, a, r, next, i);
        }
        RunningNotEnded(p, a, next);
      }
    }
  }

  lemma {:induction false} NewRunIsRun(p: Program, a: Answers)
    ensures IsRunOf(p, a, NEW_RUN)
  {
  }

  lemma {:induction false} RunningNotEnded(p: Program, a: Answers, r: Run)
    ensures r.status.Running? ==> EndedAt(p, a, r)
  {
  }

  // ---------------------------------------------------------------------------------------------
  // Nothing else is a run
  // ---------------------------------------------------------------------------------------------

  lemma {:induction false} CountsGrow(obs: seq<Observation>, m: nat)
    requires m <= |obs|
    ensures CountDerived(obs[..m]) <= CountDerived(obs) && CountCalled(obs[..m]) <= CountCalled(obs)
  {
    if m < |obs| {
      CountsGrow(obs[..|obs| - 1], m);
      assert obs[..|obs| - 1][..m] == obs[..m];
    } else {
      assert obs[..m] == obs;
    }
  }

  /** What a run was when it had made `m` observations. */
  function Earlier(r: Run, m: nat): Run
    requires m <= |r.observations|
    requires |r.contexts| == CountDerived(r.observations) + 1 && |r.calls| == CountCalled(r.observations)
  {
    CountsGrow(r.observations, m);
    var obs := r.observations[..m];
    Run(r.contexts[..CountDerived(obs) + 1], r.calls[..CountCalled(obs)], obs, Running)
  }

  lemma {:induction false} EarlierSteps(p: Program, a: Answers, r: Run, m: nat)
    requires IsRunOf(p, a, r) && m < |r.observations|
    ensures Step(p, a, Earlier(r, m)) == Earlier(r, m + 1)
  {
    hide Answer, Get, IllTyped, CountDerived, CountCalled;
    var obs, before, after := r.observations, Earlier(r, m), Earlier(r, m + 1);
    assert ObservedAt(p, a, r, m);
    assert obs[..m + 1] == obs[..m] + [obs[m]];
    CountsAppend(obs[..m], obs[m]);
    CountsGrow(obs, m + 1);
    match p(obs[..m])
    case Execute(c, name, args) =>
      assert before.calls + [Call(before.contexts[c], name, args)] == after.calls;
      AnswerOnPrefix(a, after.calls, r.calls, |before.calls|);
    case Await(f, _) =>
      AnswerOnPrefix(a, before.calls, r.calls, f);
    case _ =>
  }

  lemma {:induction false} RunReaches(p: Program, a: Answers, r: Run, m: nat)
    requires IsRunOf(p, a, r) && m <= |r.observations|
    ensures RunN(p, a, m) == Earlier(r, m)
  {
    hide Step, ObservedAt, EndedAt, IsRunOf;
    if m == 0 {
      EarlierStart(p, a, r);
    } else {
      RunReaches(p, a, r, m - 1);
      EarlierSteps(p, a, r, m - 1);
    }
  }

  lemma {:induction false} EarlierStart(p: Program, a: Answers, r: Run)
    requires IsRunOf(p, a, r)
    ensures Earlier(r, 0) == NEW_RUN
  {
    CountsGrow(r.observations, 0);
    assert CountDerived([]) == 0 && CountCalled([]) == 0 && r.observations[..0] == [];
  }

  /** The stepping model and the description agree: the runs of some code are exactly what stepping it
      gives. */
  lemma {:induction false} RunIffStepped(p: Program, a: Answers, r: Run)
    ensures IsRunOf(p, a, r) <==> exists n: nat :: RunN(p, a, n) == r
  {
    if n: nat :| RunN(p, a, n) == r {
      RunIsRun(p, a, n);
    }
    if IsRunOf(p, a, r) {
      var n := SteppedTo(p, a, r);
    }
  }

  lemma {:induction false} EarlierAll(r: Run)
    requires |r.contexts| == CountDerived(r.observations) + 1 && |r.calls| == CountCalled(r.observations)
    ensures Earlier(r, |r.observations|) == r.(status := Running)
  {
    hide CountDerived, CountCalled;
    assert r.observations[..|r.observations|] == r.observations;
  }

  lemma {:induction false} LastStep(p: Program, a: Answers, r: Run)
    requires Stopped(r) && EndedAt(p, a, r)
    ensures Step(p, a, r.(status := Running)) == r
  {
    hide Answer, IllTyped;
  }

  lemma {:induction false} SteppedTo(p: Program, a: Answers, r: Run) returns (n: nat)
    requires IsRunOf(p, a, r)
    ensures RunN(p, a, n) == r
  {
    hide Step, ObservedAt, EndedAt, CountDerived, CountCalled;
    var m := |r.observations|;
    RunReaches(p, a, r, m);
    EarlierAll(r);
    n := m;
    if Stopped(r) {
      LastStep(p, a, r);
      n := m + 1;
    }
  }

  /** What awaiting tells the code: the value of a completed call, the error of a failed one. */
  lemma {:induction false} AwaitTells(p: Program, a: Answers, r: Run, i: nat)
    requires IsRunOf(p, a, r) && i < |r.observations| && p(r.observations[..i]).Await?
    ensures var f, wanted := p(r.observations[..i]).future, p(r.observations[..i]).wanted;
      && f < |r.calls|
      && (forall error :: Answer(a, r.calls, f) == Resolved(Failed(error)) ==>
            r.observations[i] == Got(Fails(Recorded(error))))
      && (forall v :: wanted && v != Nil && Answer(a, r.calls, f) == Resolved(Completed([v, Nil])) ==>
            r.observations[i] == Got(Gives(v)))
  {
    hide Answer, Get;
    assert ObservedAt(p, a, r, i);
  }
}
