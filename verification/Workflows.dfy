/** Workflow code as an arbitrary deterministic program, and what one run of it on a log does. */
module Workflows {
  import opened Api
  import opened History
  import opened Futures
  import opened Options

  const ACTIVITY_OPTIONS_KEY := "github.com/ngnhng/durablefuture/sdk/workflow.ActivityOptions"

  datatype ContextValue = Options(options: ActivityOptions) | Other(value: Value)

  /** The values reachable from one (possibly derived) workflow context. */
  type Context = map<string, ContextValue>

  /** The next thing workflow code does. Contexts and futures are named by the order in which the
      run obtained them; context 0 is the one the workflow function was called with. */
  datatype Action =
    | WithValue(ctx: nat, key: string, value: ContextValue)
    | Execute(ctx: nat, activityFn: string, args: seq<Value>)
    | Await(future: nat, wanted: bool)
    | Return(result: seq<Value>)
    | Panic(message: string)

  /** What workflow code learns from each action it completes. */
  datatype Observation = Derived | Called | Got(result: GetResult)

  /** Deterministic workflow code: its next action is a function of what it has seen. It may loop
      forever, schedule in parallel, and await in any order. */
  type Program = seq<Observation> -> Action

  datatype PanicReason = User(message: string) | NilPointer | BadOptions

  datatype Status = Running | Suspended | Returned(result: seq<Value>) | Panicked(reason: PanicReason)

  /** One call of `ExecuteActivity`, with the context it was made through. */
  datatype Call = Call(context: Context, activityFn: string, args: seq<Value>)

  /** A run of a program: it records one observation for each completed action. */
  datatype Run = Run(
    contexts: seq<Context>,
    calls: seq<Call>,
    observations: seq<Observation>,
    status: Status)

  const NEW_RUN := Run([map[]], [], [], Running)

  /** Where the outcome of a call comes from: the replayed log, matched by activity name and
      position, or a direct execution in which call `i` produced outcome `i`. */
  datatype Answers = Replayed(log: seq<Event>) | Direct(outcomes: seq<Outcome>)

  function CountCalls(calls: seq<Call>, name: string): nat {
    if calls == [] then 0
    else
      CountCalls(calls[..|calls| - 1], name)
        + if calls[|calls| - 1].activityFn == name then 1 else 0
  }

  /** The element of `outs` at position `k`, as a future. */
  function Slot(outs: seq<Outcome>, k: nat): (f: Future)
    ensures f.Pending? <==> k >= |outs|
    ensures f.Resolved? ==> f.outcome == outs[k]
  {
    if k < |outs| then Resolved(outs[k]) else Pending
  }

  /** `f` is what a log records for call `k` of `name`: the result or the error of outcome event number
      `k` of that name, or nothing if there are no more than `k` such events. */
  ghost predicate IsRecorded(log: seq<Event>, name: string, k: nat, f: Future) {
    && (f.Pending? <==> CountOutcomes(log, name) <= k)
    && forall j: nat | IsOutcomeNumber(log, name, k, j) ::
      && (log[j].ActivityCompleted? ==> f == Resolved(Completed(log[j].result)))
      && (log[j].ActivityFailed? ==> f == Resolved(Failed(log[j].error)))
  }

  lemma {:induction false} SlotIsRecorded(log: seq<Event>, name: string, k: nat)
    ensures IsRecorded(log, name, k, Slot(OutcomesOf(log, name), k))
  {
    OutcomesAreEvents(log, name);
  }

  /** Only one future is what a log records for a call. */
  lemma {:induction false} RecordedOnce(log: seq<Event>, name: string, k: nat, f: Future, g: Future)
    requires IsRecorded(log, name, k, f) && IsRecorded(log, name, k, g)
    ensures f == g
  {
    if f.Resolved? {
      var j := OutcomeNumberExists(log, name, k);
    }
  }

  /** The future of call `i`. */
  function Answer(a: Answers, calls: seq<Call>, i: nat): Future
    requires i < |calls|
  {
    match a
    case Replayed(log) =>
      Slot(OutcomesOf(log, calls[i].activityFn), CountCalls(calls[..i], calls[i].activityFn))
    case Direct(outs) => Slot(outs, i)
  }

  /** Replay answers call `i` with what the log records for that name and that many earlier calls. */
  lemma {:induction false} ReplayAnswers(log: seq<Event>, calls: seq<Call>, i: nat)
    requires i < |calls|
    ensures IsRecorded(log, calls[i].activityFn, CountCalls(calls[..i], calls[i].activityFn),
                       Answer(Replayed(log), calls, i))
  {
    SlotIsRecorded(log, calls[i].activityFn, CountCalls(calls[..i], calls[i].activityFn));
  }

  lemma {:induction false} DirectAnswers(outs: seq<Outcome>, calls: seq<Call>, i: nat)
    requires i < |calls|
    ensures i < |outs| ==> Answer(Direct(outs), calls, i) == Resolved(outs[i])
    ensures i >= |outs| ==> Answer(Direct(outs), calls, i) == Pending
  {
  }

  /** The options key is bound to something that is neither nil nor options. */
  predicate IllTyped(c: Context): (r: bool)
    ensures r <==> ACTIVITY_OPTIONS_KEY in c && exists v :: v != Nil && c[ACTIVITY_OPTIONS_KEY] == Other(v)
  {
    && ACTIVITY_OPTIONS_KEY in c && c[ACTIVITY_OPTIONS_KEY].Other?
    && c[ACTIVITY_OPTIONS_KEY] != Other(Nil)
  }

  function OptionsOf(c: Context): (r: Option<ActivityOptions>)
    ensures forall o :: r == Some(o) <==>
      ACTIVITY_OPTIONS_KEY in c && c[ACTIVITY_OPTIONS_KEY] == ContextValue.Options(o)
  {
    if ACTIVITY_OPTIONS_KEY in c && c[ACTIVITY_OPTIONS_KEY].Options?
    then Some(c[ACTIVITY_OPTIONS_KEY].options) else None
  }

  function Crash(r: Run, reason: PanicReason): Run {
    r.(status := Panicked(reason))
  }

  /** Performs the program's next action. The options of a call are read only when the log holds
      no outcome for it, so ill-typed options crash a fresh call and not a replayed one. */
  function Step(p: Program, a: Answers, r: Run): Run {
    match p(r.observations)
    case WithValue(c, key, value) =>
      if c >= |r.contexts| then Crash(r, NilPointer)
      else r.(contexts := r.contexts + [r.contexts[c][key := value]],
              observations := r.observations + [Derived])
    case Execute(c, name, args) =>
      if c >= |r.contexts| then Crash(r, NilPointer)
      else
        var calls := r.calls + [Call(r.contexts[c], name, args)];
        if Answer(a, calls, |r.calls|).Pending? && IllTyped(r.contexts[c]) then Crash(r, BadOptions)
        else r.(calls := calls, observations := r.observations + [Called])
    case Await(f, wanted) =>
      if f >= |r.calls| then Crash(r, NilPointer)
      else
        var got := Get(Answer(a, r.calls, f), wanted);
        if got.Suspends? then r.(status := Suspended)
        else r.(observations := r.observations + [Got(got)])
    case Return(result) => r.(status := Returned(result))
    case Panic(message) => Crash(r, User(message))
  }

  lemma {:induction false} StepExecute(p: Program, a: Answers, r: Run, c: nat, name: string, args: seq<Value>)
    returns (next: Run)
    requires p(r.observations) == Execute(c, name, args) && c < |r.contexts|
    ensures next == Step(p, a, r)
    ensures var call := Call(r.contexts[c], name, args);
      var answer := Answer(a, r.calls + [call], |r.calls|);
      next == if answer.Pending? && IllTyped(r.contexts[c]) then Crash(r, BadOptions)
              else r.(calls := r.calls + [call], observations := r.observations + [Called])
  {
    next := Step(p, a, r);
  }

  lemma {:induction false} CountCallsAppend(calls: seq<Call>, call: Call)
    ensures forall name ::
      CountCalls(calls + [call], name) == CountCalls(calls, name) + if call.activityFn == name then 1 else 0
  {
    assert (calls + [call])[..|calls|] == calls;
  }

  /** The run after `n` steps from `r`; a run that has stopped stays as it is. */
  function Continue(p: Program, a: Answers, r: Run, n: nat): Run {
    if n == 0 then r
    else
      var before := Continue(p, a, r, n - 1);
      if before.status.Running? then Step(p, a, before) else before
  }

  /** A run from scratch. */
  function RunN(p: Program, a: Answers, n: nat): Run {
    Continue(p, a, NEW_RUN, n)
  }

  predicate Stopped(r: Run) { !r.status.Running? }

  /** The run waits for an activity: it is suspended, or it crashed on a call that a longer log
      could answer. */
  predicate Waiting(r: Run) { r.status.Suspended? || r.status == Panicked(BadOptions) }

  /** Every answer `a` gives, `b` gives too. */
  ghost predicate Refines(a: Answers, b: Answers) {
    forall calls: seq<Call>, i: nat | i < |calls| && Answer(a, calls, i).Resolved? ::
      Answer(b, calls, i) == Answer(a, calls, i)
  }

  lemma {:induction false} ExtensionRefines(h: seq<Event>, h': seq<Event>)
    requires forall name :: OutcomesOf(h, name) <= OutcomesOf(h', name)
    ensures Refines(Replayed(h), Replayed(h'))
  {
  }

  lemma {:induction false} LongerLogRefines(h: seq<Event>, h': seq<Event>)
    requires h <= h'
    ensures Refines(Replayed(h), Replayed(h'))
  {
    forall name ensures OutcomesOf(h, name) <= OutcomesOf(h', name) {
      OutcomesOfPrefix(h, h', name);
    }
    ExtensionRefines(h, h');
  }

  // ---------------------------------------------------------------------------------------------
  // Shape of runs
  // ---------------------------------------------------------------------------------------------

  /** A running run has made one observation per step; a stopped one made its last observation
      after `|observations|` steps. */
  lemma {:induction false} StepsAreObservations(p: Program, a: Answers, n: nat)
    ensures var r := RunN(p, a, n);
      && |r.observations| <= n
      && (r.status.Running? ==> |r.observations| == n)
      && RunN(p, a, |r.observations|) == r.(status := Running)
      && (Stopped(r) ==> |r.observations| < n && Step(p, a, r.(status := Running)) == r)
  {
    if n > 0 {
      StepsAreObservations(p, a, n - 1);
    }
  }

  lemma {:induction false} ContinueAdds(p: Program, a: Answers, r: Run, m: nat, n: nat)
    ensures Continue(p, a, r, m + n) == Continue(p, a, Continue(p, a, r, m), n)
  {
    hide Step;
    if n > 0 {
      ContinueAdds(p, a, r, m, n - 1);
    }
  }

  lemma {:induction false} StoppedStays(p: Program, a: Answers, r: Run, n: nat)
    requires Stopped(r)
    ensures Continue(p, a, r, n) == r
  {
    hide Step;
    if n > 0 {
      StoppedStays(p, a, r, n - 1);
    }
  }

  /** A program stops in at most one way: how many steps are taken beyond that does not matter. */
  lemma {:induction false} StopsOnce(p: Program, a: Answers, m: nat, n: nat)
    requires Stopped(RunN(p, a, m)) && Stopped(RunN(p, a, n))
    ensures RunN(p, a, m) == RunN(p, a, n)
  {
    hide Step;
    if m <= n {
      ContinueAdds(p, a, NEW_RUN, m, n - m);
      StoppedStays(p, a, RunN(p, a, m), n - m);
    } else {
      StopsOnce(p, a, n, m);
    }
  }

  lemma {:induction false} StepGrows(p: Program, a: Answers, r: Run)
    ensures r.calls <= Step(p, a, r).calls && r.observations <= Step(p, a, r).observations
  {
  }

  /** Earlier calls and observations are prefixes of later ones. */
  lemma {:induction false} RunGrows(p: Program, a: Answers, m: nat, n: nat)
    requires m <= n
    ensures RunN(p, a, m).calls <= RunN(p, a, n).calls
    ensures RunN(p, a, m).observations <= RunN(p, a, n).observations
  {
    hide Step;
    if m < n {
      RunGrows(p, a, m, n - 1);
      StepGrows(p, a, RunN(p, a, n - 1));
    }
  }

  // ---------------------------------------------------------------------------------------------
  // Replay theorems
  // ---------------------------------------------------------------------------------------------

  lemma {:induction false} StepStability(p: Program, a: Answers, b: Answers, r: Run)
    requires Refines(a, b) && r.status.Running?
    ensures var next := Step(p, a, r);
      if Waiting(next) then next.(status := Running) == r else Step(p, b, r) == next
  {
    match p(r.observations)
    case Execute(c, name, args) =>
      if c < |r.contexts| {
        var calls := r.calls + [Call(r.contexts[c], name, args)];
        assert Answer(a, calls, |r.calls|).Resolved? ==>
          Answer(b, calls, |r.calls|) == Answer(a, calls, |r.calls|);
      }
    case Await(f, wanted) =>
      if f < |r.calls| {
        assert Answer(a, r.calls, f).Resolved? ==> Answer(b, r.calls, f) == Answer(a, r.calls, f);
      }
    case _ =>
  }

  /** Prefix stability, for any program. A run that finishes on `a` finishes identically wherever
      at least the same answers are available; one that waits has made exactly the first actions
      of the longer run. */
  lemma {:induction false} PrefixStability(p: Program, a: Answers, b: Answers, n: nat)
    requires Refines(a, b)
    ensures var r := RunN(p, a, n);
      if Waiting(r) then RunN(p, b, |r.observations|) == r.(status := Running) else RunN(p, b, n) == r
  {
    hide Step;
    if n > 0 {
      PrefixStability(p, a, b, n - 1);
      var before := RunN(p, a, n - 1);
      if before.status.Running? {
        assert |before.observations| == n - 1 by { StepsAreObservations(p, a, n - 1); }
        StepStability(p, a, b, before);
        var next := Step(p, a, before);
        assert RunN(p, a, n) == next;
        if Waiting(next) {
          assert next.observations == before.observations;
        } else {
          assert RunN(p, b, n) == Step(p, b, before);
        }
      }
    }
  }

  /** Replay equals resume: running from scratch on the longer log is the same as picking up the
      suspended run where it stopped and letting it see the new outcomes. */
  lemma {:induction false} ReplayEqualsResume(p: Program, h: seq<Event>, h': seq<Event>, n: nat, m: nat)
    requires h <= h' && RunN(p, Replayed(h), n).status.Suspended?
    ensures var r := RunN(p, Replayed(h), n);
      RunN(p, Replayed(h'), |r.observations| + m) == Continue(p, Replayed(h'), r.(status := Running), m)
  {
    var r := RunN(p, Replayed(h), n);
    assert RunN(p, Replayed(h'), |r.observations|) == r.(status := Running) by {
      LongerLogRefines(h, h');
      PrefixStability(p, Replayed(h), Replayed(h'), n);
    }
    ContinueAdds(p, Replayed(h'), NEW_RUN, |r.observations|, m);
  }

  /** A suspended run makes progress exactly when the awaited outcome has arrived: on a log that
      still lacks it, the replay suspends at the same await. */
  lemma {:induction false} ResumesIffAwaitedArrives(p: Program, h: seq<Event>, h': seq<Event>, n: nat)
    requires h <= h' && RunN(p, Replayed(h), n).status.Suspended?
    ensures var r := RunN(p, Replayed(h), n);
      && p(r.observations).Await? && p(r.observations).future < |r.calls|
      && (RunN(p, Replayed(h'), |r.observations| + 1) == r
          <==> Answer(Replayed(h'), r.calls, p(r.observations).future).Pending?)
  {
    var r := RunN(p, Replayed(h), n);
    StepsAreObservations(p, Replayed(h), n);
    ReplayEqualsResume(p, h, h', n, 1);
    var resumed := r.(status := Running);
    assert Continue(p, Replayed(h'), resumed, 0) == resumed;
    assert Continue(p, Replayed(h'), resumed, 1) == Step(p, Replayed(h'), resumed);
  }

  ghost predicate AgreeOn(a: Answers, b: Answers, calls: seq<Call>) {
    forall i: nat | i < |calls| :: Answer(a, calls, i) == Answer(b, calls, i)
  }

  lemma {:induction false} StepAgrees(p: Program, a: Answers, b: Answers, r: Run)
    requires AgreeOn(a, b, Step(p, a, r).calls) && Step(p, a, r).status != Panicked(BadOptions)
    ensures Step(p, b, r) == Step(p, a, r)
  {
    StepGrows(p, a, r);
    match p(r.observations)
    case Execute(c, name, args) =>
      if c < |r.contexts| {
        assert Step(p, a, r).calls == r.calls + [Call(r.contexts[c], name, args)];
      }
    case Await(f, wanted) =>
      if f < |r.calls| {
        AnswerOnPrefix(a, r.calls, Step(p, a, r).calls, f);
        AnswerOnPrefix(b, r.calls, Step(p, a, r).calls, f);
      }
    case _ =>
  }

  /** Runs are equal as soon as the answers agree on the calls one of them makes. */
  lemma {:induction false} AgreementOnCalls(p: Program, a: Answers, b: Answers, n: nat)
    requires AgreeOn(a, b, RunN(p, a, n).calls)
    requires RunN(p, a, n).status != Panicked(BadOptions)
    ensures RunN(p, b, n) == RunN(p, a, n)
  {
    hide Step;
    if n > 0 {
      var before, r := RunN(p, a, n - 1), RunN(p, a, n);
      RunGrows(p, a, n - 1, n);
      AgreementShrinks(a, b, before.calls, r.calls);
      AgreementOnCalls(p, a, b, n - 1);
      if before.status.Running? {
        StepAgrees(p, a, b, before);
      }
    }
  }

  /** The call on which a run crashed for its options had no answer. */
  lemma {:induction false} BadOptionsCall(p: Program, a: Answers, n: nat) returns (call: Call)
    requires RunN(p, a, n).status == Panicked(BadOptions)
    ensures var r := RunN(p, a, n);
      && |r.observations| < n
      && p(r.observations).Execute? && p(r.observations).ctx < |r.contexts|
      && call == Call(r.contexts[p(r.observations).ctx], p(r.observations).activityFn, p(r.observations).args)
      && IllTyped(call.context)
      && Answer(a, r.calls + [call], |r.calls|).Pending?
  {
    var r := RunN(p, a, n);
    StepsAreObservations(p, a, n);
    var act := p(r.observations);
    call := Call(r.contexts[act.ctx], act.activityFn, act.args);
  }

  /** Agreement extends to runs that crash on ill-typed options, if it covers the crashed call. */
  lemma {:induction false} AgreementOnBadOptions(p: Program, a: Answers, b: Answers, n: nat, call: Call)
    requires var r := RunN(p, a, n);
      && r.status == Panicked(BadOptions) && p(r.observations).Execute? && p(r.observations).ctx < |r.contexts|
      && call == Call(r.contexts[p(r.observations).ctx], p(r.observations).activityFn, p(r.observations).args)
      && IllTyped(call.context)
      && Answer(b, r.calls + [call], |r.calls|).Pending? && AgreeOn(a, b, r.calls)
    ensures RunN(p, b, n) == RunN(p, a, n)
  {
    hide Step;
    var r := RunN(p, a, n);
    var k, before := |r.observations|, r.(status := Running);
    StepsAreObservations(p, a, n);
    AgreementOnCalls(p, a, b, k);
    var act := p(r.observations);
    var crashed := StepExecute(p, b, before, act.ctx, act.activityFn, act.args);
    assert RunN(p, b, k + 1) == r;
    ContinueAdds(p, b, NEW_RUN, k + 1, n - (k + 1));
    StoppedStays(p, b, r, n - (k + 1));
  }

  /** The calls a run has asked answers for: those it made, and the one it crashed on. */
  function Asked(p: Program, r: Run): seq<Call> {
    var act := p(r.observations);
    if r.status == Panicked(BadOptions) && act.Execute? && act.ctx < |r.contexts|
    then r.calls + [Call(r.contexts[act.ctx], act.activityFn, act.args)]
    else r.calls
  }

  /** However it ends, a run depends on its answers only through the calls it asked about. */
  lemma {:induction false} AgreementOnAsked(p: Program, a: Answers, b: Answers, n: nat)
    requires AgreeOn(a, b, Asked(p, RunN(p, a, n)))
    ensures RunN(p, b, n) == RunN(p, a, n)
  {
    hide Step;
    var r := RunN(p, a, n);
    if r.status == Panicked(BadOptions) {
      var call := BadOptionsCall(p, a, n);
      assert Asked(p, r) == r.calls + [call];
      AgreementShrinks(a, b, r.calls, r.calls + [call]);
      AgreementOnBadOptions(p, a, b, n, call);
    } else {
      AgreementOnCalls(p, a, b, n);
    }
  }

  lemma {:induction false} AgreementShrinks(a: Answers, b: Answers, calls: seq<Call>, more: seq<Call>)
    requires calls <= more && AgreeOn(a, b, more)
    ensures AgreeOn(a, b, calls)
  {
    forall i: nat | i < |calls| ensures Answer(a, calls, i) == Answer(b, calls, i) {
      AnswerOnPrefix(a, calls, more, i);
      AnswerOnPrefix(b, calls, more, i);
    }
  }

  lemma {:induction false} AnswerOnPrefix(a: Answers, calls: seq<Call>, more: seq<Call>, i: nat)
    requires calls <= more && i < |calls|
    ensures Answer(a, more, i) == Answer(a, calls, i)
  {
    assert calls[..i] == more[..i];
  }

  /** Interleaving independence: only the per-name order of outcomes matters. */
  lemma {:induction false} InterleavingIndependence(p: Program, h1: seq<Event>, h2: seq<Event>, n: nat)
    requires forall name :: OutcomesOf(h1, name) == OutcomesOf(h2, name)
    ensures RunN(p, Replayed(h1), n) == RunN(p, Replayed(h2), n)
  {
    if n > 0 {
      InterleavingIndependence(p, h1, h2, n - 1);
    }
  }

  // ---------------------------------------------------------------------------------------------
  // Ill-typed activity options
  // ---------------------------------------------------------------------------------------------

  /** No run of the code binds the options key to anything but options or nil. */
  ghost predicate WellTyped(p: Program) {
    forall a: Answers, n: nat :: BindsOnlyOptions(p, RunN(p, a, n))
  }

  predicate BindsOnlyOptions(p: Program, r: Run) {
    var act := p(r.observations);
    r.status.Running? && act.WithValue? && act.key == ACTIVITY_OPTIONS_KEY ==>
      act.value.Options? || act.value == Other(Nil)
  }

  lemma {:induction false} WellTypedNeverBadOptions(p: Program, a: Answers, n: nat)
    requires WellTyped(p)
    ensures RunN(p, a, n).status != Panicked(BadOptions)
    ensures forall i :: 0 <= i < |RunN(p, a, n).contexts| ==> !IllTyped(RunN(p, a, n).contexts[i])
  {
    if n > 0 {
      WellTypedNeverBadOptions(p, a, n - 1);
      assert BindsOnlyOptions(p, RunN(p, a, n - 1));
    }
  }

  /** The run is about to make a call that has no answer, through a context with ill-typed options. */
  predicate AboutToMisuse(p: Program, a: Answers, r: Run) {
    var act := p(r.observations);
    && r.status.Running? && act.Execute? && act.ctx < |r.contexts| && IllTyped(r.contexts[act.ctx])
    && Answer(a, r.calls + [Call(r.contexts[act.ctx], act.activityFn, act.args)], |r.calls|).Pending?
  }

  /** On no log does the code make such a call. */
  ghost predicate UsesOptionsSafely(p: Program) {
    forall h: seq<Event>, n: nat :: !AboutToMisuse(p, Replayed(h), RunN(p, Replayed(h), n))
  }

  lemma {:induction false} WellTypedIsSafe(p: Program)
    requires WellTyped(p)
    ensures UsesOptionsSafely(p)
  {
    hide RunN, IllTyped, WellTyped;
    forall h: seq<Event>, n: nat ensures !AboutToMisuse(p, Replayed(h), RunN(p, Replayed(h), n)) {
      WellTypedNeverBadOptions(p, Replayed(h), n);
    }
  }

  /** A run that is about to misuse its options crashes at its next step. */
  lemma {:induction false} MisuseCrashes(p: Program, a: Answers, n: nat)
    requires AboutToMisuse(p, a, RunN(p, a, n))
    ensures RunN(p, a, n + 1).status == Panicked(BadOptions)
  {
    var r := RunN(p, a, n);
    var act := p(r.observations);
    var next := StepExecute(p, a, r, act.ctx, act.activityFn, act.args);
  }

  lemma {:induction false} CrashIsMisuse(p: Program, a: Answers, n: nat) returns (k: nat)
    requires RunN(p, a, n).status == Panicked(BadOptions)
    ensures AboutToMisuse(p, a, RunN(p, a, k))
  {
    hide Step, Answer, IllTyped;
    var r := RunN(p, a, n);
    var call := BadOptionsCall(p, a, n);
    StepsAreObservations(p, a, n);
    k := |r.observations|;
  }

  lemma {:induction false} SafeNeverCrashes(p: Program, h: seq<Event>, n: nat)
    requires UsesOptionsSafely(p)
    ensures RunN(p, Replayed(h), n).status != Panicked(BadOptions)
  {
    hide RunN, AboutToMisuse;
    if RunN(p, Replayed(h), n).status == Panicked(BadOptions) {
      var k := CrashIsMisuse(p, Replayed(h), n);
    }
  }

  /** Exactly which crashes replay can undo. A stopped run that is not suspended ends the same way
      on every longer log if and only if it did not crash on ill-typed options; if it did, an
      outcome recorded for that very call makes the replay go past it. */
  lemma {:induction false} FinalUnlessBadOptions(p: Program, h: seq<Event>, n: nat)
    requires Stopped(RunN(p, Replayed(h), n)) && !RunN(p, Replayed(h), n).status.Suspended?
    ensures RunN(p, Replayed(h), n).status != Panicked(BadOptions)
      <==> forall h' | h <= h' :: RunN(p, Replayed(h'), n) == RunN(p, Replayed(h), n)
  {
    var r := RunN(p, Replayed(h), n);
    if r.status != Panicked(BadOptions) {
      forall h' | h <= h' ensures RunN(p, Replayed(h'), n) == r {
        LongerLogRefines(h, h');
        PrefixStability(p, Replayed(h), Replayed(h'), n);
      }
    } else {
      var h' := BadOptionsUndone(p, h, n);
      assert h <= h';
    }
  }

  /** The run has ended, one way or another. */
  predicate HasEnded(r: Run) { Stopped(r) && !r.status.Suspended? }

  /** What this run says is what the run on every longer log says. */
  ghost predicate IsFinal(p: Program, h: seq<Event>, n: nat) {
    HasEnded(RunN(p, Replayed(h), n)) ==>
      forall h' | h <= h' :: RunN(p, Replayed(h'), n) == RunN(p, Replayed(h), n)
  }

  /** Exactly which code has only final ends: every end it reaches, on any log, is final on every longer
      one, if and only if on no log does it make an unanswered call through ill-typed options. */
  lemma {:induction false} FinalIffSafe(p: Program)
    ensures (forall h: seq<Event>, n: nat :: IsFinal(p, h, n)) <==> UsesOptionsSafely(p)
  {
    hide RunN, AboutToMisuse;
    forall h: seq<Event>, n: nat | UsesOptionsSafely(p) ensures IsFinal(p, h, n) {
      SafeNeverCrashes(p, h, n);
      if HasEnded(RunN(p, Replayed(h), n)) {
        FinalUnlessBadOptions(p, h, n);
      }
    }
    forall h: seq<Event>, n: nat | AboutToMisuse(p, Replayed(h), RunN(p, Replayed(h), n))
      ensures !IsFinal(p, h, n + 1)
    {
      MisuseCrashes(p, Replayed(h), n);
      FinalUnlessBadOptions(p, h, n + 1);
    }
  }

  lemma {:induction false} BadOptionsUndone(p: Program, h: seq<Event>, n: nat) returns (h': seq<Event>)
    requires RunN(p, Replayed(h), n).status == Panicked(BadOptions)
    ensures h <= h' && RunN(p, Replayed(h'), n) != RunN(p, Replayed(h), n)
  {
    var r := RunN(p, Replayed(h), n);
    var k := |r.observations|;
    StepsAreObservations(p, Replayed(h), n);
    var act := p(r.observations);
    var name := act.activityFn;
    var calls := r.calls + [Call(r.contexts[act.ctx], name, act.args)];
    var missing := CountCalls(calls[..|r.calls|], name) + 1;
    h' := h + Completions(name, missing);
    OutcomesOfConcat(h, Completions(name, missing), name);
    CompletionsAreOutcomes(name, missing);
    LongerLogRefines(h, h');
    PrefixStability(p, Replayed(h), Replayed(h'), n);
    var next := RunN(p, Replayed(h'), k + 1);
    assert next == Step(p, Replayed(h'), r.(status := Running));
    assert next.observations == r.observations + [Called];
    RunGrows(p, Replayed(h'), k + 1, n);
  }

  function Completions(name: string, n: nat): seq<Event> {
    if n == 0 then [] else Completions(name, n - 1) + [ActivityCompleted("", "", name, [])]
  }

  lemma {:induction false} CompletionsAreOutcomes(name: string, n: nat)
    ensures |OutcomesOf(Completions(name, n), name)| == n
  {
    if n > 0 {
      CompletionsAreOutcomes(name, n - 1);
      OutcomesOfAppend(Completions(name, n - 1), ActivityCompleted("", "", name, []), name);
    }
  }
}
