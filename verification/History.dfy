/** Questions one can ask of an event log: the outcomes recorded for an activity name, who the log
    belongs to, and which schedule of a name came first. */
module History {
  import opened Api

  /** What an outcome event records. */
  function OutcomeOf(e: Event): Outcome {
    if e.ActivityCompleted? then Completed(e.result)
    else if e.ActivityFailed? then Failed(e.error)
    else Failed("")
  }

  /** The outcomes recorded for `name`, in log order. */
  function OutcomesOf(log: seq<Event>, name: string): (r: seq<Outcome>) {
    if log == [] then []
    else
      var e := log[|log| - 1];
      OutcomesOf(log[..|log| - 1], name)
        + if e.IsOutcome() && e.activityFn == name then [OutcomeOf(e)] else []
  }

  lemma {:induction false} OutcomesOfAppend(log: seq<Event>, e: Event, name: string)
    ensures OutcomesOf(log + [e], name)
         == OutcomesOf(log, name) + if e.IsOutcome() && e.activityFn == name then [OutcomeOf(e)] else []
  {
    assert (log + [e])[..|log|] == log;
  }

  lemma {:induction false} OutcomesAfter(log: seq<Event>, e: Event)
    ensures forall n ::
      OutcomesOf(log + [e], n)
        == OutcomesOf(log, n) + if e.IsOutcome() && n == e.activityFn then [OutcomeOf(e)] else []
  {
    forall n {
      OutcomesOfAppend(log, e, n);
    }
  }

  lemma {:induction false} OutcomesUnchanged(log: seq<Event>, e: Event)
    requires !e.IsOutcome()
    ensures forall n :: OutcomesOf(log + [e], n) == OutcomesOf(log, n)
  {
    forall n {
      OutcomesOfAppend(log, e, n);
    }
  }

  lemma {:induction false} OutcomesOfConcat(a: seq<Event>, b: seq<Event>, name: string)
    ensures OutcomesOf(a + b, name) == OutcomesOf(a, name) + OutcomesOf(b, name)
  {
    if b == [] {
      assert a + b == a;
    } else {
      var init := b[..|b| - 1];
      assert a + b == (a + init) + [b[|b| - 1]];
      OutcomesOfConcat(a, init, name);
      OutcomesOfAppend(a + init, b[|b| - 1], name);
    }
  }

  lemma {:induction false} OutcomesOfPrefix(a: seq<Event>, b: seq<Event>, name: string)
    requires a <= b
    ensures OutcomesOf(a, name) <= OutcomesOf(b, name)
  {
    assert b == a + b[|a|..];
    OutcomesOfConcat(a, b[|a|..], name);
  }

  /** How many completions and final failures of `name` a log holds. */
  function CountOutcomes(log: seq<Event>, name: string): nat {
    if log == [] then 0
    else
      var e := log[|log| - 1];
      CountOutcomes(log[..|log| - 1], name)
        + if (e.ActivityCompleted? || e.ActivityFailed?) && e.activityFn == name then 1 else 0
  }

  /** Event `j` is the completion or final failure of `name` that `k` others precede. */
  predicate IsOutcomeNumber(log: seq<Event>, name: string, k: nat, j: nat) {
    && j < |log| && (log[j].ActivityCompleted? || log[j].ActivityFailed?) && log[j].activityFn == name
    && CountOutcomes(log[..j], name) == k
  }

  /** The recorded outcomes of a name are its completions and final failures, each at its place. */
  lemma {:induction false} OutcomesAreEvents(log: seq<Event>, name: string)
    ensures |OutcomesOf(log, name)| == CountOutcomes(log, name)
    ensures forall k: nat, j: nat | IsOutcomeNumber(log, name, k, j) ::
      && k < |OutcomesOf(log, name)|
      && (log[j].ActivityCompleted? ==> OutcomesOf(log, name)[k] == Completed(log[j].result))
      && (log[j].ActivityFailed? ==> OutcomesOf(log, name)[k] == Failed(log[j].error))
  {
    if log != [] {
      var init := log[..|log| - 1];
      OutcomesAreEvents(init, name);
      forall k: nat, j: nat | IsOutcomeNumber(log, name, k, j) && j < |init| ensures IsOutcomeNumber(init, name, k, j) {
        assert init[..j] == log[..j];
      }
    }
  }

  /** Every outcome that is counted is there. */
  lemma {:induction false} OutcomeNumberExists(log: seq<Event>, name: string, k: nat) returns (j: nat)
    requires k < CountOutcomes(log, name)
    ensures IsOutcomeNumber(log, name, k, j)
  {
    var init := log[..|log| - 1];
    if k < CountOutcomes(init, name) {
      j := OutcomeNumberExists(init, name, k);
      assert init[..j] == log[..j];
    } else {
      j := |init|;
    }
  }

  lemma {:induction false} NoOutcomes(log: seq<Event>, name: string)
    requires forall e :: e in log ==> !e.IsOutcome()
    ensures OutcomesOf(log, name) == []
  {
    if log != [] {
      NoOutcomes(log[..|log| - 1], name);
    }
  }

  /** The identity a replayed context ends up with: every event overwrites it. */
  function IdentityOf(log: seq<Event>): (string, string) {
    if log == [] then ("", "") else (log[|log| - 1].id, log[|log| - 1].workflowFn)
  }

  /** The index of the first schedule of `name`. */
  function FirstSchedule(log: seq<Event>, name: string): (r: Option<nat>)
    ensures r.Some? ==>
      && r.value < |log| && log[r.value].ActivityScheduled? && log[r.value].activityFn == name
      && forall j :: 0 <= j < r.value ==> !(log[j].ActivityScheduled? && log[j].activityFn == name)
    ensures r.None? ==> forall e :: e in log ==> !(e.ActivityScheduled? && e.activityFn == name)
  {
    if log == [] then None
    else
      var last := |log| - 1;
      match FirstSchedule(log[..last], name)
      case Some(i) => Some(i)
      case None =>
        if log[last].ActivityScheduled? && log[last].activityFn == name then Some(last) else None
  }

  lemma {:induction false} FirstScheduleStable(a: seq<Event>, b: seq<Event>, name: string)
    requires a <= b && FirstSchedule(a, name).Some?
    ensures FirstSchedule(b, name) == FirstSchedule(a, name)
  {
    var i := FirstSchedule(a, name).value;
    assert b[i] in b;
  }
}
