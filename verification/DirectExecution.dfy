/** Replaying a grammatical log is a direct execution: call `i` of the program is answered by the
    outcome of block `i`. */
module DirectExecution {
  import opened Api
  import opened History
  import opened Options
  import opened Workflows
  import opened Worker
  import opened Sequential
  import opened Story

  /** Executed directly on `outs`, the program next makes the call that `e` schedules. */
  ghost predicate IssuedAt(p: Program, outs: seq<Outcome>, e: Event, n: nat, nowUnix: int) {
    var r := RunN(p, Direct(outs), n);
    && r.status.Suspended? && r.calls != []
    && var call := r.calls[|r.calls| - 1];
       e == ScheduledEvent(e.id, e.workflowFn, call.activityFn, call.args, OptionsOf(call.context), nowUnix)
  }

  ghost predicate Issued(p: Program, outs: seq<Outcome>, e: Event) {
    exists n: nat, nowUnix: int :: IssuedAt(p, outs, e, n, nowUnix)
  }

  /** The schedule carries the options bound in the context the call was made through, if any. */
  ghost predicate CarriesOptions(e: Event, context: Context, nowUnix: int)
    requires e.ActivityScheduled?
  {
    && (forall o | ACTIVITY_OPTIONS_KEY in context && context[ACTIVITY_OPTIONS_KEY] == ContextValue.Options(o) ::
          e == ScheduledEvent(e.id, e.workflowFn, e.activityFn, e.input, Some(o), nowUnix))
    && (ACTIVITY_OPTIONS_KEY !in context || context[ACTIVITY_OPTIONS_KEY].Other? ==>
          e == ScheduledEvent(e.id, e.workflowFn, e.activityFn, e.input, None, nowUnix))
  }

  /** `e` schedules this call: its name, its arguments and its options. */
  ghost predicate Schedules(e: Event, call: Call) {
    && e.ActivityScheduled? && e.activityFn == call.activityFn && e.input == call.args
    && exists nowUnix: int :: CarriesOptions(e, call.context, nowUnix)
  }

  /** Every block's call is the one the program makes on the outcomes of the blocks before it. */
  ghost predicate BlocksIssued(p: Program, blocks: seq<Block>) {
    forall i: nat | i < |blocks| :: Issued(p, Outcomes(blocks[..i]), blocks[i].schedule)
  }

  lemma {:induction false} BlocksIssuedAppend(p: Program, blocks: seq<Block>, b: Block)
    requires BlocksIssued(p, blocks) && Issued(p, Outcomes(blocks), b.schedule)
    ensures BlocksIssued(p, blocks + [b])
  {
    hide Issued;
    var more := blocks + [b];
    forall i: nat | i < |more| ensures Issued(p, Outcomes(more[..i]), more[i].schedule) {
      if i < |blocks| {
        assert more[..i] == blocks[..i];
      } else {
        assert more[..i] == blocks;
      }
    }
  }

  /** Executed directly on `outs`, the program ends with `status`. */
  ghost predicate EndsWith(p: Program, outs: seq<Outcome>, status: Status) {
    exists n: nat :: Stopped(RunN(p, Direct(outs), n)) && RunN(p, Direct(outs), n).status == status
  }

  lemma {:induction false} DirectRefines(outs: seq<Outcome>, more: seq<Outcome>)
    requires outs <= more
    ensures Refines(Direct(outs), Direct(more))
  {
  }

  predicate NamesMatch(calls: seq<Call>, blocks: seq<Block>) {
    forall i :: 0 <= i < |calls| && i < |blocks| ==> calls[i].activityFn == blocks[i].schedule.ActivityName()
  }

  /** Call `i` of the direct execution is the call of block `i`, arguments and options included. */
  lemma {:induction false} CallOfBlock(p: Program, blocks: seq<Block>, i: nat) returns (n: nat, call: Call)
    requires AwaitsAtOnce(p) && BlocksIssued(p, blocks) && i < |blocks|
    ensures var r := RunN(p, Direct(Outcomes(blocks)), n);
      r.status.Running? && |r.calls| == i + 1 && r.calls[i] == call
    ensures Schedules(blocks[i].schedule, call) && call.activityFn == blocks[i].schedule.ActivityName()
  {
    var outs, all := Outcomes(blocks[..i]), Outcomes(blocks);
    assert outs == all[..i];
    assert Issued(p, outs, blocks[i].schedule);
    var m: nat, now: int :| IssuedAt(p, outs, blocks[i].schedule, m, now);
    var r := RunN(p, Direct(outs), m);
    SequentialShape(p, Direct(outs), m);
    SuspendedCallCount(p, outs, r);
    DirectRefines(outs, all);
    PrefixStability(p, Direct(outs), Direct(all), m);
    n, call := |r.observations|, r.calls[i];
    assert CarriesOptions(blocks[i].schedule, call.context, now);
  }

  lemma {:induction false} SuspendedCallCount(p: Program, outs: seq<Outcome>, r: Run)
    requires OnlyLastPending(p, Direct(outs), r)
    ensures |r.calls| <= |outs| + 1
    ensures r.status.Suspended? ==> |r.calls| == |outs| + 1
    ensures Stopped(r) && !r.status.Suspended? ==> |r.calls| <= |outs|
  {
    var last := |r.calls| - 1;
    if last >= 1 {
      assert Answer(Direct(outs), r.calls, last - 1).Resolved?;
    }
    if last >= 0 {
      var answer := Answer(Direct(outs), r.calls, last);
    }
  }

  lemma {:induction false} DirectNamesMatch(p: Program, blocks: seq<Block>, n: nat)
    requires AwaitsAtOnce(p) && BlocksIssued(p, blocks)
    ensures NamesMatch(RunN(p, Direct(Outcomes(blocks)), n).calls, blocks)
  {
    var a := Direct(Outcomes(blocks));
    var calls := RunN(p, a, n).calls;
    forall i: nat | i < |calls| && i < |blocks| ensures calls[i].activityFn == blocks[i].schedule.ActivityName() {
      var m, call := CallOfBlock(p, blocks, i);
      if m <= n {
        RunGrows(p, a, m, n);
      } else {
        RunGrows(p, a, n, m);
      }
    }
  }

  lemma {:induction false} CountsAgree(calls: seq<Call>, blocks: seq<Block>, k: nat, name: string)
    requires NamesMatch(calls, blocks) && k <= |calls| && k <= |blocks|
    ensures CountCalls(calls[..k], name) == CountBlocks(blocks[..k], name)
  {
    if k > 0 {
      CountsAgree(calls, blocks, k - 1, name);
      assert calls[..k][..k - 1] == calls[..k - 1] && blocks[..k][..k - 1] == blocks[..k - 1];
    }
  }

  /** By name or by position, a grammatical log answers these calls alike. */
  lemma {:induction false} AnswersAgree(log: seq<Event>, calls: seq<Call>)
    requires !Parse(log).stage.Malformed?
    requires NamesMatch(calls, Parse(log).blocks) && |calls| <= |Parse(log).blocks| + 1
    ensures AgreeOn(Direct(Outcomes(Parse(log).blocks)), Replayed(log), calls)
  {
    var blocks := Parse(log).blocks;
    forall i: nat | i < |calls|
      ensures Answer(Direct(Outcomes(blocks)), calls, i) == Answer(Replayed(log), calls, i)
    {
      var name := calls[i].activityFn;
      OutcomesOfStory(log, name);
      CountsAgree(calls, blocks, i, name);
      if i < |blocks| {
        SlotOfBlock(blocks, i);
      } else {
        assert blocks[..i] == blocks;
        CountIsLength(blocks, name);
      }
    }
  }

  /** The refinement: on a grammatical log whose blocks the program issued, replay by name and
      position is the direct execution on the blocks' outcomes, step for step. */
  lemma {:induction false} ReplayIsDirect(p: Program, log: seq<Event>, n: nat)
    requires AwaitsAtOnce(p) && !Parse(log).stage.Malformed? && BlocksIssued(p, Parse(log).blocks)
    ensures RunN(p, Replayed(log), n) == RunN(p, Direct(Outcomes(Parse(log).blocks)), n)
  {
    hide Step;
    var blocks := Parse(log).blocks;
    var a, b := Direct(Outcomes(blocks)), Replayed(log);
    var r := RunN(p, a, n);
    SequentialShape(p, a, n);
    SuspendedCallCount(p, Outcomes(blocks), r);
    DirectNamesMatch(p, blocks, n);
    if r.status == Panicked(BadOptions) {
      var call := BadOptionsCall(p, a, n);
      assert |r.calls| == |blocks| && Asked(p, r) == r.calls + [call];
    }
    AnswersAgree(log, Asked(p, r));
    AgreementOnAsked(p, a, b, n);
  }

  /** What a task of such a program appends: the schedule of its next call, or the end its direct
      execution reaches. */
  lemma {:induction false} TaskFollowsDirect(p: Program, task: WorkflowTask, log: seq<Event>, n: nat, clock: nat -> int)
    returns (r: Run, next: Event)
    requires AwaitsAtOnce(p) && !Parse(log).stage.Malformed? && BlocksIssued(p, Parse(log).blocks)
    requires Stopped(RunN(p, Replayed(log), n)) && IdentityOf(log) == (task.id, task.workflowFn)
    ensures r == RunN(p, Replayed(log), n) == RunN(p, Direct(Outcomes(Parse(log).blocks)), n)
    ensures r.status.Suspended? ==>
      && FreshEvents(log, r.calls, clock) == [next]
      && next.ActivityScheduled? && (next.id, next.workflowFn) == (task.id, task.workflowFn)
      && Issued(p, Outcomes(Parse(log).blocks), next)
    ensures !r.status.Suspended? ==> FreshEvents(log, r.calls, clock) == []
  {
    r := RunN(p, Replayed(log), n);
    ReplayIsDirect(p, log, n);
    SequentialFresh(p, log, n, clock);
    if r.status.Suspended? {
      next := LastSchedule(IdentityOf(log), r, clock);
      assert IssuedAt(p, Outcomes(Parse(log).blocks), next, n, clock(|r.calls| - 1));
    } else {
      next := WorkflowFailed(task.id, task.workflowFn, "");
    }
  }
}
