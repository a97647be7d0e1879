/** The grammar of a workflow's log: Started, then one block per activity call, then an end. */
module Story {
  import opened Api
  import opened History

  /** One activity call: its schedule, the attempts that were retried, and its outcome. */
  datatype Block = Block(schedule: Event, retries: seq<Event>, outcome: Event)

  datatype Stage =
    | NotStarted
    | Idle
    | Busy(schedule: Event, retries: seq<Event>)
    | Finished(completion: Event)
    | Broken(failure: Event, times: nat)
    | Malformed

  datatype Story = Story(blocks: seq<Block>, stage: Stage)

  predicate IsScheduled(e: Event) { e.ActivityScheduled? }
  predicate IsRetried(e: Event) { e.ActivityRetried? }
  predicate IsWake(e: Event) { e.WakesWorkflow() }

  /** What one more event makes of a story. A failed workflow may fail again, identically: its task
      is redelivered. */
  function Advance(s: Story, e: Event): Story {
    match s.stage
    case NotStarted => s.(stage := if e.WorkflowStarted? then Idle else Malformed)
    case Idle =>
      s.(stage :=
        if e.ActivityScheduled? then Busy(e, [])
        else if e.WorkflowCompleted? then Finished(e)
        else if e.WorkflowFailed? then Broken(e, 1)
        else Malformed)
    case Busy(schedule, retries) =>
      if e.ActivityRetried? && e.ActivityName() == schedule.ActivityName() then
        s.(stage := Busy(schedule, retries + [e]))
      else if e.IsOutcome() && e.ActivityName() == schedule.ActivityName() then
        Story(s.blocks + [Block(schedule, retries, e)], Idle)
      else s.(stage := Malformed)
    case Finished(_) => s.(stage := Malformed)
    case Broken(failure, times) =>
      s.(stage := if e == failure then Broken(failure, times + 1) else Malformed)
    case Malformed => s
  }

  function Parse(log: seq<Event>): Story {
    if log == [] then Story([], NotStarted)
    else Advance(Parse(log[..|log| - 1]), log[|log| - 1])
  }

  lemma {:induction false} ParseAppend(log: seq<Event>, e: Event)
    ensures Parse(log + [e]) == Advance(Parse(log), e)
  {
    assert (log + [e])[..|log|] == log;
  }

  // ---------------------------------------------------------------------------------------------
  // The grammar, as a generator
  // ---------------------------------------------------------------------------------------------

  predicate OpenBlock(schedule: Event, retries: seq<Event>) {
    && schedule.ActivityScheduled?
    && forall e :: e in retries ==> e.ActivityRetried? && e.ActivityName() == schedule.ActivityName()
  }

  predicate WellFormedBlock(b: Block) {
    OpenBlock(b.schedule, b.retries) && b.outcome.IsOutcome() && b.outcome.ActivityName() == b.schedule.ActivityName()
  }

  function Render(b: Block): seq<Event> {
    [b.schedule] + b.retries + [b.outcome]
  }

  function RenderAll(blocks: seq<Block>): seq<Event> {
    if blocks == [] then [] else RenderAll(blocks[..|blocks| - 1]) + Render(blocks[|blocks| - 1])
  }

  function Repeat(e: Event, n: nat): seq<Event> {
    if n == 0 then [] else Repeat(e, n - 1) + [e]
  }

  function Tail(stage: Stage): seq<Event> {
    match stage
    case Busy(schedule, retries) => [schedule] + retries
    case Finished(e) => [e]
    case Broken(e, times) => Repeat(e, times)
    case _ => []
  }

  predicate WellFormedStage(stage: Stage) {
    match stage
    case Busy(schedule, retries) => OpenBlock(schedule, retries)
    case Finished(e) => e.WorkflowCompleted?
    case Broken(e, times) => e.WorkflowFailed? && times >= 1
    case _ => true
  }

  ghost predicate WellFormedStory(s: Story) {
    WellFormedStage(s.stage) && forall b :: b in s.blocks ==> WellFormedBlock(b)
  }

  /** A log that parses is exactly: Started, then Scheduled Retried* Outcome per call, all of one
      name, then the open block or the end. */
  lemma {:induction false} ParseSound(log: seq<Event>)
    requires !Parse(log).stage.Malformed? && log != []
    ensures var s := Parse(log);
      && log[0].WorkflowStarted? && !s.stage.NotStarted? && WellFormedStory(s)
      && log == [log[0]] + RenderAll(s.blocks) + Tail(s.stage)
  {
    var init, e := log[..|log| - 1], log[|log| - 1];
    assert log == init + [e];
    if init == [] {
      assert Parse(log) == Advance(Story([], NotStarted), e);
      assert log == [log[0]] + [] + [];
    } else {
      hide Advance;
      hide RenderAll;
      hide Tail;
      MalformedStays(Parse(init), e);
      ParseSound(init);
      var s := Parse(init);
      AdvanceRenders(s, e);
      var t := Parse(log);
      Glue(log, [log[0]], RenderAll(s.blocks), Tail(s.stage), e, RenderAll(t.blocks), Tail(t.stage));
    }
  }

  /** A story ends with the event of that kind. */
  lemma {:induction false} EndEvents(log: seq<Event>)
    requires !Parse(log).stage.Malformed?
    ensures Parse(log).stage.Finished? ==> Parse(log).stage.completion.WorkflowCompleted?
    ensures Parse(log).stage.Broken? ==> Parse(log).stage.failure.WorkflowFailed?
  {
    if log != [] {
      ParseSound(log);
    }
  }

  lemma {:induction false} Glue(log: seq<Event>, head: seq<Event>, blocks: seq<Event>, tail: seq<Event>, e: Event,
                                blocks': seq<Event>, tail': seq<Event>)
    requires log == head + blocks + tail + [e] && blocks' + tail' == blocks + tail + [e]
    ensures log == head + blocks' + tail'
  {
    assert log == head + (blocks + tail + [e]);
  }

  lemma {:induction false} MalformedStays(s: Story, e: Event)
    ensures s.stage.Malformed? ==> Advance(s, e).stage.Malformed?
  {
  }

  lemma {:induction false} BlockRenders(blocks: seq<Block>, b: Block)
    ensures RenderAll(blocks + [b]) + Tail(Idle) == RenderAll(blocks) + Tail(Busy(b.schedule, b.retries)) + [b.outcome]
  {
    assert (blocks + [b])[..|blocks|] == blocks;
    assert Tail(Busy(b.schedule, b.retries)) + [b.outcome] == Render(b);
  }

  lemma {:induction false} AdvanceRenders(s: Story, e: Event)
    requires !s.stage.NotStarted? && WellFormedStory(s) && !Advance(s, e).stage.Malformed?
    ensures WellFormedStory(Advance(s, e)) && !Advance(s, e).stage.NotStarted?
    ensures RenderAll(Advance(s, e).blocks) + Tail(Advance(s, e).stage) == RenderAll(s.blocks) + Tail(s.stage) + [e]
  {
    hide RenderAll;
    if s.stage.Busy? && e.IsOutcome() {
      BlockRenders(s.blocks, Block(s.stage.schedule, s.stage.retries, e));
    } else {
      if s.stage.Busy? {
        assert [s.stage.schedule] + (s.stage.retries + [e]) == Tail(s.stage) + [e];
      } else if s.stage.Idle? {
        assert Repeat(e, 1) == Repeat(e, 0) + [e];
      }
      assert Tail(Advance(s, e).stage) == Tail(s.stage) + [e];
    }
  }

  // ---------------------------------------------------------------------------------------------
  // Every rendered story parses
  // ---------------------------------------------------------------------------------------------

  /** What a sequence of events makes of a story. */
  function AdvanceAll(s: Story, events: seq<Event>): Story {
    if events == [] then s else Advance(AdvanceAll(s, events[..|events| - 1]), events[|events| - 1])
  }

  lemma {:induction false} AdvanceConcat(s: Story, a: seq<Event>, b: seq<Event>)
    ensures AdvanceAll(s, a + b) == AdvanceAll(AdvanceAll(s, a), b)
  {
    hide Advance;
    if b == [] {
      assert a + b == a;
    } else {
      var init := b[..|b| - 1];
      assert a + b == (a + init) + [b[|b| - 1]];
      assert (a + b)[..|a + b| - 1] == a + init;
      AdvanceConcat(s, a, init);
    }
  }

  lemma {:induction false} ParseConcat(a: seq<Event>, b: seq<Event>)
    ensures Parse(a + b) == AdvanceAll(Parse(a), b)
  {
    hide Advance;
    if b == [] {
      assert a + b == a;
    } else {
      var init := b[..|b| - 1];
      assert (a + b)[..|a + b| - 1] == a + init;
      ParseConcat(a, init);
    }
  }

  lemma {:induction false} AdvanceOpen(blocks: seq<Block>, schedule: Event, retries: seq<Event>)
    requires OpenBlock(schedule, retries)
    ensures AdvanceAll(Story(blocks, Idle), [schedule] + retries) == Story(blocks, Busy(schedule, retries))
  {
    var open := [schedule] + retries;
    if retries == [] {
      assert open == [schedule] && open[..0] == [];
    } else {
      var init := retries[..|retries| - 1];
      assert open[..|open| - 1] == [schedule] + init;
      AdvanceOpen(blocks, schedule, init);
      assert init + [retries[|retries| - 1]] == retries;
    }
  }

  lemma {:induction false} AdvanceBlock(blocks: seq<Block>, b: Block)
    requires WellFormedBlock(b)
    ensures AdvanceAll(Story(blocks, Idle), Render(b)) == Story(blocks + [b], Idle)
  {
    var open := [b.schedule] + b.retries;
    AdvanceOpen(blocks, b.schedule, b.retries);
    assert Render(b)[..|open|] == open;
  }

  lemma {:induction false} AdvanceBlocks(blocks: seq<Block>)
    requires forall b :: b in blocks ==> WellFormedBlock(b)
    ensures AdvanceAll(Story([], Idle), RenderAll(blocks)) == Story(blocks, Idle)
  {
    hide Render, AdvanceAll, Advance;
    if blocks == [] {
      AdvanceNothing(Story([], Idle));
    } else {
      var init, b := blocks[..|blocks| - 1], blocks[|blocks| - 1];
      AdvanceBlocks(init);
      AdvanceConcat(Story([], Idle), RenderAll(init), Render(b));
      AdvanceBlock(init, b);
      assert init + [b] == blocks;
    }
  }

  lemma {:induction false} AdvanceNothing(s: Story)
    ensures AdvanceAll(s, []) == s
  {
  }

  lemma {:induction false} AdvanceAppend(s: Story, events: seq<Event>, e: Event)
    ensures AdvanceAll(s, events + [e]) == Advance(AdvanceAll(s, events), e)
  {
    hide Advance;
    assert (events + [e])[..|events|] == events;
  }

  lemma {:induction false} AdvanceFailures(blocks: seq<Block>, e: Event, times: nat)
    requires e.WorkflowFailed? && times >= 1
    ensures AdvanceAll(Story(blocks, Idle), Repeat(e, times)) == Story(blocks, Broken(e, times))
  {
    hide AdvanceAll;
    if times == 1 {
      AdvanceNothing(Story(blocks, Idle));
    } else {
      AdvanceFailures(blocks, e, times - 1);
    }
    AdvanceAppend(Story(blocks, Idle), Repeat(e, times - 1), e);
  }

  /** Completeness of the grammar: every well-formed story, written out after a Started event, parses
      back to itself. */
  lemma {:induction false} ParseComplete(started: Event, s: Story)
    requires started.WorkflowStarted? && WellFormedStory(s) && !s.stage.NotStarted? && !s.stage.Malformed?
    ensures Parse([started] + RenderAll(s.blocks) + Tail(s.stage)) == s
  {
    hide RenderAll;
    var body := RenderAll(s.blocks);
    assert [started][..0] == [];
    assert Parse([started]) == Story([], Idle);
    ParseConcat([started], body);
    AdvanceBlocks(s.blocks);
    ParseConcat([started] + body, Tail(s.stage));
    match s.stage
    case Busy(schedule, retries) => AdvanceOpen(s.blocks, schedule, retries);
    case Broken(e, times) => AdvanceFailures(s.blocks, e, times);
    case Finished(e) => assert Tail(s.stage)[..0] == [];
    case _ =>
  }

  // ---------------------------------------------------------------------------------------------
  // Outcomes by name and by call
  // ---------------------------------------------------------------------------------------------

  /** The outcome of each call, in call order. */
  function Outcomes(blocks: seq<Block>): (r: seq<Outcome>)
    ensures |r| == |blocks|
  {
    seq(|blocks|, i requires 0 <= i < |blocks| => OutcomeOf(blocks[i].outcome))
  }

  function CountBlocks(blocks: seq<Block>, name: string): nat {
    if blocks == [] then 0
    else
      CountBlocks(blocks[..|blocks| - 1], name)
        + if blocks[|blocks| - 1].schedule.ActivityName() == name then 1 else 0
  }

  function OutcomesIn(blocks: seq<Block>, name: string): seq<Outcome> {
    if blocks == [] then []
    else
      var b := blocks[|blocks| - 1];
      OutcomesIn(blocks[..|blocks| - 1], name)
        + if b.schedule.ActivityName() == name then [OutcomeOf(b.outcome)] else []
  }

  lemma {:induction false} AdvanceOutcomes(s: Story, e: Event, name: string)
    requires !Advance(s, e).stage.Malformed? && (s.stage.Broken? ==> s.stage.failure.WorkflowFailed?)
    ensures OutcomesIn(Advance(s, e).blocks, name)
         == OutcomesIn(s.blocks, name) + if e.IsOutcome() && e.activityFn == name then [OutcomeOf(e)] else []
  {
    if s.stage.Busy? && e.IsOutcome() {
      var b := Block(s.stage.schedule, s.stage.retries, e);
      assert (s.blocks + [b])[..|s.blocks|] == s.blocks;
    } else {
      hide OutcomesIn;
      assert Advance(s, e).blocks == s.blocks;
    }
  }

  /** What a grammatical log records for a name is what the blocks of that name produced. */
  lemma {:induction false} OutcomesOfStory(log: seq<Event>, name: string)
    requires !Parse(log).stage.Malformed?
    ensures OutcomesOf(log, name) == OutcomesIn(Parse(log).blocks, name)
  {
    hide Advance;
    if log != [] {
      var init, e := log[..|log| - 1], log[|log| - 1];
      MalformedStays(Parse(init), e);
      OutcomesOfStory(init, name);
      EndEvents(init);
      AdvanceOutcomes(Parse(init), e, name);
    }
  }

  /** The outcome of call `i` sits at the slot given by the number of earlier calls of its name. */
  lemma {:induction false} SlotOfBlock(blocks: seq<Block>, i: nat)
    requires i < |blocks|
    ensures var name := blocks[i].schedule.ActivityName();
      && CountBlocks(blocks[..i], name) < |OutcomesIn(blocks, name)|
      && OutcomesIn(blocks, name)[CountBlocks(blocks[..i], name)] == OutcomeOf(blocks[i].outcome)
  {
    var name := blocks[i].schedule.ActivityName();
    var init := blocks[..|blocks| - 1];
    if i == |init| {
      CountIsLength(init, name);
    } else {
      SlotOfBlock(init, i);
      assert init[..i] == blocks[..i];
    }
  }

  lemma {:induction false} CountIsLength(blocks: seq<Block>, name: string)
    ensures |OutcomesIn(blocks, name)| == CountBlocks(blocks, name)
  {
    if blocks != [] {
      CountIsLength(blocks[..|blocks| - 1], name);
    }
  }
}
