/** The replay state of one workflow and the contexts that share it. */
module Engine {
  import opened Api
  import opened History
  import opened Futures
  import opened Options
  import opened Workflows

  /** The recorded outcomes of one activity name, and how many calls have been matched to them. */
  class ActivityReplay {
    var history: seq<Outcome>
    var consumed: nat
    /** The name this entry is filed under, so that no two names share an entry. */
    ghost const name: string

    constructor (ghost name: string)
      ensures history == [] && consumed == 0 && this.name == name
    {
      this.name := name;
      history := [];
      consumed := 0;
    }
  }

  class WorkflowState {
    var id: string
    var workflowFunctionName: string
    var activities: map<string, ActivityReplay>
    var uncommitted: seq<Event>

    /** The objects in `activities`. */
    ghost var entries: set<ActivityReplay>

    /** Every event applied so far: the loaded log and the events recorded since. */
    ghost var applied: seq<Event>

    /** Each name has its own entry, and each history is what the applied events say. */
    ghost predicate HistoriesMatch()
      reads `activities, `applied, `entries, entries
    {
      && (forall n :: n in activities ==>
            activities[n] in entries && activities[n].name == n && activities[n].history == OutcomesOf(applied, n))
      && (forall n :: n !in activities ==> OutcomesOf(applied, n) == [])
    }

    ghost predicate Valid()
      reads this, entries
    {
      (id, workflowFunctionName) == IdentityOf(applied) && HistoriesMatch()
    }

    /** How many calls of `name` this run has made. */
    ghost function Consumed(name: string): nat
      reads `activities, `entries, entries
    {
      if name in activities && activities[name] in entries then activities[name].consumed else 0
    }

    constructor ()
      ensures Valid() && applied == [] && uncommitted == []
      ensures forall n :: Consumed(n) == 0
      ensures fresh(entries)
    {
      id, workflowFunctionName := "", "";
      activities, uncommitted := map[], [];
      applied, entries := [], {};
    }

    method EnsureActivityReplay(name: string) returns (entry: ActivityReplay)
      requires HistoriesMatch()
      modifies `activities, `entries
      ensures HistoriesMatch() && name in activities && entry == activities[name]
      ensures forall n :: Consumed(n) == old(Consumed(n))
      ensures fresh(entries - old(entries))
    {
      if name in activities {
        return activities[name];
      }
      entry := new ActivityReplay(name);
      activities := activities[name := entry];
      entries := entries + {entry};
    }

    /** Folds one event into the replay state. Only the two outcome events touch a history. */
    method Apply(e: Event)
      requires Valid()
      modifies this, entries
      ensures Valid() && applied == old(applied) + [e] && uncommitted == old(uncommitted)
      ensures forall n :: Consumed(n) == old(Consumed(n))
      ensures fresh(entries - old(entries))
    {
      hide OutcomesOf, HistoriesMatch, Consumed;
      match e {
        case ActivityCompleted(_, _, name, result) =>
          Remember(name, Completed(result), e);
        case ActivityFailed(_, _, name, error) =>
          Remember(name, Failed(error), e);
        case _ =>
          Skip(e);
      }
      id, workflowFunctionName := e.id, e.workflowFn;
    }

    ghost method Skip(e: Event)
      requires HistoriesMatch() && !e.IsOutcome()
      modifies `applied
      ensures HistoriesMatch() && applied == old(applied) + [e]
    {
      OutcomesUnchanged(applied, e);
      applied := applied + [e];
    }

    method Remember(name: string, outcome: Outcome, ghost e: Event)
      requires HistoriesMatch()
      requires e.IsOutcome() && e.activityFn == name && OutcomeOf(e) == outcome
      modifies `activities, `entries, `applied, entries
      ensures HistoriesMatch() && applied == old(applied) + [e]
      ensures forall n :: Consumed(n) == old(Consumed(n))
      ensures fresh(entries - old(entries))
    {
      var entry := EnsureActivityReplay(name);
      AppendHistory(entry, outcome, e);
    }

    method AppendHistory(entry: ActivityReplay, outcome: Outcome, ghost e: Event)
      requires HistoriesMatch()
      requires e.IsOutcome() && e.activityFn in activities && entry == activities[e.activityFn]
      requires OutcomeOf(e) == outcome
      modifies `applied, entry`history
      ensures HistoriesMatch() && applied == old(applied) + [e]
      ensures forall n :: Consumed(n) == old(Consumed(n))
    {
      hide OutcomesOf, OutcomeOf;
      OutcomesAfter(applied, e);
      entry.history := entry.history + [outcome];
      applied := applied + [e];
    }

    /** Moves the cursor of `name` on by one and reports what it pointed at. */
    method Consume(name: string) returns (slot: Future)
      requires HistoriesMatch()
      modifies `activities, `entries, entries
      ensures HistoriesMatch()
      ensures forall n :: Consumed(n) == old(Consumed(n)) + if n == name then 1 else 0
      ensures slot == Slot(OutcomesOf(applied, name), old(Consumed(name)))
      ensures IsRecorded(applied, name, old(Consumed(name)), slot)
      ensures fresh(entries - old(entries))
    {
      var entry := EnsureActivityReplay(name);
      slot := if entry.consumed < |entry.history| then Resolved(entry.history[entry.consumed]) else Pending;
      entry.consumed := entry.consumed + 1;
      SlotIsRecorded(applied, name, old(Consumed(name)));
    }

    /** Applies a new event and keeps it for the next save. */
    method RecordThat(e: Event)
      requires Valid()
      modifies this, entries
      ensures Valid() && applied == old(applied) + [e] && uncommitted == old(uncommitted) + [e]
      ensures forall n :: Consumed(n) == old(Consumed(n))
      ensures fresh(entries - old(entries))
    {
      hide OutcomesOf, HistoriesMatch, Consumed;
      Apply(e);
      uncommitted := uncommitted + [e];
    }
  }

  datatype ExecuteResult = Issued(future: Future) | WrongOptions

  /** A workflow context: its own values over a state shared with every context derived from it. */
  class WorkflowContext {
    const state: WorkflowState
    const values: Context

    constructor (state: WorkflowState, values: Context)
      ensures this.state == state && this.values == values
    {
      this.state := state;
      this.values := values;
    }

    /** Derives a context with one more value; the replay state is the same object. */
    method WithValue(key: string, value: ContextValue) returns (c: WorkflowContext)
      ensures fresh(c) && c.state == state && c.values == values[key := value]
    {
      c := new WorkflowContext(state, values[key := value]);
    }

    /** The `k`-th call of a name reads the `k`-th recorded outcome of that name. Only a call
        without one is scheduled. */
    method ExecuteActivity(name: string, args: seq<Value>, nowUnix: int) returns (r: ExecuteResult)
      requires state.Valid()
      modifies state, state.entries
      ensures state.Valid() && fresh(state.entries - old(state.entries))
      ensures forall n :: state.Consumed(n) == old(state.Consumed(n)) + if n == name then 1 else 0
      ensures var slot := Slot(OutcomesOf(old(state.applied), name), old(state.Consumed(name)));
        && IsRecorded(old(state.applied), name, old(state.Consumed(name)), slot)
        && (slot.Resolved? || IllTyped(values) ==>
              state.applied == old(state.applied) && state.uncommitted == old(state.uncommitted))
        && (slot.Resolved? ==> r == Issued(slot))
        && (slot.Pending? && IllTyped(values) ==> r == WrongOptions)
        && (slot.Pending? && !IllTyped(values) ==>
              var e := ScheduledEvent(IdentityOf(old(state.applied)).0, IdentityOf(old(state.applied)).1,
                                      name, args, OptionsOf(values), nowUnix);
              && r == Issued(Pending)
              && state.applied == old(state.applied) + [e]
              && state.uncommitted == old(state.uncommitted) + [e])
    {
      var slot := state.Consume(name);
      if slot.Resolved? {
        return Issued(slot);
      }
      if IllTyped(values) {
        return WrongOptions;
      }
      state.RecordThat(ScheduledEvent(state.id, state.workflowFunctionName, name, args, OptionsOf(values), nowUnix));
      r := Issued(Pending);
    }
  }
}
