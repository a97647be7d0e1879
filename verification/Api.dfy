/** The wire types shared by the server and the workers: values, retry policies, history events,
    tasks and the key under which a workflow's input is stored. */
module Api {

  datatype Option<+T> = None | Some(value: T)

  /** A decoded argument or result. Serialisation is not modelled: a value that crosses the log
      comes back as itself. */
  datatype Value = Nil | Number(n: int) | Text(text: string) | Record(fields: seq<Value>)

  datatype RetryPolicy = RetryPolicy(
    initialIntervalMs: int,
    backoffCoefficient: real,
    maximumIntervalMs: int,
    maximumAttempts: int,
    nonRetryableErrors: seq<string>)

  /** History events. Every event carries the workflow's ID and function name. */
  datatype Event =
    | WorkflowStarted(id: string, workflowFn: string, input: seq<Value>)
    | ActivityScheduled(id: string, workflowFn: string, activityFn: string, input: seq<Value>,
                        scheduleToClose: int, startToClose: int, policy: Option<RetryPolicy>)
    | ActivityStarted(id: string, workflowFn: string, activityFn: string)
    | ActivityCompleted(id: string, workflowFn: string, activityFn: string, result: seq<Value>)
    | ActivityFailed(id: string, workflowFn: string, activityFn: string, error: string)
    | ActivityRetried(id: string, workflowFn: string, activityFn: string, attempt: int,
                      error: string, nextRetryDelay: int)
    | WorkflowFailed(id: string, workflowFn: string, error: string)
    | WorkflowCompleted(id: string, workflowFn: string, result: seq<Value>)
  {
    predicate IsTerminal() { WorkflowFailed? || WorkflowCompleted? }

    /** The final outcome of one activity call, as opposed to a retried attempt. */
    predicate IsOutcome() { ActivityCompleted? || ActivityFailed? }

    /** The activity an event is about; empty for workflow events. */
    function ActivityName(): string {
      if WorkflowStarted? || IsTerminal() then "" else activityFn
    }

    /** The events that make the server create a workflow task. */
    predicate WakesWorkflow() { WorkflowStarted? || IsOutcome() }
  }

  datatype WorkflowTask = WorkflowTask(id: string, workflowFn: string, input: seq<Value>)

  datatype ActivityTask = ActivityTask(
    workflowFn: string,
    id: string,
    activityFn: string,
    input: seq<Value>,
    attempt: int,
    scheduleToClose: int,
    startToClose: int,
    policy: Option<RetryPolicy>,
    scheduledAtMs: int)

  /** What one activity call finally produced: its return values or its error text. */
  datatype Outcome = Completed(result: seq<Value>) | Failed(error: string)

  function WorkflowInputKey(workflowFn: string, id: string): string {
    workflowFn + "/" + id
  }

  /** Keys collide only if an ID contains a slash; workflow function names always do. */
  lemma {:induction false} InputKeyInjective(fn1: string, id1: string, fn2: string, id2: string)
    requires '/' !in id1 && '/' !in id2
    requires WorkflowInputKey(fn1, id1) == WorkflowInputKey(fn2, id2)
    ensures fn1 == fn2 && id1 == id2
  {
    var k1, k2 := WorkflowInputKey(fn1, id1), WorkflowInputKey(fn2, id2);
    assert forall j :: |fn1| < j < |k1| ==> k1[j] == id1[j - |fn1| - 1];
    assert forall j :: |fn2| < j < |k2| ==> k2[j] == id2[j - |fn2| - 1];
    assert k1[|fn1|] == '/' && k2[|fn2|] == '/';
    assert |fn1| == |fn2|;
    assert fn1 == k1[..|fn1|] && fn2 == k2[..|fn2|];
    assert id1 == k1[|fn1| + 1..] && id2 == k2[|fn2| + 1..];
  }

  /** Every ID with a slash shares its key with another run. */
  lemma {:induction false} InputKeyCollision(fn: string, id: string) returns (fn': string, id': string)
    requires '/' in id
    ensures (fn', id') != (fn, id) && WorkflowInputKey(fn', id') == WorkflowInputKey(fn, id)
  {
    var i :| 0 <= i < |id| && id[i] == '/';
    fn', id' := fn + "/" + id[..i], id[i + 1..];
    assert id == id[..i] + "/" + id[i + 1..];
    assert fn' + "/" + id' == fn + "/" + id;
  }

  /** Go's int32 and int64 addition wrap around. */
  function WrapInt32(x: int): (r: int)
    ensures -0x8000_0000 <= r < 0x8000_0000
    ensures -0x8000_0000 <= x < 0x8000_0000 ==> r == x
  {
    (x + 0x8000_0000) % 0x1_0000_0000 - 0x8000_0000
  }

  const TWO_TO_63: int := 0x8000_0000_0000_0000

  function WrapInt64(x: int): (r: int)
    ensures -TWO_TO_63 <= r < TWO_TO_63
    ensures -TWO_TO_63 <= x < TWO_TO_63 ==> r == x
  {
    (x + TWO_TO_63) % (2 * TWO_TO_63) - TWO_TO_63
  }

  /** Go's integer division truncates toward zero. */
  function Quotient(x: int, y: int): (r: int)
    requires y > 0
    ensures x >= 0 ==> r * y <= x < (r + 1) * y
    ensures x <= 0 ==> (r - 1) * y < x <= r * y
  {
    if x >= 0 then x / y else -((-x) / y)
  }
}
