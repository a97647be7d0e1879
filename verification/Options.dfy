/** The options a workflow author attaches to a context, and their conversion to the wire form. */
module Options {
  import opened Api

  /** A Go `time.Duration`, in nanoseconds. */
  type Duration = int

  const MILLISECOND: Duration := 1_000_000
  const SECOND: Duration := 1_000_000_000

  /** `Duration.Milliseconds` truncates toward zero. */
  function Milliseconds(d: Duration): int {
    Quotient(d, MILLISECOND)
  }

  datatype RetryOptions = RetryOptions(
    initialInterval: Duration,
    backoffCoefficient: real,
    maximumInterval: Duration,
    maximumAttempts: int,
    nonRetryableErrors: seq<string>)

  datatype ActivityOptions = ActivityOptions(
    scheduleToClose: Duration,
    startToClose: Duration,
    policy: Option<RetryOptions>)

  function ConvertRetryPolicy(p: Option<RetryOptions>): Option<RetryPolicy> {
    match p
    case None => None
    case Some(o) =>
      Some(RetryPolicy(Milliseconds(o.initialInterval), o.backoffCoefficient,
                       Milliseconds(o.maximumInterval), o.maximumAttempts, o.nonRetryableErrors))
  }

  /** The event a fresh call records. The schedule-to-close field adds the clock in seconds to the
      timeout in milliseconds, as the code does. */
  function ScheduledEvent(id: string, workflowFn: string, activityFn: string, args: seq<Value>,
                          options: Option<ActivityOptions>, nowUnix: int): Event
  {
    match options
    case None => ActivityScheduled(id, workflowFn, activityFn, args, 0, 0, None)
    case Some(o) =>
      ActivityScheduled(id, workflowFn, activityFn, args,
        if o.scheduleToClose > 0 then WrapInt64(nowUnix + Milliseconds(o.scheduleToClose)) else 0,
        if o.startToClose > 0 then Milliseconds(o.startToClose) else 0,
        ConvertRetryPolicy(o.policy))
  }
}
