# DurableFuture: a verified model of the durable-execution engine

DurableFuture runs workflows on top of an event log. A worker that picks up a workflow task loads the
log, re-runs the workflow code from scratch, answers every activity call whose outcome is already
recorded, schedules the others, and stops at the first `Get` it cannot answer. Projectors on the
server turn log events into tasks, sleeping retries and result entries. The promise is that being
re-run from the log is as good as never having crashed.

This project models that machinery and proves what the promise amounts to.

| file | contents |
|---|---|
| `Api.dfy`, `History.dfy`, `Futures.dfy`, `Options.dfy` | events, tasks, policies; questions one asks of a log; `Future.Get`; activity options |
| `Workflows.dfy`, `Runs.dfy` | workflow code as an arbitrary deterministic program, one run of it by stepping, the replay theorems, and what a run is without stepping |
| `Engine.dfy`, `Worker.dfy` | the shared replay state and contexts as classes, and the worker's task handlers, proved to compute those runs |
| `Retry.dfy`, `Budget.dfy` | the retry decision, the backoff and its truncations, and the total time a call can be held back |
| `Projection.dfy` | the start command, the four projectors, the retry timer and its search of the history |
| `Sequential.dfy`, `Story.dfy`, `Attempts.dfy`, `DirectExecution.dfy` | workflows that await each call at once, the grammar of their logs, the attempts behind a call, and replay as direct execution |
| `Delivery.dfy`, `Tokens.dfy`, `Guarantees.dfy`, `Progress.dfy` | one workflow under exact delivery: the protocol, its single token, the end-to-end theorems, termination |
| `Example.dfy` | a two-call workflow that meets all their hypotheses |
| `Agreement.dfy`, `OptionsCrash.dfy` | many workflows under duplicated, lost, late and stale delivery, and the one way their ends can disagree |
| `DemoView.dfy` | the demo's per-step view, and its agreement with the log |

## How to read the model

* A workflow is a function from everything it has observed to its next action: derive a context,
  call an activity through one of its contexts, await a future, return, or panic. It may loop,
  schedule in parallel and await in any order. `RunN(p, answers, n)` is the run after `n` steps,
  where `answers` is either a log, matched by activity name and position as the code does, or a
  direct execution in which call `i` simply produced outcome `i`.
* Go objects that are updated in place are classes (`WorkflowState`, `ActivityReplay`,
  `WorkflowContext`, `Server`, the demo's `WorkflowState` and `DemoHandler`). Their methods are tied
  to functions of the log, and the theorems are about those functions.
* `Delivery` assumes that each event is projected once and in order and that a task is delivered
  again only after a NAK. A crash between acknowledgement and save is a step that loses the
  task; an attempt may have been made for it. An attempt whose input does not fit the activity's
  parameters fails without calling the activity's body, so attempts and bodies are counted apart. A
  task of an unregistered activity is sent back for ever, and a failed workflow task is both NAKed
  and saved, so it is delivered for ever and repeats its failure.
* `Agreement` assumes none of that: any projection may be repeated or skipped, any task may be run
  again or never, a worker may have read any non-empty prefix of the log, and what it records is
  appended to whatever the log has become. No optimistic version check is relied on.
* Integers that can wrap in Go (`int32` attempts, `int64` durations) wrap in the model. Floating point
  is exact real arithmetic. A float that does not fit an `int64` converts to an arbitrary value, the
  parameter `outOfRange`.
* Hypotheses on workflow code (that it awaits each call at once, uses activity options safely,
  limits its retries, calls only registered activities) are about the runs it can have, not about
  observations that no run makes.
* Clocks are parameters: `clock(i)` is what call `i` reads, `nowMs` what a worker or projector reads.

## Where the code falls short of what one might expect

* Schedules are not replayed, so a workflow that runs calls in parallel schedules a pending call
  again each time it is woken (`Sequential.ParallelScheduledTwice`). The exact number is
  `Sequential.ScheduleCount`, and `Sequential.ScheduledOnceIff` says when nothing is scheduled again.
  README.md:199 of the repository says only activities not yet completed are executed again, which
  is true, but so are those still running.
* A panic for wrongly typed activity options (neither nil nor options) is raised only for a call that
  has no recorded outcome. It is the one end of a workflow that a longer log can undo
  (`Workflows.FinalUnlessBadOptions`, `Workflows.FinalIffSafe`, `OptionsCrash.DisagreementReached`),
  and the one exception in `Agreement.TerminalAgreement`.
* The schedule-to-close field is the clock in seconds plus the timeout in milliseconds, and is then
  compared with a duration (`Budget.DecisionAsConfigured`, `Budget.TimeoutDecidesIff`).
* A retry is rebuilt from the first schedule of its activity name, and only if that lies among the
  first hundred events (`Projection.LookupSucceedsIff`, `Projection.RetryRebuildsIff`,
  `Projection.RetryTakesFirstInput`).
* A workflow that failed for any other reason never gets a result entry
  (`Guarantees.FailureEndToEnd`, `Agreement.FailedNeverHasResult`), so a client that waits for one is
  not told.
* The history tables in the repository's README list `activity started` events, which the code never
  emits, and show a failed attempt that is tried again as `activity failed`. The code records such an
  attempt as `activity retried`; `activity failed` is the last attempt of a call that failed.
* Workflow tasks of an ID with a dot would be published where no worker listens
  (`Projection.WorkflowTasksReceivedIff`); the IDs the server makes have none.
* A coefficient between 0 and 1, which the documentation rules out, is accepted and makes the backoff
  shrink (`Retry.BackoffShrinks`).
* A worker that dies after it has made an attempt and acknowledged the task leaves an attempt that no
  event testifies to (`Guarantees.AttemptsAreRecorded`, `Guarantees.BodiesRunAreRecorded`), and under
  exact delivery the workflow never moves again (`Guarantees.GoneStays`).
* The demo view shows too few attempts for an activity exactly if, after its second schedule, it is
  retried, or completes when it has ever been retried (`DemoView.AttemptsExactIff`). A completed row
  keeps the error text of an earlier failed call of the same name (`DemoView.RowOfLog`).

## Model

| member | source | states |
|---|---|---|
| Api.InputKeyInjective | api/workflow_input.go:5-12 | for IDs without a slash the input key determines both the function name and the ID |
| Api.InputKeyCollision | api/workflow_input.go:10-12 | every run whose ID has a slash shares its key with another run |
| Api.Quotient | sdk/internal/activity_options.go:101-103 | integer division that truncates toward zero, for both signs |
| History.FirstSchedule | internal/server/projection/activity_retries.go:157-170 | the least index at which a name is scheduled, and none exactly if it never is |
| History.OutcomesAreEvents | sdk/internal/events.go:41-54 | the history of a name holds, at each place, the result or error of the completion or final failure event that this many others of the name precede, and nothing else |
| Futures.Get | sdk/internal/future_blocking.go:26-75 | `Get` suspends exactly on a pending future, fails with the recorded error of a failed activity, gives a value exactly for a recorded pair of that non-nil value and a nil error, and reports a wrong count, a non-empty error text and any other error value each as its own error |
| Workflows.ReplayAnswers | sdk/internal/context.go:58-81 | replay answers call `k` of a name with the result or error of outcome event number `k` of that name, and leaves it pending exactly if there are no more than `k` |
| Workflows.RecordedOnce | sdk/internal/context.go:58-81 | that determines the answer: no other future is what the log records for the call |
| Workflows.OptionsOf | sdk/internal/activity_options.go:83-94 | a context has exactly the options bound under the options key, and none if the key is unbound or bound to nil |
| Runs.RunIsRun | sdk/internal/context.go:51-130 | in every run a derived context has one more binding than its parent, a call has the code's own context, name and arguments, an await is told what `Get` makes of that call's answer, and the run stops only for the reason the code's next action gives |
| Runs.RunIffStepped | sdk/internal/worker_runtime.go:406-442 | a run is what stepping the code gives if and only if it fits that description |
| Runs.AwaitTells | sdk/internal/future_blocking.go:26-75 | awaiting a failed call tells the code its recorded error, awaiting a completed one its value |
| Workflows.PrefixStability | sdk/internal/context.go:58-111 | for every program, a run that ends on some answers ends identically whenever more are available; a run that waits has made exactly the first actions of the longer run |
| Workflows.ReplayEqualsResume | sdk/internal/context.go:58-110 | running from scratch on the longer log equals resuming the suspended run where it stopped, state, trace and result |
| Workflows.ResumesIffAwaitedArrives | sdk/internal/future_blocking.go:26-32 | the re-run stops at the same await if and only if the awaited outcome is still missing |
| Workflows.InterleavingIndependence | sdk/internal/events.go:30-71 | logs with the same outcomes per name, in the same per-name order, give the same run |
| Workflows.StopsOnce | sdk/internal/worker_runtime.go:401-472 | a program ends in only one way on a given log |
| Workflows.AgreementOnAsked | sdk/internal/context.go:61-84 | however it ends, a run depends on its answers only through the calls it made and the one it crashed on |
| Workflows.FinalUnlessBadOptions | sdk/internal/activity_options.go:83-94 | a finished run ends the same way on every longer log if and only if it did not crash on wrongly typed options |
| Workflows.FinalIffSafe | sdk/internal/activity_options.go:83-94 | all ends some code reaches, on all logs, are final on every longer log, if and only if on no log does it make an unanswered call through a context whose options are neither nil nor options |
| Workflows.WellTypedNeverBadOptions | sdk/internal/activity_options.go:83-94 | code none of whose runs binds the options key to anything but options or nil never crashes on it, through any derived context |
| Engine.WorkflowState.EnsureActivityReplay | sdk/internal/activity_replay.go:13-23 | an entry is found or created without changing any history or cursor |
| Engine.WorkflowState.Apply | sdk/internal/events.go:30-71 | after each event every name's history is exactly the outcomes the events so far record for it, the identity is the last event's, and no cursor moves |
| Engine.WorkflowState.RecordThat | sdk/internal/events.go:26-28 | a recorded event is both applied and kept for the save |
| Engine.WorkflowState.Consume | sdk/internal/context.go:58-81 | the cursor of one name advances by one, whichever branch is taken, and what the log records for the call at the cursor is reported |
| Engine.WorkflowContext.WithValue | sdk/internal/context.go:120-130 | a derived context shares the replay state and adds one value |
| Engine.WorkflowContext.ExecuteActivity | sdk/internal/context.go:51-111 | call `k` of a name is answered by the result or error of outcome event number `k` of that name; without one a schedule is recorded, unless the options have the wrong type |
| Worker.Perform | sdk/internal/context.go:51-111 | a call made on a live context, at any point of a run and through any derived context, is the next call of the abstract run |
| Worker.ExecuteBody | sdk/internal/worker_runtime.go:406-442 | running the code against the mutable replay state ends as the abstract run does and records exactly the schedules of its unanswered calls |
| Worker.TaskRunsRegisteredCode | sdk/internal/worker_runtime.go:419-472 | a task fails with the lookup error of an unregistered function or the conversion error of its input, and otherwise records the schedules and the end of a run of the registered function on the task's input |
| Worker.PanicText | sdk/internal/worker_runtime.go:414-415 | the text a panic is reported with |
| Worker.ProcessWorkflowTask | sdk/internal/worker_runtime.go:401-472 | the recorded events and the error result are those of the abstract task, for unknown functions, unconvertible input, suspension, panic and return |
| Worker.Load | sdk/internal/worker_runtime.go:212-222 | loading a log applies exactly its events, with all cursors at zero |
| Worker.HandleWorkflowTask | sdk/internal/worker_runtime.go:210-237 | one task from read to save: NAK exactly on error, events saved in either case, and lost if the worker dies between acknowledgement and save |
| Worker.ProcessActivityTask | sdk/internal/worker_runtime.go:280-330 | one event per attempt, completed, retried or failed, and none for an unregistered activity; the body is called exactly if the activity is registered and the input fits |
| Worker.HandleActivityTask | sdk/internal/worker_runtime.go:239-266 | one activity task from read to save, with the same order of acknowledgement and save; the body has been called even if the save is lost |
| Worker.AttemptOutcome | sdk/internal/worker_runtime.go:474-493 | an attempt has the outcome the body returns if the input fits, and fails otherwise |
| Sequential.ScheduleCount | sdk/internal/context.go:58-110 | a run of any program records, for each name, exactly max(0, calls minus recorded outcomes) schedules |
| Sequential.ScheduledOnceIff | sdk/internal/events.go:35-37 | after a run that reaches at least as many calls of a name as there are outcomes, the log holds one schedule per call if and only if every earlier schedule of the name had its outcome; a shorter run schedules none |
| Sequential.ParallelScheduledTwice | sdk/internal/events.go:35-37 | a parallel workflow schedules a running activity a second time |
| Sequential.SequentialFresh | sdk/internal/context.go:80-110 | a workflow that awaits each call at once records one schedule if it suspends and none if it ends |
| Retry.BackoffMonotone | sdk/internal/worker_runtime.go:390-393 | the uncapped backoff never shrinks with the attempt |
| Retry.BackoffIsExponential | sdk/internal/worker_runtime.go:380-393 | any positive coefficient is used as it is, also one below 1, and every other becomes 2 |
| Retry.BackoffShrinks | sdk/internal/worker_runtime.go:380-393 | with a coefficient below 1, which the documentation rules out and the code accepts, the backoff shrinks from attempt to attempt |
| Retry.DelayBoundedIffInRange | sdk/internal/worker_runtime.go:367-399 | the delay lies between the smaller of initial interval and cap, and the cap, on every platform, if and only if the product fits an int64 |
| Retry.DelayMonotone | sdk/internal/worker_runtime.go:390-396 | in range, the delay never shrinks and stays at the cap once it has reached it |
| Retry.DefaultPolicyShape | sdk/internal/worker_runtime.go:375-396 | for the default policy the product fits exactly up to attempt 34 and the cap binds exactly from attempt 8 |
| Retry.ConversionError | sdk/internal/activity_options.go:96-107 | the conversion to milliseconds and back loses less than a millisecond of each interval |
| Retry.BackoffError | sdk/internal/worker_runtime.go:367-399 | through all four truncations the time slept never exceeds the ideal delay and falls short of it by less than coefficient^(attempt-1) + 1 ms |
| Budget.PayloadOfChain | internal/server/projection/activity_retries.go:172-182 | every attempt of a chain carries its schedule's payload, timed by the projector or by the stream |
| Budget.AttemptOfChain | internal/server/projection/activity_retries.go:77 | the task published after `j` retried failures carries attempt number `j + 1`, counted in int32, and every retry is timed by the stream |
| Budget.DecisionAsConfigured | sdk/internal/worker_runtime.go:333-364 | for any options and after any number of failures, the next one is retried if and only if there is a policy whose limit is not reached and which does not list the error, and elapsed time plus delay do not exceed a positive field of clock seconds plus timeout milliseconds |
| Budget.BackoffBudget | sdk/internal/worker_runtime.go:353-361 | the delays recorded in the retried events of one call together never exceed its positive schedule-to-close field |
| Budget.SleepError | sdk/internal/worker_runtime.go:297-304 | the time the projector sleeps for a retried event never exceeds the delay the author's options ask for, and falls short of it by less than coefficient^(attempt-1) + 1 ms |
| Budget.StartToCloseAsWritten | sdk/internal/context.go:97-99 | the start-to-close field is the author's timeout in whole milliseconds |
| Budget.TimeoutDecidesIff | sdk/internal/context.go:94-96 | the author's timeout decides at every moment, after any number of failures, if and only if the clock read zero and the timeout is at least a millisecond, or the options rule the retry out anyway |
| Projection.SplitThenJoin | internal/server/projection/activity_retries.go:87 | the parts contain no dot and join to the original |
| Projection.RoutingAgreement | internal/server/projection/activity_tasks.go:68 | for every ID the subject of first attempts and the subject of retries are built from the same token |
| Projection.RoutesToOwnToken | internal/server/projection/activity_retries.go:87 | that token is the whole ID if and only if the ID has no dot |
| Projection.ActivityTasksReceived | api/constant.go:27 | for every ID activity tasks are published on a subject that matches the activity workers' filter and carries the first part of the ID |
| Projection.WorkflowTasksReceivedIff | api/constant.go:26 | workflow tasks are published where workflow workers listen if and only if the ID has no dot |
| Projection.Server.HandleStart | internal/server/handler/command/handler.go:114-139 | the input is stored before the Started event is published, and the event appears only if both succeed |
| Projection.Server.OnWorkflowTasks | internal/server/projection/workflow_tasks.go:30-126 | exactly Started and outcome events publish one task, with the started or stored input; a missing entry terminates the event |
| Projection.Server.OnActivityTasks | internal/server/projection/activity_tasks.go:31-93 | exactly Scheduled events publish one first attempt, on the subject of the ID's first part |
| Projection.Server.OnActivityRetries | internal/server/projection/activity_retries.go:46-114 | a Retried event becomes a sleeping retry and is acknowledged at once |
| Projection.Server.OnRetryTimer | internal/server/projection/activity_retries.go:61-108 | a retry that wakes up is gone; it publishes the rebuilt task exactly if the search found a schedule and the publish succeeded |
| Projection.Server.OnWorkflowResults | internal/server/projection/workflow_results.go:26-46 | only completions write the result entry, and the last one wins |
| Projection.FetchActivityTask | internal/server/projection/activity_retries.go:146-182 | the loop returns the task of the least-index matching schedule in the fetched batch, passing over undecodable messages, or none if there is none |
| Projection.FetchMeetsSpecification | internal/server/projection/activity_retries.go:157-170 | a message is the loop's first match if and only if it is the first schedule of the name in the window of the log |
| Projection.LookupSucceedsIff | internal/server/projection/activity_retries.go:146-170 | a retry task is rebuilt if and only if its name is scheduled among the first hundred events |
| Projection.RetryRebuildsIff | internal/server/projection/activity_retries.go:172-182 | it equals its own schedule's first task up to attempt and time if and only if the name's first schedule carries the same payload |
| Projection.RetryTakesFirstInput | internal/server/projection/activity_retries.go:157-165 | a second call with other arguments is retried with the first call's arguments |
| Story.ParseSound | internal/server/projection/activity_retries.go:46-113 | a log that parses is literally Started, then Scheduled Retried* Outcome per call and all of one name, then the open call or the end |
| Story.ParseComplete | internal/server/projection/activity_retries.go:46-113 | every well-formed story, written out in that form, parses back to itself |
| Story.OutcomesOfStory | sdk/internal/events.go:41-54 | in such a log the outcomes recorded for a name are those of its blocks, in order |
| Story.SlotOfBlock | sdk/internal/context.go:61-63 | the outcome of a block sits at the slot given by the number of earlier calls of its name |
| Attempts.AppendRetry | sdk/internal/worker_runtime.go:292-308 | a retried event that the policy allowed extends the open call and accounts for one more attempt |
| Attempts.AppendOutcome | sdk/internal/worker_runtime.go:313-329 | an outcome closes the open call and accounts for its last attempt |
| Attempts.AttemptsBounded | sdk/internal/worker_runtime.go:342-345 | with an own positive limit `M`, attempts are 1, 2, 3 and so on without int32 wrap-around, at most `M` of them |
| DirectExecution.CallOfBlock | sdk/internal/context.go:83-103 | block `i` of the log schedules call `i` of the direct execution, with its arguments and the options bound in its context |
| DirectExecution.ReplayIsDirect | sdk/internal/context.go:58-110 | on a grammatical log, replay by name and position is step for step the direct execution on the blocks' outcomes |
| DirectExecution.TaskFollowsDirect | sdk/internal/worker_runtime.go:444-471 | a task appends the schedule of the call the direct execution makes next, or no schedule if that execution ends |
| Delivery.StartLogOk | internal/server/handler/command/handler.go:123-133 | the log of a just started workflow parses and testifies to no attempt |
| Tokens.WakeMakesTask | internal/server/projection/workflow_tasks.go:50-79 | every wake-up event makes the one task of the workflow, with its started input |
| Tokens.CurrentTask | internal/server/projection/activity_retries.go:77 | the task of the open call carries the next attempt number and the payload of that attempt |
| Tokens.RetriedIsAllowed | sdk/internal/worker_runtime.go:333-364 | an attempt that is retried was below its limit and did not fail with a non-retryable error |
| Tokens.AttemptAppends | sdk/internal/worker_runtime.go:280-330 | one attempt appends one event, which extends or closes the open call and accounts for exactly that attempt |
| Tokens.TimerTask | internal/server/projection/activity_retries.go:64-77 | a retry task that is found is the one the open call needs |
| Tokens.TaskAppends | sdk/internal/worker_runtime.go:401-472 | one workflow task appends exactly one event: the next schedule, the completion, or the failure |
| Tokens.BrokenEndsAlike | sdk/internal/worker_runtime.go:225-236 | a failed workflow that is delivered again fails in exactly the same way |
| Tokens.StepKeeps | sdk/internal/worker_runtime.go:206-275 | every protocol step keeps the invariant, which accounts for every attempt made, and only a loss or completion removes the token |
| Tokens.TokenConservation | sdk/internal/worker_runtime.go:206-275 | in every reachable state there is at most one token; exactly one before completion if nothing was lost; none after |
| Guarantees.HistoryGrammar | sdk/internal/worker_runtime.go:206-275 | the log of every reachable state is Started, blocks, open call or end, all of the workflow's identity |
| Guarantees.AttemptsAreRecorded | sdk/internal/worker_runtime.go:253-265 | the attempts made are, in order, exactly those the log testifies to, if and only if no worker died between an attempt and its save; otherwise the last one is the only one unrecorded |
| Guarantees.BodiesRunAreRecorded | sdk/internal/worker_runtime.go:474-493 | the activity bodies that ran are, in order, the recorded attempts whose input fitted, if and only if no worker died between a body and its save; at most one body is ever unrecorded, and every other attempt failed with the reason its input did not fit |
| Guarantees.GoneStays | sdk/internal/worker_runtime.go:253-265 | once the token is gone no step changes the log, makes an attempt or runs a body |
| Guarantees.AttemptChain | sdk/internal/worker_runtime.go:292-345 | the attempts made at a call are numbered 1 to k in one stretch of the history of attempts, k is at most the policy's limit even if a worker died after the last, each retried event carries the attempt that failed, and the bodies that ran for the call are those of its attempts whose input fitted |
| Guarantees.OneCallPerBlock | sdk/internal/context.go:85-103 | a direct execution that ends has made exactly one call per block, with the scheduled name, arguments and options |
| Guarantees.EndToEnd | README.md:166-166 | a completed workflow has the result of one direct execution of its registered code on its started input; the attempts made are, call by call, the attempts at that execution's calls, each call answered, then and on replay, by the outcome of its own last attempt, and bodies ran for exactly those whose input fitted; the result entry holds the result and nothing else, from when the result projector has read the log |
| Guarantees.FinalAttempt | internal/server/projection/activity_retries.go:157-175 | the last attempt of a call produced its outcome, and ran with the call's own arguments if and only if the call was never retried or its name's first call had the same arguments |
| Guarantees.FailureEndToEnd | sdk/internal/worker_runtime.go:419-463 | a failed workflow reports only that its function is not registered, that its input does not convert, or the panic that a direct execution of the registered code on the started input ends with, however often it is redelivered, and has no result entry |
| Progress.RetriesLimited | sdk/internal/worker_runtime.go:342-345 | the retries of a call stay below the larger of its own limit and that of its name's first schedule |
| Progress.Descends | sdk/internal/worker_runtime.go:206-275 | every step that loses nothing lowers a lexicographic measure, whatever the scheduler does |
| Progress.Terminates | sdk/internal/worker_runtime.go:206-275 | with limited retries, registered activities and a well-founded program, every run that keeps going reaches its terminal event |
| Progress.UnregisteredStalls | sdk/internal/worker_runtime.go:281-285 | in every run, from the moment a task of an unregistered activity is queued and as long as it is not lost, the log never changes |
| Progress.NeverStuck | internal/server/projection/activity_retries.go:64-108 | every reachable state before the end has an enabled step that loses nothing, if lookups succeed |
| Example.TwoCallConfigQualifies | README.md:166-166 | a plain workflow with two awaited calls meets every hypothesis of the exact-delivery theorems |
| Agreement.RunJustifies | sdk/internal/worker_runtime.go:224-236 | whatever a worker appends after reading an old prefix is justified on the log it is appended to |
| Agreement.LookupHits | internal/server/projection/workflow_tasks.go:137-154 | the input lookup never misses and always finds the started input |
| Agreement.IdentityAndInput | internal/server/handler/command/handler.go:114-137 | in every reachable state all events and tasks of an ID carry its started name, and every workflow task carries exactly its started input |
| Agreement.TerminalAgreement | sdk/internal/worker_runtime.go:444-471 | across duplicates, losses, stale reads and reordering, all terminal events of an ID are one and the same, except for the report of a run that crashed on its options |
| Agreement.TerminalAgreementWhenSafe | sdk/internal/worker_runtime.go:444-471 | if no registered workflow makes an unanswered call through ill-typed options there is no exception |
| Agreement.ResultNeverChanges | internal/server/projection/workflow_results.go:35-45 | a result entry, once written, stays and never changes, although the last write wins |
| Agreement.FailedNeverHasResult | internal/server/projection/workflow_results.go:35-45 | a workflow that failed for any other reason never gets a result entry, before or after |
| OptionsCrash.DisagreementReached | sdk/internal/activity_options.go:89-92 | the exception is reached: a run of the cluster, with one activity task delivered twice, after which a log holds a failure and a completion and the failed workflow has a result entry |
| DemoView.WorkflowState.FindOrCreateStep | internal/server/handler/http/demo_state.go:4-17 | finds the row of a name or appends a pending one; names stay distinct |
| DemoView.WorkflowState.FindStepByName | internal/server/handler/http/demo_state.go:20-27 | finds the row of a name, or reports -1 exactly if there is none |
| DemoView.WorkflowState.UpdateStep | internal/server/handler/http/demo_watcher.go:110-181 | after an activity event there is one row per name, each the one its log determines, and none missing |
| DemoView.WorkflowState.Update | internal/server/handler/http/demo_watcher.go:105-209 | folding one event keeps the view equal to the one determined by the events seen |
| DemoView.DemoHandler.HandleEvent | internal/server/handler/http/demo_watcher.go:80-103 | an event reaches the view of its own workflow and no other; unknown IDs and undecodable messages change nothing |
| DemoView.RowOfLog | internal/server/handler/http/demo_watcher.go:110-181 | a row's retry history is its name's retried events in order, its status is set by the name's last event, and its error text is that of the last failure no retry has followed |
| DemoView.AttemptsOfRow | internal/server/handler/http/demo_watcher.go:117-180 | a scheduled row shows at least one attempt more than its retries, exactly one more if scheduled once |
| DemoView.AttemptsNeverDrop | internal/server/handler/http/demo_watcher.go:117-180 | no event lowers the attempts shown other than a completion of a name that has been retried |
| DemoView.AttemptsExactly | internal/server/handler/http/demo_watcher.go:117-180 | the attempts shown, for every orderly log, are one more than the largest number of retries before a cut plus schedules after it, over the cuts since the last such completion or the first schedule |
| DemoView.RunningIffOpen | internal/server/handler/http/demo_watcher.go:119-169 | on a grammatical log a name is running exactly while its call is open |
| DemoView.StatusIsStage | internal/server/handler/http/demo_watcher.go:106-208 | on a grammatical log the overall status is the stage of the log |
| DemoView.ViewAgrees | internal/server/handler/http/demo_watcher.go:105-209 | a view that has handled a whole grammatical log has distinct rows, one for every scheduled name, all of which agree with it |
| DemoView.AttemptsExactIff | internal/server/handler/http/demo_watcher.go:117-180 | the attempts shown never exceed the name's schedules and retries, and reach them if and only if no Retried follows its second schedule and no Completed follows it once the name has been retried |
| DemoView.AttemptsUndercount | internal/server/handler/http/demo_watcher.go:139-141 | an instance: two calls each retried once, four attempts, three shown |

## Left out

- NATS and JetStream: connections, consumers, subscriptions and acknowledgement timeouts are abstract queues, cursors and redelivery steps; publishing de-duplicates nothing.
- The event-store library (Chronicle): reading is a prefix of the log, saving appends; `RecordEvent` is taken to apply the event and keep it; a save that is refused is a lost step.
- Serialization and `TypeConverter`: a value that crosses the log comes back as itself; whether a workflow's input fits its parameters is the parameter `convert`, which also covers a wrong number of arguments.
- Real time, sleeping, goroutine scheduling and float64 rounding: clocks are parameters and the backoff is exact.
- Workflow code that recovers from the suspension panic, starts goroutines or is not deterministic.
- `StartToCloseTimeout` and `ActivityStarted`: carried or declared, but neither enforced nor emitted; a panic in an activity body, or for values its reflective call refuses, which nothing in the worker recovers.
- The unused `RetryPolicy.CalculateNextDelay` and `ShouldRetry` of the options package, `inferWorkflowEventType`, the registry map, HTTP serving, configuration and the frontend.
- A fetch of the history that returns fewer than a hundred events although more exist: `Delivery` takes the whole window, `Agreement` any prefix.
- Events that reach the demo before the workflow is registered, and the demo's time stamps.
- Tokens.TokenConservation: assumes single projection and no redelivery after an append; what holds without these is in `Agreement`.
- Guarantees.EndToEnd: is about workflows that await each call at once, under exact delivery; for parallel workflows and other delivery the replay theorems and `Agreement` hold instead.
- Progress.Terminates: is stated for runs in which no step is lost and every retry lookup succeeds, and for workflows whose activities are all registered; what happens otherwise is `Progress.UnregisteredStalls` and `Tokens.TokenConservation`.
- Agreement.TerminalAgreement: assumes that all workers have registered the same workflow code; workers with different code can end a workflow differently.
