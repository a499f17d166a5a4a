# Verification of the Harness kernel, job queue and session envelope

This project models the parts of the Harness whose correctness is a matter of protocol:
the fenced task and lease protocol of the kernel, the job queue that mirrors it, the event
log that both rely on, checkpoint chains and the audit ledger, the execution of requests,
the envelope that carries a user's request to a provider and the policy that reads it back,
the canonical payload codec, and smaller machines: event replay, the circuit breaker with
the fallback loop of the orchestrator, the Prime stream parser, and schema migrations.

## How the model is built

- `Tables` holds the database tables as maps and sequences. A transaction is a function
  from the database to `Done(database, value)` or `Raised(error)`; `Commit` gives the
  database afterwards, which for an error is the database before. These functions are in
  `Tasks`, `EventLog`, `Checkpoints` and `Jobs`, and follow the repository method by method.
- `Database`, `Repository`, `ExecutionState` and `Queue` are the repositories as they run:
  classes whose methods change the tables in place, one assignment after the other, undo a
  failed transaction, and loop where the program loops. Each method is proved to leave the
  store in the state, and to give the answer, that the function says.
- `TaskInvariants`, `CheckpointInvariants`, `Inputs` and `JobInvariants` say what every
  transaction keeps; `TaskEffects`, `TaskOutcomes`, `CheckpointEffects`, `Recovery` and
  `JobProgress` say exactly when a transaction is refused and what it achieves otherwise;
  `Written`, `JobsWritten` and `CheckpointsWritten` say what a committed one writes, column
  by column, in terms of its arguments and of the rows it found, and `Formats` how the texts
  that are stored and hashed are printed.
- `System` puts all transactions together: a run is any sequence of steps of any number of
  workers, operators and publishers, crashing anywhere, under a clock that does not go back.
  `Chronicle` keeps event log, transitions and attempts in agreement over all of them.
  `QueueRuns` and `PlainMoves` say exactly which steps of a run break what the program does
  not protect: the agreement of job table and tasks, and what a task's state suggests;
  `Guards` says it by the rows that a step finds. `QueueHead` is about runs behind a job that
  blocks the queue, and `FailingRuns` holds concrete runs that end in a call that fails.
- `Execution` lets any number of calls of `execute` run among the other steps, each act of a
  process one step, with a record of the drivers' answers. `Verdicts` proves that what is
  reported is what was answered, in every interleaving, and `LoneExecution` what a call does
  that nothing interferes with.
- `JsonGrammar` is the grammar of JSON texts, written apart from the reader in `Json`, and
  `Streams` says what the parser of `Prime` tells, by the raw lines and their fields.
- uuid4 values are parameters of the steps (stamps). Where a result needs them to be new,
  it says so (`Fresh`, `AllFresh`, `FreshIds`, `DrawsNew`); all invariants hold without.
- SHA-256 is a parameter: any function from bytes to text. Nothing assumes that it is free
  of collisions. Where a collision matters, the lemma names the two inputs that collide.
  The digest of a submission is represented by the fields it covers.
- Times are real numbers, so the rounding of floating-point clocks is not modelled. Strings
  are sequences of Unicode scalar values.

## Results that differ from what one might expect

- `cancel` checks the lease it is given against the task of that lease, not against the
  task to be cancelled: the lease of any running task cancels any other running task
  (`Leases.CancelForeign`, with a concrete database in `ForeignCancel`). The cancellation
  is made under the task's own lease exactly when `lease.taskId` is the task
  (`Leases.CancelOwn`).
- Direct calls of the task repository on a task that a job is mapped to, which the command
  line makes (harness2/cli.py:226-231), break the agreement of the job table with the tasks.
  `QueueRuns.StepConsistent` says exactly which steps do, `RunConsistent` exactly in which
  runs they agree throughout, and `DirectCancelBreaks` is the run of a job that stays queued
  while its task is cancelled.
- A job without a kernel task is quarantined once. If an operator retries it, claiming it
  raises `EventConflict` in every later state, because its deduplication key is used
  (`JobProgress.ClaimSucceeds` gives the exact condition, `QuarantinedForEver` the rest);
  while it is the oldest job that waits, no other job is claimed, whatever else the system
  does (`QueueHead.QueueBlocked`). `FailingRuns.QuarantinedReached` is such a run.
- Creating a task again with the identical request and input never succeeds, although the
  submission itself is idempotent: the binding's event has a new identifier and the old
  deduplication key (`Inputs.CreateAgain`; `CreateSucceeds` gives the exact condition, and
  `FailingRuns.CreateAgainReached` is the run).
- A task can be running without an attempt, and retrying without budget. Exactly the
  committed transitions to running bring about the one, and exactly those to retrying with
  all attempts used the other (`PlainMoves.StepHolds`, over runs `RunHolds`); `RunningReached`
  and `RetryingReached` are runs that get there.
- Two renewals of one attempt in the same millisecond conflict (`Refusals.RenewTwice`, with
  the run in `FailingRuns.RenewTwiceReached`).
- A prompt with U+0085, U+2028 or U+2029 in it is refused by the policy, never misread
  (`Envelope.EnvelopeSafety`).
- A payload whose inputs are nested 32 deep can be constructed but has no canonical form
  (`Payloads.DeepestInputsRefused`; `CanonicalExists` gives the exact condition).
- An audit row whose event or subject contains a bar has the same hash as another row with
  the same metadata (`Audit.BarsAreAmbiguous`).
- The engine of the recorded decision and that of the recorded result can differ, when the
  last engine is passed over behind its circuit (`Fallback.SameEngine` gives the exact
  condition, `MixedRoute` an instance).

## Model

| member | source | states |
|---|---|---|
| Keys.RenderInjective | harness2/kernel/tasks.py:272 | No two different things (created, revision n, attempt n started, completed, expired, renewed, checkpoint n, payload bound, unmigrated) print the same deduplication key, whatever characters their identifiers contain. |
| Formats.StatesPrinted | harness2/kernel/tasks.py:34-47 | How the states are written in events and rows. |
| EventLog.AppendKeeps | harness2/kernel/event_bus.py:108-169 | Appending any event to a log without repeated identifiers and keys: a new event is added at the end, an identical one changes nothing, and exactly an event that clashes with a different one is refused; the log stays without repetitions. |
| EventLog.AppendTwice | harness2/kernel/event_bus.py:129-140 | Appending the same event again changes nothing and gives the same answer. |
| Database.EventBus.Append | harness2/kernel/event_bus.py:108-169 | The log in place: lookup by key, then insertion under the identifier's uniqueness, does what the specification of append says. |
| Database.EventBus.Ack | harness2/kernel/event_bus.py:191-209 | The consumer's row in place: refused for a blank consumer or beyond the high-water mark, otherwise the larger of old and new cursor. |
| Database.EventBus.Replay | harness2/kernel/event_bus.py:171-189 | Reading the log row by row gives exactly the specified page. |
| Database.Store.Restore | harness2/store.py:60-71 | A transaction that is not committed leaves the database it began with. |
| Replay.PageExact | harness2/kernel/event_bus.py:171-189 | A page holds, in ascending order, exactly the numbers of the events after its reader's place that have the type and the task asked for (an empty text asks for any), up to where the reader stands after it; it has at most the limit of events, which is cut to between 1 and 1000, and one with fewer reaches the end of the log. |
| Replay.PagesExact | harness2/kernel/event_bus.py:171-189 | Pages read one after the other, with any limits and any filter, while the log grows in between, make up the filtered log up to where the reader stands, in order, without gap or repetition. |
| Replay.PagesEnd | harness2/kernel/event_bus.py:171-189 | On a log that does not grow, more readings than events always reach the end of the filtered log. |
| Replay.AtLeastOnce | harness2/kernel/event_bus.py:191-216 | A reader that crashes before it moves on loses nothing: every matching event up to where it stands was given to it at least once. |
| Replay.AckExact | harness2/kernel/event_bus.py:191-216 | An acknowledgement is accepted exactly for a non-blank consumer up to the high-water mark; it moves only that cursor, never back. |
| System.RunCursors | harness2/kernel/event_bus.py:191-216 | In every run every cursor only moves forward and stays within the log. |
| TaskInvariants.SubmitKeeps | harness2/kernel/tasks.py:203-284 | A submission keeps fencing, history and event accounting, and touches no other task. |
| TaskInvariants.TransitionKeeps | harness2/kernel/tasks.py:302-345 | A transition keeps the same, whatever its stamps are. |
| TaskInvariants.PrepareKeeps | harness2/kernel/tasks.py:347-369 | So do the transitions of a preparation. |
| TaskInvariants.CancelKeeps | harness2/kernel/tasks.py:371-411 | So does a cancellation, also under a lease of another task. |
| TaskInvariants.RetryKeeps | harness2/kernel/tasks.py:427-455 | So does an explicit retry. |
| TaskInvariants.ClaimKeeps | harness2/kernel/tasks.py:457-525 | So does a claim: an attempt runs exactly when it is its task's active attempt, with the current fence, in a running task; attempt numbers and fences are 1 to attempts started, which is within the budget. |
| TaskInvariants.RenewKeeps | harness2/kernel/tasks.py:550-577 | So does a renewal. |
| TaskInvariants.CompleteKeeps | harness2/kernel/tasks.py:579-635 | So does a completion: a task is completed exactly when it has a result, and then its attempt with the highest fence, and no other, succeeded with that result. |
| TaskInvariants.ExpireKeeps | harness2/kernel/tasks.py:661-684 | So does the end of an expired attempt. |
| TaskInvariants.HistoryKept | harness2/kernel/tasks.py:287-300 | A task at revision r has exactly r+1 transitions numbered 0 to r, starting in created, each from the state the one before led to, along allowed edges or one of the four that end an attempt, the last leading to the current state. |
| TaskEffects.SubmitExact | harness2/kernel/tasks.py:203-284 | With a new stamp a submission, whose maps and texts are within their limits, is refused only for a different request under the same task or idempotency key, answers with the existing task for the same request, and otherwise adds the task, its event and its transition: no event ever stands in its way. |
| TaskEffects.SubmitTwice | harness2/kernel/tasks.py:236-244 | Submitting the same request again changes nothing and answers with the task. |
| TaskEffects.TransitionExact | harness2/kernel/tasks.py:302-345 | With a new stamp, a transition whose reason fits an event is refused exactly for an unknown task, an active attempt or an edge that is not allowed. |
| TaskEffects.CancelExact | harness2/kernel/tasks.py:371-411 | With a new stamp a cancellation is refused exactly for an unknown or ended task, or an active attempt without a lease in force: the state from which cancellation is not allowed is never reached. |
| TaskEffects.RetryExact | harness2/kernel/tasks.py:427-455 | With a new stamp a retry is refused exactly for an unknown task, one that has not failed, or a spent budget. |
| TaskEffects.ClaimExact | harness2/kernel/tasks.py:457-525 | With new identifiers a claim, for a plan within its limit, is refused exactly for an unknown or not claimable task: the unique columns of the attempt table never object. |
| TaskEffects.CompleteExact | harness2/kernel/tasks.py:579-635 | With a new stamp, a completion whose error code fits an event is refused exactly when its lease is not in force. |
| TaskEffects.RenewExact | harness2/kernel/tasks.py:550-577 | With a new stamp a renewal is refused exactly when its lease is not in force or the attempt was renewed in the same millisecond. |
| TaskEffects.PrepareExact | harness2/kernel/tasks.py:347-369 | With new stamps a preparation never fails: created, planned and blocked tasks become ready, all others stay as they are. |
| TaskOutcomes.RenewExtends | harness2/kernel/tasks.py:550-577 | A renewed lease is in force until at least the time asked for and never shorter than before. |
| TaskOutcomes.CompleteSettles | harness2/kernel/tasks.py:579-635 | After a completion its lease is never in force again; the task is completed with the result exactly on success, claimable from the retry time on if a retry was asked for within the budget, and failed otherwise. |
| TaskOutcomes.CancelSettles | harness2/kernel/tasks.py:371-411 | After a cancellation no lease of the task is in force, and the attempt it had is cancelled. |
| TaskOutcomes.RunningWithoutAttempt | harness2/kernel/tasks.py:302-345 | A transition can make a task running without an attempt: running does not imply an active attempt. |
| TaskOutcomes.RetryingBeyondBudget | harness2/kernel/tasks.py:302-345 | A transition can make a task retrying whose budget is spent; it can then never be claimed. |
| Written.SubmitWrites | harness2/kernel/tasks.py:203-284 | A committed submission writes exactly the new row (its request, at least one attempt allowed, due at once), its event and its transition, every column given. |
| Written.TransitionWrites | harness2/kernel/tasks.py:302-345 | A committed transition changes the state, the time of the end if it is one, the time of the change and the revision, and adds an event and a transition that tell both states and the reason. |
| Written.IncomingEdges | harness2/kernel/tasks.py:51-69 | The edges between states, read from where they lead. |
| Written.PrepareWrites | harness2/kernel/tasks.py:347-369 | A preparation records plan.created and plan.ready for a new task, plan.ready for a planned one, plan.recheck for a blocked one, and nothing otherwise. |
| Written.CancelWrites | harness2/kernel/tasks.py:371-411 | A committed cancellation, column by column: task_cancelled is the error of the task and of the attempt that ends with it. |
| Written.RetryWrites | harness2/kernel/tasks.py:427-455 | A committed retry makes the task due at once and clears its error and the time of its end. |
| Written.ClaimWrites | harness2/kernel/tasks.py:457-525 | A claim is made exactly of a due task that is ready, retrying or recovering and has attempts left; attempt, task, event, transition and lease show the same next number and fence, owner and plan, and a lease of the seconds asked for, at least one. |
| Written.RenewWrites | harness2/kernel/tasks.py:550-577 | A committed renewal moves the end of the lease to the time asked for if that is later, and the time of the renewal, and nothing else. |
| Written.CompleteWrites | harness2/kernel/tasks.py:579-635 | A committed completion writes what the worker reports into attempt, task and event alike: outcome, error, and the state by success, retry wish and budget. |
| Written.ExpireWrites | harness2/kernel/tasks.py:651-684 | The end of an expired attempt, column by column: its task is due again at once if it has attempts left, and has failed otherwise. |
| Chronicle.StepChronicled | harness2/kernel/tasks.py:287-300 | Every step of the system keeps event log, transitions and attempts in agreement: each transition has an event of the same task, states, reason and attempt, each event of the repository but a renewal has its transition, and numbers, fences, outcomes and errors are those of the attempt. |
| Chronicle.RunChronicled | harness2/kernel/tasks.py:287-300 | Hence they agree after every run. |
| Chronicle.InitialChronicled | harness2/store.py:73-89 | The empty database keeps that agreement. |
| PlainMoves.StepHolds | harness2/kernel/tasks.py:302-345 | If every running task has an attempt, any step of the system keeps that exactly unless it is a committed transition to running; if every retrying task has attempts left, exactly unless it is a committed transition to retrying of a task that has none. |
| PlainMoves.RunHolds | harness2/kernel/tasks.py:203-686 | Either property holds at every moment of a run exactly when the run has no such transition. |
| PlainMoves.RunningIsActive | harness2/kernel/tasks.py:497-502 | In runs without transitions to running, a task is running exactly when it has an active attempt. |
| PlainMoves.RunningReached | harness2/kernel/tasks.py:302-345 | From the empty database: a task is submitted, planned, made ready and moved to running, where it has no attempt. |
| PlainMoves.RetryingReached | harness2/kernel/tasks.py:302-345 | From the empty database: a task with one attempt is claimed, fails, and is moved to retrying with that attempt used. |
| Guards.RunHoldsByGuards | harness2/kernel/tasks.py:302-345 | In runs that draw new identifiers, either property holds throughout exactly when no transition to running, or to retrying with all attempts used, finds a task without an active attempt whose state allows it. |
| Recovery.RecoverKeeps | harness2/kernel/tasks.py:637-686 | A sweep over expired attempts keeps every invariant, whether it ends or fails on the way. |
| Recovery.RecoverExact | harness2/kernel/tasks.py:637-686 | With new stamps a sweep never fails, counts its rows, ends exactly their attempts, makes their tasks recovering or, with the budget spent, failed, and changes nothing else of tasks and attempts. |
| Recovery.RecoverCompletes | harness2/kernel/tasks.py:641-649 | If the query was not cut short by its limit, no expired attempt is left after the sweep. |
| Recovery.RecoverEarliest | harness2/kernel/tasks.py:641-649 | Expired attempts are left only if the query was cut short by its limit, between 1 and 1000; those that are left expired no earlier than those that were ended. |
| Recovery.ExpiredExact | harness2/kernel/tasks.py:641-649 | In a database that keeps its invariants a sweep may end exactly the attempts that still run after their lease, of tasks that no job is mapped to. |
| Recovery.RecoverSpares | harness2/kernel/tasks.py:641-649 | A lease in force at the time of a sweep is in force afterwards for as long as it would have been. |
| Leases.ClaimIssues | harness2/kernel/tasks.py:457-525 | A claim hands out a lease that is in force. |
| Leases.ClaimLasts | harness2/kernel/tasks.py:479 | The lease of a claim is in force exactly until now plus the seconds asked for, at least one; lease and attempt row hold that time. |
| Leases.AuthorityExact | harness2/kernel/tasks.py:527-548 | For an issued lease all the checks come down to two: its attempt runs and its time is not up. |
| Leases.AuthorityOfAny | harness2/kernel/tasks.py:527-548 | Any lease, issued or made up, is in force exactly if its attempt runs, is in time, and has its task, owner and fence. |
| Leases.DeadStaysDead | harness2/kernel/tasks.py:527-548 | A lease that is rejected is rejected after any step and at any later time. |
| Leases.CancelForeign | harness2/kernel/tasks.py:386-394 | The lease of one running task cancels another one: its attempt is cancelled though the lease is not its own. |
| Leases.CancelOwn | harness2/kernel/tasks.py:386-394 | A running task is cancelled under its own attempt's lease exactly when the lease names that task. |
| ForeignCancel.ForeignCancelHappens | harness2/kernel/tasks.py:386-394 | Two tasks, submitted, prepared and claimed one after the other; the second one's lease cancels the first. |
| System.StepSound | harness2/kernel/tasks.py:302-686 | Every step of the whole system, direct or through the queue, keeps every kernel invariant and changes tasks and attempts only as evolution allows. |
| System.RunSound | harness2/kernel/tasks.py:302-686 | Hence in every database that any run reaches, the fencing, history, event, checkpoint and input invariants hold. |
| System.RunPersists | harness2/kernel/tasks.py:586-635 | No run changes a completed or cancelled task, an ended attempt, a stored object or reference, or anything in the event, transition and checkpoint tables; counters never go back. |
| System.RunKeepsDead | harness2/kernel/tasks.py:527-548 | In every continuation a rejected lease stays rejected. |
| System.DeadLeaseIsHarmless | harness2/jobs.py:363-409 | In every continuation, completion, renewal, checkpoint and job completion under a rejected lease leave the whole database unchanged. |
| System.InitialConsistent | harness2/store.py:73-89 | The empty database, also one with jobs of an earlier version, keeps every invariant. |
| Refusals.OnlyGuards | harness2/kernel/tasks.py:203-686 | In every reachable state a step with new identifiers, and texts that fit its event, fails only by its documented guards; EventConflict occurs exactly for a renewal under a lease in force in the millisecond of an earlier one. |
| Refusals.RenewTwice | harness2/kernel/tasks.py:571 | A second renewal within one millisecond conflicts, whatever happened in between. |
| Formats.TowardZero | harness2/kernel/tasks.py:571 | The millisecond in a renewal's key is the time cut off toward zero. |
| FailingRuns.RenewTwiceReached | harness2/kernel/tasks.py:571 | From the empty database: a task is submitted, prepared, claimed and its lease renewed; renewing it again in the same millisecond, while it is in force, raises EventConflict. |
| Accounting.AttemptCount | harness2/kernel/tasks.py:470-502 | A task has exactly as many attempts as it has started, at most its budget. |
| Accounting.ExactlyOneWinner | harness2/kernel/tasks.py:588-613 | A task is completed exactly when an attempt of it succeeded; at most one did, it has the current fence, and the task's result is its outcome. |
| Execution.ActKeeps | harness2/kernel/application.py:89-129 | Every act of every process, and every other step, keeps each driver call tied to an attempt of its own. |
| Execution.CallsWithinBudget | harness2/kernel/application.py:89-129 | However many executions run at once, crash, or race with other steps, the drivers are called for a task at most as often as its submission allows. |
| Execution.PrepareExact | harness2/kernel/tasks.py:347-369 | The transition that prepare makes next, by the state it has seen, with its reason. |
| Verdicts.ReportsTell | harness2/kernel/application.py:111-129 | In every execution, with crashes and other steps anywhere: an attempt that a report has ended succeeded exactly if its own driver call answered success, failed exactly if it answered otherwise, and holds that call's outcome and error. |
| Verdicts.ReportSettles | harness2/kernel/application.py:124-129 | A report under a lease in force always ends its attempt: the task is completed with the driver's outcome if it answered success, and failed without a result otherwise. |
| LoneExecution.ExecutesAlone | harness2/kernel/application.py:89-129 | A new request whose execution nothing interferes with calls its driver once, for its one attempt, and ends with the task settled by the answer, provided the answer comes within the lease. |
| LoneExecution.BlockedAlone | harness2/kernel/application.py:105-115 | A new request that cannot be planned calls no driver, and its task is blocked. |
| LoneExecution.Replayed | harness2/kernel/application.py:95-101 | A request whose task has ended is answered at once: nothing is called and nothing written. |
| Repository.TaskRepository.SubmitWithin | harness2/kernel/tasks.py:218-284 | The statements of a submission, in place, do what its specification says. |
| Repository.TaskRepository.Submit | harness2/kernel/tasks.py:203-216 | In a transaction of its own, a failed submission leaves no trace. |
| Repository.TaskRepository.TransitionWithin | harness2/kernel/tasks.py:309-340 | The statements of a transition, in place, do what its specification says. |
| Repository.TaskRepository.Transition | harness2/kernel/tasks.py:342-345 | In a transaction of its own, a failed transition leaves no trace. |
| Repository.TaskRepository.PrepareWithin | harness2/kernel/tasks.py:347-369 | The guarded transitions of a preparation inside a caller's transaction. |
| Repository.TaskRepository.Cancel | harness2/kernel/tasks.py:371-411 | The statements of a cancellation, in place; undone when they fail. |
| Repository.TaskRepository.Retry | harness2/kernel/tasks.py:427-455 | The statements of a retry, in place; undone when they fail. |
| Repository.TaskRepository.ClaimWithin | harness2/kernel/tasks.py:465-520 | The statements of a claim, in place, and the lease it hands out. |
| Repository.TaskRepository.Claim | harness2/kernel/tasks.py:521-525 | In a transaction of its own, a failed claim leaves no trace. |
| Repository.TaskRepository.Renew | harness2/kernel/tasks.py:550-577 | The statements of a renewal, in place; undone when its event conflicts. |
| Repository.TaskRepository.CompleteWithin | harness2/kernel/tasks.py:587-630 | The statements of a completion, in place. |
| Repository.TaskRepository.Complete | harness2/kernel/tasks.py:631-635 | In a transaction of its own, a failed completion leaves no trace. |
| Repository.TaskRepository.RecoverExpired | harness2/kernel/tasks.py:637-686 | The loop over the expired rows, in place; one failure undoes the whole sweep. |
| CheckpointInvariants.CheckpointKeeps | harness2/kernel/execution_state.py:197-270 | A checkpoint written under a lease in force keeps every chain: links numbered 1 to n, each naming the hash before it, identifier and hash those of its record, object authentic, fences never falling and never beyond the task's current one. |
| CheckpointInvariants.CheckpointFrame | harness2/kernel/execution_state.py:272-328 | No other step can break a chain. |
| CheckpointInvariants.MakeUnfolds | harness2/kernel/execution_state.py:218-265 | A checkpoint is made only under a lease in force; it writes the next link, its reference and its event, and nothing else. |
| CheckpointEffects.ChainReadable | harness2/kernel/execution_state.py:272-328 | In every reachable state the stored chain of every task passes its verification, with no row lost in the join and none left out. |
| CheckpointEffects.MakeExact | harness2/kernel/execution_state.py:197-270 | With a new stamp a checkpoint is refused exactly for a bad step name, a lease not in force, a taken reference, texts beyond their limits, or a hash that takes its record to the digest of a different stored one. |
| CheckpointsWritten.CheckpointWrites | harness2/kernel/execution_state.py:216-265 | A committed checkpoint, column by column: the next number, the hash before, identifier and hash those of its record as canonical JSON, which contains the lease, the reference, the versions and whether it can be resumed; its event tells it, and its reference is known. |
| Checkpoints.LatestCheckpoint | harness2/kernel/execution_state.py:272-328 | The loop over the chain answers with the last link if every link holds at its place, and with an integrity error otherwise. |
| CheckpointsWritten.LinkExact | harness2/kernel/execution_state.py:285-326 | A stored row is accepted as a link exactly if it has its number and parent, its versions are canonical, its identifier and hash are those of its record, and its reference and its object are stored for its task, attempt and fence. |
| ExecutionState.ExecutionStateRepository.Latest | harness2/kernel/execution_state.py:272-328 | In a database that keeps its invariants the answer is always the last link written. |
| ExecutionState.ExecutionStateRepository.CheckpointWithin | harness2/kernel/execution_state.py:216-265 | The statements of a checkpoint, in place, do what its specification says. |
| ExecutionState.ExecutionStateRepository.Make | harness2/kernel/execution_state.py:197-270 | In a transaction of its own, a failed checkpoint leaves no trace. |
| ExecutionState.ExecutionStateRepository.InsertReference | harness2/kernel/execution_state.py:69-88 | Inserting a reference unless its identity is taken, then comparing, accepts exactly a new reference in a free location or the identical one. |
| ExecutionState.ExecutionStateRepository.CreateTaskWithin | harness2/kernel/execution_state.py:122-166 | The statements of a creation, in place, do what its specification says. |
| ExecutionState.ExecutionStateRepository.Create | harness2/kernel/execution_state.py:122-166 | A creation that fails after the task was submitted leaves no trace of the task. |
| CheckpointBinding.ChainBinding | harness2/kernel/execution_state.py:229-243 | Two chains that verify, wherever they are stored, and end in the same hash have the same length and the same value in every covered field of every link, or the hash collides on two of the texts hashed for them. |
| CheckpointBinding.LinkBinding | harness2/kernel/execution_state.py:303-314 | The same for one link: equal hashes mean equal records and equal parents, or a collision. |
| Inputs.CreateKeeps | harness2/kernel/execution_state.py:122-166 | Creating a task with its input keeps every invariant and adds at most that task. |
| Inputs.CreateExact | harness2/kernel/execution_state.py:122-166 | With new stamps a new task, whose maps and texts are within their limits, is created, with its input bound, unless its idempotency key or the reference's identity is taken. |
| CheckpointsWritten.CreateWrites | harness2/kernel/execution_state.py:122-166 | A committed creation writes what its submission writes, the reference, the task's input, and the event that announces it. |
| CheckpointsWritten.Inserted | harness2/kernel/execution_state.py:69-88 | A reference is accepted exactly if the identical one is there, or neither its identifier nor its place is taken; no other reference changes. |
| Inputs.CreateSucceeds | harness2/kernel/execution_state.py:122-166 | With new stamps a creation, whose maps and texts are within their limits, succeeds exactly when the reference can be inserted and either the task is new and its idempotency key free, or the same request was submitted before and has no input bound. |
| Inputs.CreateAgain | harness2/kernel/execution_state.py:122-166 | Creating a task again never succeeds; for the identical request and input the error is EventConflict. |
| FailingRuns.CreateAgainReached | harness2/kernel/execution_state.py:122-166 | From the empty database: a task is created with its input; creating it again with the identical request and input raises EventConflict. |
| JobInvariants.ProjectionFrame | harness2/jobs.py:68-144 | A step on a task that no job is mapped to leaves the projection as it is. |
| JobSteps.SubmitJobKeeps | harness2/jobs.py:68-144 | Submitting a job with a new identifier keeps the projection: each mapped job's status, attempts, budget, schedule, attempt, fence and lease expiry match its task. |
| JobSteps.RecoverStaleKeeps | harness2/jobs.py:146-216 | So does the recovery of stale jobs, whether it ends or fails on the way. |
| JobSteps.ClaimJobKeeps | harness2/jobs.py:218-287 | So does a claim, also when it quarantines. |
| JobSteps.FinishJobKeeps | harness2/jobs.py:363-394 | So does a worker's completion, whatever job row it remembers. |
| JobSteps.CancelJobKeeps | harness2/jobs.py:428-463 | So does a cancellation. |
| JobSteps.RetryJobKeeps | harness2/jobs.py:471-502 | So does a retry, whose clock is read twice. |
| JobSteps.DeleteJobKeeps | harness2/jobs.py:504-516 | So do the deletions of a purge, in any state: its check of the status is not part of their transaction. |
| JobSteps.CancelJobIsCancel | harness2/jobs.py:439-463 | The queue's own statements for cancelling a task do what the task repository's cancellation does. |
| QueueRuns.StepConsistent | harness2/jobs.py:68-516 | Any step keeps the projection, together with every kernel invariant, exactly unless it is a committed direct transition, cancellation, retry, claim or completion of a task that a job is mapped to, a direct renewal that lengthens the lease of such a task, or the submission of a job whose task was there before and is no longer as a new job would have it. |
| QueueRuns.RunConsistent | harness2/jobs.py:68-516 | Hence every mapped job matches its task at every moment of a run exactly when the run has no such step. |
| QueueRuns.DirectExact | harness2/cli.py:226-231 | A step that moves one task's row to where no job row fits both keeps the projection exactly when no job is mapped to the task. |
| QueueRuns.DirectRenewExact | harness2/kernel/tasks.py:550-577 | A direct renewal keeps the projection exactly unless a job is mapped to the task and the lease gets longer. |
| QueueRuns.AgainExact | harness2/jobs.py:109-136 | Submitting a job whose task was submitted before keeps the projection exactly when that task is created or retrying, without attempts, and due. |
| QueueRuns.DirectCancelBreaks | harness2/cli.py:226-228 | From the empty database: a job is submitted and its task cancelled directly; the job stays queued. |
| Guards.RunConsistentByGuards | harness2/jobs.py:68-516 | In runs that draw new identifiers, the job table matches its tasks throughout exactly when no direct call on a mapped task meets the guards of its operation (a renewal that lengthens the lease), and no job is submitted over the unbound, unmapped task of the same request that is no longer as a new job would have it. |
| JobSoundness.ClaimJobSound | harness2/jobs.py:218-287 | The queue's steps keep the kernel invariants even where the projection was broken by direct operations on mapped tasks; here the claim. |
| JobSoundness.RecoverStaleSound | harness2/jobs.py:146-216 | The same for the recovery of stale jobs. |
| JobSoundness.FinishJobSound | harness2/jobs.py:363-394 | The same for completion. |
| JobProgress.SubmitProgress | harness2/jobs.py:68-144 | With new identifiers a job, whose request is within its limits, is accepted, mapped, and due from now on, unless its idempotency key or its object's place is taken. |
| JobProgress.RetrySchedule | harness2/jobs.py:360 | The delay before a retry is two seconds after the first attempt, doubles with each further one, and is never more than five minutes. |
| JobProgress.ClaimProgress | harness2/jobs.py:218-287 | A due job that is mapped is always claimed: its task's schedule, budget and state never stand in the way; the lease handed out is in force. |
| JobProgress.ClaimSucceeds | harness2/jobs.py:218-287 | With new identifiers a claim of the oldest due job succeeds exactly when the job is mapped or was never quarantined; otherwise it raises EventConflict. |
| JobProgress.NextExact | harness2/jobs.py:220-226 | A worker takes a queued or retrying job whose time has come, and none that was created later than another such job. |
| JobsWritten.SubmitJobWrites | harness2/jobs.py:109-136 | A committed submission, column by column: job, mapping, task and input, with the names and texts of the compatibility request. |
| JobsWritten.ClaimJobWrites | harness2/jobs.py:250-287 | A committed claim: job, mapping, task, attempt and lease show the same attempt, fence and end of the lease. |
| JobsWritten.ClaimedJobLasts | harness2/jobs.py:252-273 | The lease of a claimed job ends exactly after the longer of the seconds asked for and two minutes more than the job may run, in lease, attempt and job row; until then the job is neither due nor stale, and after it is stale. |
| JobsWritten.QuarantineWrites | harness2/jobs.py:227-249 | Claiming a job without a task writes its dead row and the event of its quarantine, and nothing else. |
| JobsWritten.FinishJobWrites | harness2/jobs.py:356-394 | A committed completion, in any state: the job row column by column, with run and error in their own columns, and outcome, error and schedule in task and attempt. |
| JobsWritten.CancelJobWrites | harness2/jobs.py:428-463 | A cancelled job and its task, column by column. |
| JobsWritten.RetryJobWrites | harness2/jobs.py:471-502 | A retried job waits again, due at the second reading of the clock, its task at the first. |
| JobsWritten.DeleteJobWrites | harness2/jobs.py:504-516 | A purge takes the job and its mapping, and nothing else. |
| JobsWritten.StaleJobWrites | harness2/jobs.py:146-209 | A stale job and its running task, column by column, after the sweep. |
| JobsWritten.SettledJobWrites | harness2/jobs.py:146-209 | A stale job whose task does not run, or runs under an attempt in time, takes its status from the task, which stays as it is. |
| JobsWritten.QuarantineStaleWrites | harness2/jobs.py:210-216 | Exactly the stale jobs without a task are dead for want of a payload; no other job changes. |
| JobProgress.FinishProgress | harness2/jobs.py:356-394 | A worker whose lease is in force, and whose error code fits an event, is always heard: its job becomes succeeded, retry or dead exactly as the worker expects, with the schedule it asked for, the run and the error it reports, without lease and worker, and with the same identity and limits as before. |
| JobProgress.FinishedDue | harness2/jobs.py:356-394 | A finished job is due again exactly if its worker failed in a way worth repeating, with attempts left, and its delay (two to the power of its attempts, at most 300 seconds) has passed. |
| JobProgress.CancelJobAnswers | harness2/jobs.py:428-463 | Cancelling never fails, and answers yes exactly when the job is queued or waiting for a retry. |
| JobProgress.RetryJobAnswers | harness2/jobs.py:471-502 | Retrying never fails, and answers yes exactly when the job is dead and, if mapped, has attempts left. |
| JobProgress.StaleSweep | harness2/jobs.py:146-216 | With new stamps the recovery of stale jobs never fails; every job still running after its lease is dead and none is stale afterwards, all others are unchanged. |
| JobProgress.QuarantineExact | harness2/jobs.py:227-249 | Claiming a job without a task quarantines it exactly when it was not quarantined before; otherwise it raises EventConflict. |
| JobProgress.QuarantinedForEver | harness2/jobs.py:227-249 | Once quarantined, a job without a task can never be claimed again, in any later state. |
| QueueHead.QueueBlocked | harness2/jobs.py:218-249 | While a due job that has no task and was quarantined is the oldest that waits, every claim in a run fails with EventConflict and changes nothing, whatever else happens in between (sweeps of stale jobs, submissions, completions, retries of younger jobs, direct calls), and it blocks the queue at the end as well. |
| FailingRuns.QuarantinedReached | harness2/jobs.py:227-249 | A job of an earlier version is claimed, which quarantines it, and retried: it is the next due job, and claiming it raises EventConflict. |
| Queue.JobManager.SubmitWithin | harness2/jobs.py:109-136 | The statements of a job submission, in place, do what its specification says. |
| Queue.JobManager.Submit | harness2/jobs.py:109-142 | A submission that fails leaves neither job nor task. |
| Queue.JobManager.Recover | harness2/jobs.py:146-216 | The loop over stale jobs and the update of unmapped ones, in place; one failure undoes the sweep. |
| Queue.JobManager.ClaimWithin | harness2/jobs.py:220-287 | The statements of a job claim, in place, do what its specification says. |
| Queue.JobManager.Claim | harness2/jobs.py:220-287 | A claim that fails after the task was prepared leaves it unprepared. |
| Queue.JobManager.FinishWithin | harness2/jobs.py:356-394 | The statements of a worker's completion, in place, do what its specification says. |
| Queue.JobManager.Finish | harness2/jobs.py:363-402 | A completion whose job row has changed undoes the completion of the task. |
| Queue.JobManager.Cancel | harness2/jobs.py:428-463 | The statements of a job cancellation, in place. |
| Queue.JobManager.Retry | harness2/jobs.py:471-502 | The statements of a job retry, in place. |
| Queue.JobManager.Delete | harness2/jobs.py:504-516 | The deletions of a purge, in place. |
| Audit.AcceptedIsAppended | harness2/store.py:109-137 | The ledgers that sequences of appends produce are exactly those that the verifier accepts and in which no hash occurs twice. |
| Audit.AppendedRow | harness2/store.py:109-123 | The appended row holds the given fields, the hash of the row before, or 64 zeros, and the hash of its joined text. |
| Formats.BodyPrinted | harness2/store.py:117 | The hashed text is time, event, subject, metadata and previous hash, with bars between. |
| Formats.TimePrinted | harness2/store.py:117 | The time is printed in seconds with six decimals. |
| Audit.RefusedAppend | harness2/store.py:33-37 | On an accepted ledger an append is refused exactly when the hash takes the new row's body to the digest of a row that is there. |
| Audit.AuditBinding | harness2/store.py:109-137 | Two ledgers that verify and end in the same hash are equal row by row and in length, if events and subjects contain no bar, or the hash collides on their texts or maps one of them to 64 zeros. |
| Audit.BodyExact | harness2/store.py:117 | Two rows have the same body exactly when time and previous hash are equal and event, subject and metadata read the same when joined by bars. |
| Audit.BarsAreAmbiguous | harness2/store.py:117 | A row with a bar in its event or subject has the same body as a row with another event and the same metadata. |
| Audit.AuditLedger.Append | harness2/store.py:109-123 | Appending adds one row chained to the last, unless its hash is taken, and keeps the ledger acceptable. |
| Audit.AuditLedger.Verify | harness2/store.py:125-137 | The loop says yes exactly for an acceptable ledger, and otherwise gives the number of the first bad row. |
| Envelope.EnvelopeSafety | harness2/sessions.py:514-527 | For every context text and every prompt, the policy reads from the assembled prompt exactly the prompt if it has no U+0085, U+2028 or U+2029, and refuses otherwise: it never reads another task. |
| Envelope.AssembledText | harness2/sessions.py:514-527 | The prompt is the semantics, the history unless it is empty, and the request, each below its header, with blank lines between. |
| Envelope.ContextReadBack | harness2/sessions.py:523-527 | Between the semantics and the request stands the history's header and the whole context, which is read back from there; or nothing, if the context is empty. |
| Envelope.AssembleInjective | harness2/sessions.py:514-527 | Under one semantics text, different contexts or different prompts never give the same prompt. |
| Policy.PolicyTaskText | harness2/policy.py:41-70 | The backward scan finds the last line equal to the header and answers with the JSON string below it, or the right refusal. |
| Policy.SectionExact | harness2/policy.py:54-70 | What stands below the header is a task exactly if it is, but for white space around it, the JSON text of a string; it is refused as empty, as not JSON, or as no string otherwise. |
| SessionContext.Build | harness2/sessions.py:177-203 | The loop chooses newest first exactly the eligible turns that fit; the text is their lines in order, truncation is reported exactly when an eligible turn was left out, and the labels are those of the request or of a chosen turn. |
| SessionContext.EligibleExact | harness2/sessions.py:167-168 | Exactly the completed turns of user, assistant and summary are eligible, in their order. |
| SessionContext.LineReads | harness2/sessions.py:170-175 | A turn's line is read as its role, number and text. |
| SessionContext.SelectionFits | harness2/sessions.py:183-194 | At most turn-limit turns are chosen and their text is within the byte limit. |
| SessionContext.SelectionMaximal | harness2/sessions.py:185-194 | Below the turn limit no omitted turn would fit in the bytes that are left. |
| SessionContext.SelectionUnique | harness2/sessions.py:185-194 | The limits determine the selection. |
| SessionContext.LineInjective | harness2/sessions.py:170-175 | Turns that differ in role, number or text never share a line. |
| SessionContext.HistoryDecodes | harness2/sessions.py:196 | Splitting the text on newlines and decoding each line gives back exactly the chosen turns. |
| Json.LoadsDumps | harness2/kernel/payloads.py:73-76 | Reading a printed JSON value gives back exactly that value. |
| JsonGrammar.LoadsExact | harness2/kernel/payloads.py:139-142 | The reader accepts exactly the texts of the JSON grammar of RFC 8259 (white space, escapes, surrogate pairs, repeated keys; no fractions, exponents or lone surrogates), and reads each as the value that it spells. |
| JsonGrammar.SpelledOnce | harness2/kernel/payloads.py:139-142 | No text spells two values. |
| Formats.ValuePrinted | harness2/kernel/payloads.py:73-76 | Values are printed without spaces, objects with each key once in the order of code points. |
| Formats.CharPrinted | harness2/kernel/payloads.py:73-76 | How each character is printed in a string: escaped only where JSON demands it. |
| Utf8.DecodeExact | harness2/kernel/payloads.py:139-142 | Bytes are decoded exactly if they are the encoding of a text: overlong forms, surrogates and cut-off characters are refused. |
| Utf8.CharBytes | harness2/kernel/payloads.py:76 | The bytes of each character. |
| Payloads.ValidateExact | harness2/kernel/payloads.py:32-50 | Validation of any Python value answers with the JSON value that says the same (lists and tuples as arrays, mappings with string keys as objects) if its keys are bounded and it is nested at most 32 deep, and refuses every other. |
| Payloads.ValidateLift | harness2/kernel/payloads.py:32-50 | Validation returns a JSON value unchanged, and accepts it exactly when its keys are bounded and it is nested at most 32 deep. |
| Payloads.ThawFreeze | harness2/kernel/payloads.py:53-66 | Thawing a frozen value gives it back. |
| Payloads.FreezeThaw | harness2/kernel/payloads.py:53-66 | Freezing a thawed value gives it back. |
| Payloads.FromCanonical | harness2/kernel/payloads.py:137-154 | A payload with canonical bytes is decoded from them. |
| Payloads.AcceptedIsCanonical | harness2/kernel/payloads.py:137-154 | Bytes are decoded only if they are the canonical bytes of what they decode to. |
| Payloads.CanonicalFieldTypes | harness2/kernel/payloads.py:148-153 | The canonical bytes of any payload are those of an object with its schema, its two texts as strings and its three maps as objects, each under its own key: fields of other types are refused by the comparison with the canonical form, whatever str() or dict() make of them. |
| Payloads.CanonicalInjective | harness2/kernel/payloads.py:127-129 | Equal canonical bytes mean equal payloads. |
| Payloads.ConstructedIsPayload | harness2/kernel/payloads.py:100-125 | Every constructed payload has bounded keys and maps nested at most 32 deep, and holds type, objective and the three maps it was given. |
| Payloads.ConstructorExact | harness2/kernel/payloads.py:100-125 | The constructor accepts exactly a name of 1 to 128 letters, digits and marks that starts with no mark, an objective of at most a mebibyte that is not blank, version 1, and three mappings that validate. |
| Payloads.KeyLimits | harness2/kernel/payloads.py:46-47 | Keys have 1 to 256 characters, at every depth. |
| Payloads.PayloadIsConstructed | harness2/kernel/payloads.py:100-125 | Every such payload is constructed from its own thawed maps. |
| Payloads.CanonicalExists | harness2/kernel/payloads.py:69-79 | A constructed payload has canonical bytes exactly when its three maps are nested less than 32 deep and the text is within the size limit. |
| Payloads.DeepestInputsRefused | harness2/kernel/payloads.py:109-129 | A payload whose inputs are nested 32 deep is constructed but has no canonical bytes. |
| Circuit.Trips | harness2/circuit.py:27-52 | For a caller that keeps failing, a closed circuit lets exactly the calls through that reach the threshold, opens with that failure, and afterwards lets the j-th call through no earlier than that failure plus the first j cooldowns. |
| Circuit.Backoff | harness2/circuit.py:27-52 | The same from any open circuit, or one that is half open again. |
| Circuit.CooldownExact | harness2/circuit.py:46-49 | The i-th cooldown after the first is the first doubled i times, up to the maximum. |
| Circuit.TotalExact | harness2/circuit.py:46-49 | The bound for the next call is the bound for this one plus the next cooldown. |
| Circuit.RowKept | harness2/circuit.py:27-52 | Looks, successes and failures in any order keep: closed exactly below the threshold, otherwise opened at a known time with a cooldown within its limits; a missing row reads as a closed one with a cooldown of 30 seconds. |
| Circuit.ProbeExact | harness2/circuit.py:27-35 | An open circuit lets a call through exactly when its cooldown is over. |
| Circuit.LookExact | harness2/circuit.py:27-35 | A look makes half open exactly an open circuit whose cooldown is over, and changes nothing else. |
| Circuit.FailureExact | harness2/circuit.py:42-52 | A failure counts one more; exactly at the threshold, or unless it was closed, the circuit is open since then, for twice as long within the limits. |
| Circuit.CircuitBreaker.Before | harness2/circuit.py:27-35 | The row in place becomes half open when its cooldown is over; the view shows the stored row, and other keys are untouched. |
| Circuit.CircuitBreaker.Success | harness2/circuit.py:37-40 | A success closes the one circuit and resets its failures and cooldown. |
| Circuit.CircuitBreaker.Failure | harness2/circuit.py:42-52 | The failure in place, and the view taken after it. |
| Fallback.FallbackExact | harness2/orchestrator.py:69-126 | Engines are tried in order and at most once, within the retries, only through a circuit that lets them; the loop stops at the first success, and short of one passes over no engine whose circuit would have let it through. |
| Fallback.TurnExact | harness2/orchestrator.py:82-117 | A candidate's turn changes its own circuit only: looked at, and after its last answer closed or with one more failure. |
| Fallback.FailuresCounted | harness2/orchestrator.py:108-117 | An engine that is called and fails has one more failure in its circuit, one that succeeds none. |
| Fallback.CircuitsExact | harness2/orchestrator.py:69-126 | In the end the circuits are as the turns that were taken, up to a success and otherwise all, left them. |
| Fallback.CallsExact | harness2/orchestrator.py:90-99 | An engine is called again exactly after a transient failure, up to the number of retries. |
| Fallback.SameEngine | harness2/orchestrator.py:66-126 | The recorded result and decision name the same engine exactly when an engine succeeded or the last registered candidate has the decision's name; the result is a success exactly when an engine succeeded. |
| Fallback.RouteExact | harness2/orchestrator.py:66-117 | The decision is that of the last engine tried; without a success the result is that of the last registered candidate, whose circuit was open if it was not tried. |
| Fallback.MixedRoute | harness2/orchestrator.py:82-86 | One engine fails and the next one's circuit is open: the decision names the first, the result the second. |
| Fallback.RunCandidates | harness2/orchestrator.py:66-117 | The loop over the candidates, with the breaker's rows in place, does what its specification says, and ends with the decision and the result it specifies. |
| Fallback.CallEngine | harness2/orchestrator.py:90-99 | The retry loop ends with the first answer that is not a transient failure, or with the last retry. |
| Prime.ParsePrime | harness2/events.py:502-575 | Strict parsing succeeds exactly when there are at most the allowed lines, each that is not blank is read as an event with what its type needs, one end of the run comes last, and no message is an error, by its own text, its error object or a bad stop; the text is that of the assistant's messages with immediate repetitions left out, the session the first one named; beyond the limit it tells what it has heard and event_limit. |
| Prime.ErrorExact | harness2/events.py:439-474 | A message is an error exactly with a text of its own; without one, with that of its error object unless it is empty; without any, with a stop reason of error or aborted, which makes the text. |
| Prime.CodeExact | harness2/events.py:455-474 | The code is that of the error object, else of the message, else the stop reason, else provider_error. |
| Streams.LastErrorExact | harness2/events.py:439-474 | The error told is that of the last message that is one, with its text and code. |
| Streams.StrictTold | harness2/events.py:298-307 | Without such a message a strict parse tells malformed lines first, and then records after the end. |
| Streams.CountersExact | harness2/events.py:519-549 | The counters are the numbers of malformed lines, of ends, and of lines after an end that are not blank, by the raw lines. |
| Prime.BlockTextExact | harness2/events.py:428-436 | What one block of a content adds to the text. |
| Prime.MessageTextExact | harness2/events.py:416-436 | A message says its content, or the texts of its blocks in order. |
| Prime.SpokenExact | harness2/events.py:477-499 | The message of an event that counts: the assistant's own, or at the end of the run the last of the assistant's. |
| Prime.TranscriptGrows | harness2/events.py:401-413 | A message that counts adds its text unless it equals the one before in role, stop reason, error and content. |
| Prime.SessionExact | harness2/events.py:551-572 | The session told is the one named by the first event that names any, itself or in its message. |
| Streams.NamedExact | harness2/events.py:551-572 | The session an event names: under the first of the three keys that holds a string, its own before its message's. |
| Prime.AcceptExact | harness2/events.py:298-307 | The parser's counters are all clear exactly for such streams. |
| Prime.Parser.ConsumeAgentEnd | harness2/events.py:477-499 | The two loops over the final messages: the error of the last message that has one, the text of the last assistant's message unless it was already told. |
| Prime.Parser.AppendText | harness2/events.py:416-436 | The text blocks of a message, in order. |
| Migrations.VerifyExact | harness2/kernel/migrations.py:361-380 | A history is accepted exactly when it records the first migrations of the list, unchanged. |
| Migrations.RefusalExact | harness2/kernel/migrations.py:361-380 | Why a history is refused: too new by its last version, else with gaps, else changed. |
| Migrations.MigrationsInterleave | harness2/kernel/migrations.py:382-418 | However processes interleave, fail and die, the history is always a prefix of the list that only grows, the statements of each recorded migration took effect once and in order, and a process that returns has reached its goal. |
| Migrations.ApplyKeeps | harness2/kernel/migrations.py:394-414 | One migration's transaction moves the schema forward by exactly that migration or not at all; the version it finds is never unexpected. |
| Migrations.ApplyExact | harness2/kernel/migrations.py:394-414 | The next migration is refused exactly if a statement fails or an earlier one has its name. |
| Migrations.BeginExact | harness2/kernel/migrations.py:382-393 | On a sound schema a process starts at its version, and is refused exactly for a target outside the list. |
| Migrations.TurnExact | harness2/kernel/migrations.py:382-418 | A process passes over versions it has or does not want, makes the others one by one, and stops exactly where one is refused. |
| Migrations.Migrator.ApplyOne | harness2/kernel/migrations.py:394-414 | The loop over the statements, in place; a failing statement undoes them all. |
| Migrations.Migrator.Migrate | harness2/kernel/migrations.py:382-418 | The loop over the migrations of a process that is alone, on any history: one that is newer, has gaps or has drifted is refused and stays as it is; from an accepted one it reaches its goal or stops where a statement fails, and only the migrations added took effect. |

## Left out

- Floating-point numbers in JSON values: numerals with a fraction or exponent are refused by `Json.Loads`, and payloads hold none; for `Prime.ParsePrime` the JSON reader is a parameter.
- Strings with lone surrogates, and escapes that denote them.
- Database.EventBus.Append: does not model `recorded_at`, and takes events whose mandatory texts are not blank and whose payloads are within their limits, as TypedEvent ensures at construction.
- Database.EventBus.Replay: does not model gaps in the sequence numbers; an event's number is its position in the log, since events are never deleted.
- TaskEffects.SubmitExact: does not model that a request is refused whose hashed fields, constraints, budget or submission exceed 65536 bytes as canonical JSON.
- Inputs.CreateExact: does not model the same refusals, which for the hashed fields cover the inputs.
- Inputs.CreateSucceeds: does not model the same refusals.
- JobProgress.SubmitProgress: does not model the same refusals.
- TaskEffects.ClaimExact: does not model that a plan of more than 65536 bytes as canonical JSON is refused.
- TaskEffects.TransitionExact: does not model that an event of more than 65536 bytes, for a reason that long, is refused when it is constructed.
- TaskEffects.CompleteExact: does not model the same refusal for an error code that long.
- Refusals.OnlyGuards: does not model any of these refusals by size.
- JobProgress.FinishProgress: does not model the same refusal for an error code that long.
- JobSteps.SubmitJobKeeps: requires that no task is named after the new job's identifier; `QueueRuns.AgainExact` is the other case.
- Unmapped jobs have no task, so the projection and the progress of claims say nothing of them beyond their quarantine.
- Recovery.RecoverExact: takes the rows of the query as given; the order among equal lease times is open, as it is in the program.
- The fields of a task that only describe it (objective hash, capabilities, constraints, budget, preferred runtime) appear only in the submission that its hash stands for.
- Snapshots of task types, the check of task type descriptors, and loading a task's payload again.
- Encryption, key derivation and files of the object store: an object is written once and authenticated for one binding; media type, envelope version, key identifier and creation time of a reference are not modelled.
- Checkpoints.LatestCheckpoint: reads with payload verification, its default; without it the objects are not looked at.
- CheckpointBinding.ChainBinding: says nothing of `created_at` and `event_id`, which the hash does not cover.
- Audit.AuditBinding: covers the time of a row to the microsecond, as it is printed.
- Execution.CallsWithinBudget: takes the planner's and the drivers' answers as given, and the validation of a plan as part of the planner's answer; the budget counts calls of drivers by `execute` only.
- Verdicts.ReportsTell: takes the hash of an outcome as part of the driver's answer; that an exception or an outcome for another plan counts as the answer `driver_exception` is not modelled.
- LoneExecution.ExecutesAlone: is for a request the planner has a plan for; what the caller of `execute` is answered is not modelled.
- Payloads.ConstructorExact: takes the three maps to be mappings, as their types say; what dict() makes of other values is not modelled.
- Payloads.FromCanonical: does not model Python's limits on recursion and on the digits of integers; all errors of the codec are one refusal.
- Prime.ParsePrime: fingerprints compare the four values themselves, which differs from the program only for `errorMessage` or `stopReason` objects that differ in the order of their keys.
- Circuit.Trips: is for one caller at a time; a look and the saving of a row are two transactions, so concurrent callers can overwrite each other.
- Fallback.RunCandidates: does not model how the list of candidates is made, the waits between retries, and what is recorded of each try; an engine's results carry its own name.
- Migrations.MigrationsInterleave: is for processes with the same list of migrations; checksums are compared, not computed.
- OpenCode streams, failure normalisation, keyword routing, session service rows, job payload files, source snapshots, adapters, service loop, configuration and command line.
- SQL itself: a transaction is one atomic step on the tables, and the row order of a query without ORDER BY is open.
