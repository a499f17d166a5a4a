/**
 What `transition` alone can do to a task's row. Every other step of the system leaves a
 running task with an attempt and a retrying task with budget; a transition does not look.
 */
module PlainMoves {
  import opened ForeignCancel
  import opened Inputs
  import opened JobSteps
  import opened System
  import opened Tables
  import opened TaskEffects
  import opened Wrappers
  import Checkpoints
  import CheckpointInvariants
  import EventLog
  import Jobs
  import Json
  import Keys
  import Recovery
  import TaskInvariants
  import TaskOutcomes
  import Tasks

  /** What a reader of the task table might rely on: a running task has an attempt, a retrying task has attempts left. */
  datatype Promise = RunningHasAttempt | RetryingHasBudget

  predicate Meets(task: Task, p: Promise) {
    match p
    case RunningHasAttempt => task.state == Running ==> task.active.Some?
    case RetryingHasBudget => task.state == Retrying ==> task.attemptsStarted < task.maxAttempts
  }

  predicate MeetsBoth(task: Task) {
    Meets(task, RunningHasAttempt) && Meets(task, RetryingHasBudget)
  }

  ghost predicate Holds(db: Db, p: Promise) {
    forall t :: t in db.tasks ==> Meets(db.tasks[t], p)
  }

  /** The committed transitions to running; those to retrying of a task whose attempts are used up. */
  predicate Breaks(db: Db, op: Op, now: Time, p: Promise) {
    && op.Move? && op.taskId in db.tasks
    && Tasks.Transition(db, op.stamp, op.taskId, op.to, op.reason, op.causation, now).Done?
    && IsBad(db.tasks[op.taskId], op.to, p)
  }

  predicate IsBad(task: Task, to: TaskState, p: Promise) {
    match p
    case RunningHasAttempt => to == Running
    case RetryingHasBudget => to == Retrying && task.attemptsStarted >= task.maxAttempts
  }

  // ----- the steps that are not transitions

  /** Every row is as it was, or meets both promises. */
  ghost predicate WritesOnly(before: map<string, Task>, after: map<string, Task>) {
    forall t :: t in after ==> (t in before && after[t] == before[t]) || MeetsBoth(after[t])
  }

  lemma WritesOnlyTransitive(a: map<string, Task>, b: map<string, Task>, c: map<string, Task>)
    requires WritesOnly(a, b) && WritesOnly(b, c)
    ensures WritesOnly(a, c)
  {
  }

  lemma SubmitWrites(db: Db, stamp: Stamp, r: Tasks.Request, now: Time)
    ensures WritesOnly(db.tasks, Commit(db, Tasks.Submit(db, stamp, r, now)).tasks)
  {
    hide Tasks.Submit;
    if Tasks.Submit(db, stamp, r, now).Done? {
      SubmitRow(db, stamp, r, now);
    }
  }

  lemma CreateWrites(db: Db, stamp: Stamp, bound: Stamp, r: Tasks.Request, reference: Reference, now: Time)
    ensures WritesOnly(db.tasks, Commit(db, Checkpoints.CreateTask(db, stamp, bound, r, reference, now)).tasks)
  {
    hide Tasks.Submit, Bind, Checkpoints.CreateTask;
    CreateUnfolds(db, stamp, bound, r, reference, now);
    if Checkpoints.CreateTask(db, stamp, bound, r, reference, now).Done? {
      SubmitWrites(db, stamp, r, now);
      BindUnfolds(Tasks.Submit(db, stamp, r, now).db, bound, r, reference);
    }
  }

  lemma CancelWrites(db: Db, stamp: Stamp, t: string, lease: Option<Lease>, now: Time)
    ensures WritesOnly(db.tasks, Commit(db, Tasks.Cancel(db, stamp, t, lease, now)).tasks)
  {
    hide Tasks.Cancel;
    if Tasks.Cancel(db, stamp, t, lease, now).Done? {
      TaskOutcomes.CancelDone(db, stamp, t, lease, now);
    }
  }

  lemma RetryWrites(db: Db, stamp: Stamp, t: string, now: Time)
    ensures WritesOnly(db.tasks, Commit(db, Tasks.Retry(db, stamp, t, now)).tasks)
  {
    hide Tasks.Retry;
    if Tasks.Retry(db, stamp, t, now).Done? {
      RetryTables(db, stamp, t, now);
    }
  }

  lemma ClaimWrites(db: Db, stamp: Stamp, a: string, t: string, plan: Plan, owner: string, leaseSeconds: int, now: Time)
    ensures WritesOnly(db.tasks, Commit(db, Tasks.Claim(db, stamp, a, t, plan, owner, leaseSeconds, now)).tasks)
  {
    hide Tasks.Claim;
    if Tasks.Claim(db, stamp, a, t, plan, owner, leaseSeconds, now).Done? {
      ClaimTables(db, stamp, a, t, plan, owner, leaseSeconds, now);
    }
  }

  lemma RenewWrites(db: Db, stamp: Stamp, lease: Lease, leaseSeconds: int, now: Time)
    ensures WritesOnly(db.tasks, Commit(db, Tasks.Renew(db, stamp, lease, leaseSeconds, now)).tasks)
  {
    hide Tasks.Renew;
    if Tasks.Renew(db, stamp, lease, leaseSeconds, now).Done? {
      RenewTables(db, stamp, lease, leaseSeconds, now);
    }
  }

  lemma CompleteWrites(db: Db, stamp: Stamp, lease: Lease, success: bool, outcomeHash: string, errorCode: Option<string>,
                       retryable: bool, retryAt: Option<Time>, now: Time)
    ensures WritesOnly(db.tasks,
      Commit(db, Tasks.Complete(db, stamp, lease, success, outcomeHash, errorCode, retryable, retryAt, now)).tasks)
  {
    hide Tasks.Complete;
    if Tasks.Complete(db, stamp, lease, success, outcomeHash, errorCode, retryable, retryAt, now).Done? {
      CompleteTables(db, stamp, lease, success, outcomeHash, errorCode, retryable, retryAt, now);
    }
  }

  lemma ExpireWrites(db: Db, stamp: Stamp, t: string, a: string, target: TaskState, now: Time)
    requires t in db.tasks && target in {Recovering, Failed}
    ensures WritesOnly(db.tasks, Commit(db, Tasks.Expire(db, stamp, t, a, target, now)).tasks)
  {
    hide Tasks.Expire;
    if Tasks.Expire(db, stamp, t, a, target, now).Done? {
      ExpireTables(db, stamp, t, a, target, now);
    }
  }

  lemma {:induction false} RecoverWrites(db: Db, stamps: seq<Stamp>, rows: seq<string>, now: Time)
    requires |stamps| == |rows|
    ensures WritesOnly(db.tasks, Commit(db, Tasks.Recover(db, stamps, rows, now)).tasks)
    decreases |rows|
  {
    hide WritesOnly, Tasks.Expire;
    assert WritesOnly(db.tasks, db.tasks) by {
      NothingWritten(db.tasks);
    }
    if rows != [] {
      if rows[0] !in db.attempts || db.attempts[rows[0]].taskId !in db.tasks {
        RecoverWrites(db, stamps[1..], rows[1..], now);
      } else {
        var t := db.attempts[rows[0]].taskId;
        var first := Tasks.Expire(db, stamps[0], t, rows[0], Tasks.RecoveryState(db.tasks[t]), now);
        ExpireWrites(db, stamps[0], t, rows[0], Tasks.RecoveryState(db.tasks[t]), now);
        if first.Done? {
          RecoverWrites(first.db, stamps[1..], rows[1..], now);
          WritesOnlyTransitive(db.tasks, first.db.tasks, Commit(first.db, Tasks.Recover(first.db, stamps[1..], rows[1..], now)).tasks);
        }
      }
    }
  }

  lemma NothingWritten(tasks: map<string, Task>)
    ensures WritesOnly(tasks, tasks)
  {
  }

  lemma StaleWrites(db: Db, stamp: Stamp, j: string, now: Time)
    ensures WritesOnly(db.tasks, Commit(db, Jobs.RecoverStaleJob(db, stamp, j, now)).tasks)
  {
    hide Tasks.Expire, WritesOnly;
    NothingWritten(db.tasks);
    if j in db.mappings && db.mappings[j].taskId in db.tasks && db.tasks[db.mappings[j].taskId].active.Some? {
      var t := db.mappings[j].taskId;
      ExpireWrites(db, stamp, t, db.tasks[t].active.value, Failed, now);
    }
  }

  lemma {:induction false} StaleJobsWrite(db: Db, stamps: seq<Stamp>, rows: seq<string>, now: Time)
    requires |stamps| == |rows|
    ensures WritesOnly(db.tasks, Commit(db, Jobs.RecoverStaleJobs(db, stamps, rows, now)).tasks)
    decreases |rows|
  {
    hide WritesOnly, Jobs.RecoverStaleJob;
    NothingWritten(db.tasks);
    if rows != [] {
      StaleWrites(db, stamps[0], rows[0], now);
      var first := Jobs.RecoverStaleJob(db, stamps[0], rows[0], now);
      if first.Done? {
        StaleJobsWrite(first.db, stamps[1..], rows[1..], now);
        WritesOnlyTransitive(db.tasks, first.db.tasks, Commit(first.db, Jobs.RecoverStaleJobs(first.db, stamps[1..], rows[1..], now)).tasks);
      }
    }
  }

  lemma ClaimJobWrites(db: Db, ids: Jobs.ClaimIds, j: string, owner: string, leaseSeconds: int, now: Time)
    requires j in db.jobs
    ensures WritesOnly(db.tasks, Commit(db, Jobs.ClaimJob(db, ids, j, owner, leaseSeconds, now)).tasks)
  {
    hide WritesOnly, ClaimTask, EventLog.AppendTo;
    NothingWritten(db.tasks);
    if j in db.mappings && db.mappings[j].taskId in db.tasks {
      ClaimJobUnfolds(db, ids, j, owner, leaseSeconds, now);
      hide Jobs.ClaimJob;
      ClaimTaskWrites(db, ids, db.mappings[j].taskId, Jobs.Runtime(db.jobs[j]), owner, LeaseSeconds(db.jobs[j], leaseSeconds), now);
    }
  }

  lemma ClaimTaskWrites(db: Db, ids: Jobs.ClaimIds, t: string, engine: string, owner: string, leaseSeconds: int, now: Time)
    ensures WritesOnly(db.tasks, Commit(db, ClaimTask(db, ids, t, engine, owner, leaseSeconds, now)).tasks)
  {
    hide ClaimTask;
    if ClaimTask(db, ids, t, engine, owner, leaseSeconds, now).Done? {
      ClaimTaskTables(db, ids, t, engine, owner, leaseSeconds, now);
    }
  }

  lemma CancelJobWrites(db: Db, stamp: Stamp, j: string, now: Time)
    ensures WritesOnly(db.tasks, Commit(db, Jobs.CancelJob(db, stamp, j, now)).tasks)
  {
    hide Tasks.Advance;
    if j in db.mappings && db.mappings[j].taskId in db.tasks {
      var t := db.mappings[j].taskId;
      var task, row := db.tasks[t], Tasks.CancelledRow(db.tasks[t], now);
      var e := Tasks.MovedEvent(stamp, t, "task.cancelled", task, Cancelled, "user.cancelled");
      var tr := Tasks.NewTransition(stamp, t, None, Some(task.state), row, "user.cancelled", now);
      if Tasks.Advance(db, t, row, db.attempts, e, tr).Done? {
        AdvanceTables(db, t, row, db.attempts, e, tr);
      }
    }
  }

  lemma SubmitJobWrites(db: Db, stamp: Stamp, bound: Stamp, j: string, requestHash: string, engine: string, timeout: int,
                        maxAttempts: int, reference: Reference, now: Time)
    ensures WritesOnly(db.tasks,
      Commit(db, Jobs.SubmitJob(db, stamp, bound, j, requestHash, engine, timeout, maxAttempts, reference, now)).tasks)
  {
    hide WritesOnly, Checkpoints.CreateTask;
    NothingWritten(db.tasks);
    CreateWrites(db.(jobs := db.jobs[j := Jobs.NewJob(engine, timeout, maxAttempts, now)]), stamp, bound,
      Jobs.TaskRequest(j, requestHash, maxAttempts), reference, now);
  }

  lemma FinishJobWrites(db: Db, stamp: Stamp, j: string, claimed: Job, attempt: nat, lease: Lease, result: Jobs.WorkResult, now: Time)
    ensures WritesOnly(db.tasks, Commit(db, Jobs.FinishJob(db, stamp, j, claimed, attempt, lease, result, now)).tasks)
  {
    hide WritesOnly, Tasks.Complete;
    NothingWritten(db.tasks);
    CompleteWrites(db, stamp, lease, result.success, result.outcomeHash, result.errorCode,
      Jobs.AsksRetry(claimed, attempt, result), Some(Jobs.NextRun(claimed, attempt, result, now)), now);
  }

  lemma RetryJobWrites(db: Db, stamp: Stamp, j: string, now: Time, later: Time)
    ensures WritesOnly(db.tasks, Commit(db, Jobs.RetryJob(db, stamp, j, now, later)).tasks)
  {
    hide WritesOnly, Tasks.Retry;
    NothingWritten(db.tasks);
    if j in db.mappings {
      RetryWrites(db, stamp, db.mappings[j].taskId, now);
    }
  }

  lemma CheckpointWrites(db: Db, sha: Checkpoints.Sha, stamp: Stamp, lease: Lease, reference: Reference, step: string,
                         versions: map<string, Json.Json>, resumable: bool, now: Time)
    ensures Commit(db, Checkpoints.MakeCheckpoint(db, sha, stamp, lease, reference, step, versions, resumable, now)).tasks == db.tasks
  {
    hide Checkpoints.MakeCheckpoint, EventLog.AppendTo, Checkpoints.InsertReference;
    if Checkpoints.MakeCheckpoint(db, sha, stamp, lease, reference, step, versions, resumable, now).Done? {
      CheckpointInvariants.MakeUnfolds(db, sha, stamp, lease, reference, step, versions, resumable, now);
      CheckpointInvariants.InsertedReference(db, reference);
    }
  }

  /** The steps of the job queue. */
  lemma QueueStepWrites(db: Db, sha: Checkpoints.Sha, op: Op, now: Time)
    requires CanHappen(db, op, now)
    requires op.SubmitJob? || op.RecoverStale? || op.ClaimJob? || op.FinishJob? || op.CancelJob? || op.RetryJob? || op.DeleteJob?
    ensures WritesOnly(db.tasks, After(db, sha, op, now).tasks)
  {
    hide WritesOnly, Jobs.SubmitJob, Jobs.RecoverStaleJobs, Jobs.ClaimJob, Jobs.FinishJob, Jobs.CancelJob, Jobs.RetryJob, AllStale;
    NothingWritten(db.tasks);
    match op {
      case SubmitJob(stamp, bound, j, hash, engine, timeout, most, reference) =>
        SubmitJobWrites(db, stamp, bound, j, hash, engine, timeout, most, reference, now);
      case RecoverStale(stamps, rows) => StaleJobsWrite(db, stamps, rows, now);
      case ClaimJob(ids, j, owner, seconds) => ClaimJobWrites(db, ids, j, owner, seconds, now);
      case FinishJob(stamp, j, claimed, attempt, lease, result) => FinishJobWrites(db, stamp, j, claimed, attempt, lease, result, now);
      case CancelJob(stamp, j) => CancelJobWrites(db, stamp, j, now);
      case RetryJob(stamp, j, later) => RetryJobWrites(db, stamp, j, now, later);
      case DeleteJob(j) =>
    }
  }

  lemma StepWrites(db: Db, sha: Checkpoints.Sha, op: Op, now: Time)
    requires CanHappen(db, op, now) && !op.Move?
    ensures WritesOnly(db.tasks, After(db, sha, op, now).tasks)
  {
    hide WritesOnly, Recovery.Expirable, AllStale, Checkpoints.Authenticates, Jobs.SubmitJob, Jobs.RecoverStale, Jobs.ClaimJob,
      Jobs.FinishJob, Jobs.CancelJob, Jobs.RetryJob, Jobs.DeleteJob, Checkpoints.CreateTask, Checkpoints.MakeCheckpoint, Tasks.Recover,
      EventLog.AppendTo, Tasks.Submit, Tasks.Transition, Tasks.Cancel, Tasks.Retry, Tasks.Claim, Tasks.Renew, Tasks.Complete;
    NothingWritten(db.tasks);
    match op {
      case Submit(stamp, r) => SubmitWrites(db, stamp, r, now);
      case Cancel(stamp, t, lease) => CancelWrites(db, stamp, t, lease, now);
      case Retry(stamp, t) => RetryWrites(db, stamp, t, now);
      case Claim(stamp, a, t, plan, owner, seconds) => ClaimWrites(db, stamp, a, t, plan, owner, seconds, now);
      case Renew(stamp, lease, seconds) => RenewWrites(db, stamp, lease, seconds, now);
      case Complete(stamp, lease, success, outcome, error, retryable, retryAt) =>
        CompleteWrites(db, stamp, lease, success, outcome, error, retryable, retryAt, now);
      case Recover(stamps, rows) => RecoverWrites(db, stamps, rows, now);
      case Create(stamp, bound, r, reference) => CreateWrites(db, stamp, bound, r, reference, now);
      case Put(stored) =>
      case Checkpoint(stamp, lease, reference, step, versions, resumable) =>
        CheckpointWrites(db, sha, stamp, lease, reference, step, versions, resumable, now);
      case Publish(e) =>
      case Acknowledge(consumer, through) =>
      case _ => QueueStepWrites(db, sha, op, now);
    }
  }

  // ----- which steps break a promise

  lemma MovedHolds(db: Db, after: Db, t: string, to: TaskState, now: Time, p: Promise)
    requires Holds(db, p) && t in db.tasks && db.tasks[t].active.None?
    requires after.tasks == db.tasks[t := Tasks.MovedRow(db.tasks[t], to, now)]
    ensures Holds(after, p) <==> !IsBad(db.tasks[t], to, p)
  {
    assert after.tasks[t] == Tasks.MovedRow(db.tasks[t], to, now);
  }

  /** A promise that holds is broken by exactly these transitions. */
  lemma StepHolds(db: Db, sha: Checkpoints.Sha, op: Op, now: Time, p: Promise)
    requires Holds(db, p) && CanHappen(db, op, now)
    ensures Holds(After(db, sha, op, now), p) <==> !Breaks(db, op, now, p)
  {
    if op.Move? {
      hide Tasks.Transition, Holds;
      if Tasks.Transition(db, op.stamp, op.taskId, op.to, op.reason, op.causation, now).Done? {
        MoveTables(db, op.stamp, op.taskId, op.to, op.reason, op.causation, now);
        MovedHolds(db, After(db, sha, op, now), op.taskId, op.to, now, p);
      }
    } else {
      hide CanHappen, After;
      StepWrites(db, sha, op, now);
    }
  }

  // ----- runs

  ghost predicate HoldsThroughout(db: Db, sha: Checkpoints.Sha, start: Time, steps: seq<Step>, p: Promise)
    requires IsRun(db, sha, start, steps)
    decreases |steps|
  {
    Holds(db, p)
    && (steps == [] || HoldsThroughout(After(db, sha, steps[0].op, steps[0].now), sha, steps[0].now, steps[1..], p))
  }

  ghost predicate NeverBreaks(db: Db, sha: Checkpoints.Sha, start: Time, steps: seq<Step>, p: Promise)
    requires IsRun(db, sha, start, steps)
    decreases |steps|
  {
    steps == [] ||
    (!Breaks(db, steps[0].op, steps[0].now, p)
     && NeverBreaks(After(db, sha, steps[0].op, steps[0].now), sha, steps[0].now, steps[1..], p))
  }

  /** A promise holds at every moment of a run exactly when no step of the run is one of these transitions. */
  lemma {:induction false} RunHolds(db: Db, sha: Checkpoints.Sha, start: Time, steps: seq<Step>, p: Promise)
    requires Holds(db, p) && IsRun(db, sha, start, steps)
    ensures HoldsThroughout(db, sha, start, steps, p) <==> NeverBreaks(db, sha, start, steps, p)
    ensures NeverBreaks(db, sha, start, steps, p) ==> Holds(Final(db, sha, start, steps), p)
    decreases |steps|
  {
    hide Holds, CanHappen, After, Breaks;
    if steps != [] {
      var next := After(db, sha, steps[0].op, steps[0].now);
      StepHolds(db, sha, steps[0].op, steps[0].now, p);
      if Holds(next, p) {
        RunHolds(next, sha, steps[0].now, steps[1..], p);
      }
    }
  }

  /** Without transitions to running, the running tasks are exactly those with an active attempt. */
  lemma RunningIsActive(db: Db, sha: Checkpoints.Sha, start: Time, steps: seq<Step>)
    requires Sound(db, sha) && Holds(db, RunningHasAttempt) && IsRun(db, sha, start, steps)
    requires NeverBreaks(db, sha, start, steps, RunningHasAttempt)
    ensures var end := Final(db, sha, start, steps);
      forall t :: t in end.tasks ==> (end.tasks[t].state == Running <==> end.tasks[t].active.Some?)
  {
    hide Sound, IsRun, Final, NeverBreaks;
    RunSound(db, sha, start, steps);
    RunHolds(db, sha, start, steps, RunningHasAttempt);
    var end := Final(db, sha, start, steps);
    SoundInv(end, sha);
    forall t | t in end.tasks && end.tasks[t].active.Some?
      ensures end.tasks[t].state == Running
    {
      ActiveRuns(end, t);
    }
  }

  lemma ActiveRuns(db: Db, t: string)
    requires TaskInvariants.Inv(db) && t in db.tasks && db.tasks[t].active.Some?
    ensures db.tasks[t].state == Running
  {
    hide TaskInvariants.HistoryInv, TaskInvariants.EventsInv, TaskInvariants.RowsInv;
    TaskInvariants.ActiveRow(db, t);
  }

  // ----- two runs that break them

  const T: string := "t"
  const LEASE: Lease := Lease("attempt", T, 1, 1, "owner", 600.0, Plan("p", T, "r"))

  /** A task with one attempt is submitted, planned and made ready. */
  const PREPARATION: seq<Step> := [
    Step(Submit(Numbered("1"), RequestFor(T)), 0.0),
    Step(Move(Numbered("2"), T, Planned, "plan.created", None), 0.0),
    Step(Move(Numbered("3"), T, Ready, "plan.ready", None), 0.0)]

  const TO_RUNNING: seq<Step> := [Step(Move(Numbered("4"), T, Running, "by hand", None), 0.0)]

  const TO_RETRYING: seq<Step> := [
    Step(Claim(Numbered("4"), "attempt", T, Plan("p", T, "r"), "owner", 600), 0.0),
    Step(Complete(Numbered("5"), LEASE, false, "", None, false, None), 0.0),
    Step(Move(Numbered("6"), T, Retrying, "by hand", None), 0.0)]

  ghost predicate FreshBut(db: Db, used: set<string>) {
    forall n :: n !in used ==> Fresh(db, Numbered(n))
  }

  /** The task as it stands, in a database where only the numbered stamps are used. */
  ghost predicate Stands(db: Db, row: Task, used: set<string>) {
    TaskInvariants.Inv(db) && db.tasks == map[T := row] && FreshBut(db, used)
  }

  lemma StampUsed(db: Db, row: Task, attempts: map<string, Attempt>, e: Event, tr: TransitionRow, n: string, used: set<string>)
    requires FreshBut(db, used) && e.id == Numbered(n).eventId && tr.id == Numbered(n).transitionId
    ensures FreshBut(Advanced(db, T, row, attempts, e, tr), used + {n})
  {
    hide Fresh, Advanced, Apart, Numbered;
    StampsDiffer();
    forall m | m !in used + {n}
      ensures Fresh(Advanced(db, T, row, attempts, e, tr), Numbered(m))
    {
      AdvancedFresh(db, T, row, attempts, e, tr, Numbered(n), Numbered(m));
    }
  }

  lemma SubmitStands()
    ensures var o := Tasks.Submit(EMPTY, Numbered("1"), RequestFor(T), 0.0);
      o.Done? && Stands(o.db, Tasks.NewRow(RequestFor(T), 0.0), {"1"}) && o.db.attempts == map[]
  {
    hide TaskInvariants.Inv, Fresh, Tasks.Submit, Numbered, TaskInvariants.Evolves;
    EmptyInv();
    var r, row := RequestFor(T), Tasks.NewRow(RequestFor(T), 0.0);
    SubmitExact(EMPTY, Numbered("1"), r, 0.0);
    TaskInvariants.SubmitKeeps(EMPTY, Numbered("1"), r, 0.0);
    var e := Tasks.KernelEvent(Numbered("1"), "task.created", T, Keys.Created(T), Submitted(Tasks.SubmissionOf(r)));
    StampUsed(EMPTY, row, map[], e, Tasks.NewTransition(Numbered("1"), T, None, None, row, "submitted", 0.0), "1", {});
    assert {} + {"1"} == {"1"};
  }

  lemma MoveStands(db: Db, n: string, row: Task, used: set<string>, to: TaskState, reason: string)
    requires Stands(db, row, used) && n !in used && row.active.None? && to in AllowedTransitions(row.state)
    ensures var o := Tasks.Transition(db, Numbered(n), T, to, reason, None, 0.0);
      o.Done? && Stands(o.db, Tasks.MovedRow(row, to, 0.0), used + {n}) && o.db.attempts == db.attempts
  {
    hide TaskInvariants.Inv, Fresh, Tasks.Transition, Numbered, TaskInvariants.Evolves;
    TransitionExact(db, Numbered(n), T, to, reason, None, 0.0);
    TaskInvariants.TransitionKeeps(db, Numbered(n), T, to, reason, None, 0.0);
    var next := Tasks.MovedRow(row, to, 0.0);
    StampUsed(db, next, db.attempts,
      Tasks.MovedEvent(Numbered(n), T, "task." + StateName(to), row, to, reason).(causationId := None),
      Tasks.NewTransition(Numbered(n), T, None, Some(row.state), next, reason, 0.0), n, used);
  }

  function ReadyRow(): Task {
    Tasks.MovedRow(Tasks.MovedRow(Tasks.NewRow(RequestFor(T), 0.0), Planned, 0.0), Ready, 0.0)
  }

  /** The database after the preparation. */
  ghost function Prepared(sha: Checkpoints.Sha): Db {
    var one := After(EMPTY, sha, PREPARATION[0].op, 0.0);
    After(After(one, sha, PREPARATION[1].op, 0.0), sha, PREPARATION[2].op, 0.0)
  }

  lemma PreparationStands(sha: Checkpoints.Sha)
    ensures Stands(Prepared(sha), ReadyRow(), {"1", "2", "3"}) && Prepared(sha).attempts == map[]
  {
    hide Stands, Tasks.Submit, Tasks.Transition, Numbered;
    SubmitStands();
    var one := Tasks.Submit(EMPTY, Numbered("1"), RequestFor(T), 0.0).db;
    MoveStands(one, "2", Tasks.NewRow(RequestFor(T), 0.0), {"1"}, Planned, "plan.created");
    var two := Tasks.Transition(one, Numbered("2"), T, Planned, "plan.created", None, 0.0).db;
    MoveStands(two, "3", Tasks.MovedRow(Tasks.NewRow(RequestFor(T), 0.0), Planned, 0.0), {"1"} + {"2"}, Ready, "plan.ready");
    assert {"1"} + {"2"} + {"3"} == {"1", "2", "3"};
  }

  lemma PreparationRuns(sha: Checkpoints.Sha, rest: seq<Step>)
    requires IsRun(Prepared(sha), sha, 0.0, rest)
    ensures IsRun(EMPTY, sha, 0.0, PREPARATION + rest)
    ensures Final(EMPTY, sha, 0.0, PREPARATION + rest) == Final(Prepared(sha), sha, 0.0, rest)
  {
    hide IsRun, Final, Tasks.Submit, Tasks.Transition, Numbered;
    var one := After(EMPTY, sha, PREPARATION[0].op, 0.0);
    var two := After(one, sha, PREPARATION[1].op, 0.0);
    RunStarts(two, sha, 0.0, PREPARATION[2], rest);
    RunStarts(one, sha, 0.0, PREPARATION[1], [PREPARATION[2]] + rest);
    RunStarts(EMPTY, sha, 0.0, PREPARATION[0], [PREPARATION[1]] + ([PREPARATION[2]] + rest));
    assert PREPARATION + rest == [PREPARATION[0]] + ([PREPARATION[1]] + ([PREPARATION[2]] + rest));
  }

  /** A task that runs without an attempt. */
  lemma RunningReached(sha: Checkpoints.Sha)
    ensures IsRun(EMPTY, sha, 0.0, PREPARATION + TO_RUNNING) && Holds(EMPTY, RunningHasAttempt)
    ensures var end := Final(EMPTY, sha, 0.0, PREPARATION + TO_RUNNING);
      T in end.tasks && end.tasks[T].state == Running && end.tasks[T].active.None? && !Holds(end, RunningHasAttempt)
  {
    hide Tasks.Transition, Numbered, FreshBut, TaskInvariants.Inv, Prepared;
    PreparationStands(sha);
    MoveStands(Prepared(sha), "4", ReadyRow(), {"1", "2", "3"}, Running, "by hand");
    RunStarts(Prepared(sha), sha, 0.0, TO_RUNNING[0], []);
    assert TO_RUNNING == [TO_RUNNING[0]] + [];
    PreparationRuns(sha, TO_RUNNING);
  }

  lemma ClaimStands(db: Db)
    requires Stands(db, ReadyRow(), {"1", "2", "3"}) && db.attempts == map[]
    ensures var o := Tasks.Claim(db, Numbered("4"), "attempt", T, Plan("p", T, "r"), "owner", 600, 0.0);
      && o.Done? && Stands(o.db, Tasks.ClaimedRow(ReadyRow(), "attempt", 0.0), {"1", "2", "3", "4"})
      && Tasks.Authoritative(o.db, LEASE, 0.0)
  {
    hide TaskInvariants.Inv, Fresh, Tasks.Claim, Numbered, TaskInvariants.Evolves;
    var plan, row := Plan("p", T, "r"), Tasks.ClaimedRow(ReadyRow(), "attempt", 0.0);
    ClaimExact(db, Numbered("4"), "attempt", T, plan, "owner", 600, 0.0);
    TaskInvariants.ClaimKeeps(db, Numbered("4"), "attempt", T, plan, "owner", 600, 0.0);
    var attempt := Tasks.NewAttempt(T, ReadyRow(), plan, "owner", 600, 0.0);
    StampUsed(db, row, db.attempts["attempt" := attempt], Tasks.StartedEvent(Numbered("4"), T, "attempt", attempt),
      Tasks.NewTransition(Numbered("4"), T, Some("attempt"), Some(Ready), row, "attempt.started", 0.0), "4", {"1", "2", "3"});
    assert {"1", "2", "3"} + {"4"} == {"1", "2", "3", "4"};
  }

  lemma CompleteStands(db: Db, row: Task)
    requires Stands(db, row, {"1", "2", "3", "4"}) && Tasks.Authoritative(db, LEASE, 0.0)
    ensures var o := Tasks.Complete(db, Numbered("5"), LEASE, false, "", None, false, None, 0.0);
      o.Done? && Stands(o.db, Tasks.CompletedRow(row, false, "", None, false, None, 0.0), {"1", "2", "3", "4", "5"})
  {
    hide TaskInvariants.Inv, Fresh, Tasks.Complete, Numbered, TaskInvariants.Evolves, Tasks.CloseAttempt, Tasks.Authoritative;
    CompleteExact(db, Numbered("5"), LEASE, false, "", None, false, None, 0.0);
    TaskInvariants.CompleteKeeps(db, Numbered("5"), LEASE, false, "", None, false, None, 0.0);
    var next := Tasks.CompletedRow(row, false, "", None, false, None, 0.0);
    StampUsed(db, next, Tasks.CloseAttempt(db.attempts, "attempt", AttemptFailed, Some(""), None, 0.0),
      Tasks.CompletedEvent(Numbered("5"), LEASE, next.state, false, "", None),
      Tasks.NewTransition(Numbered("5"), T, Some("attempt"), Some(row.state), next, "attempt.completed", 0.0), "5",
      {"1", "2", "3", "4"});
    assert {"1", "2", "3", "4"} + {"5"} == {"1", "2", "3", "4", "5"};
  }

  /** A task that is retrying with its only attempt used up. */
  lemma RetryingReached(sha: Checkpoints.Sha)
    ensures IsRun(EMPTY, sha, 0.0, PREPARATION + TO_RETRYING) && Holds(EMPTY, RetryingHasBudget)
    ensures var end := Final(EMPTY, sha, 0.0, PREPARATION + TO_RETRYING);
      && T in end.tasks && end.tasks[T].state == Retrying && end.tasks[T].attemptsStarted == end.tasks[T].maxAttempts == 1
      && !Holds(end, RetryingHasBudget)
  {
    hide IsRun, Final, After, CanHappen, ReadyRow, Prepared;
    RetryingStands(sha);
    RetryingRuns(sha);
    PreparationRuns(sha, TO_RETRYING);
  }

  /** The database after the claim, and after the completion that fails. */
  ghost function Claimed(sha: Checkpoints.Sha): Db {
    After(Prepared(sha), sha, TO_RETRYING[0].op, 0.0)
  }

  ghost function FailedOnce(sha: Checkpoints.Sha): Db {
    After(Claimed(sha), sha, TO_RETRYING[1].op, 0.0)
  }

  lemma RetryingRuns(sha: Checkpoints.Sha)
    ensures IsRun(Prepared(sha), sha, 0.0, TO_RETRYING)
    ensures Final(Prepared(sha), sha, 0.0, TO_RETRYING) == After(FailedOnce(sha), sha, TO_RETRYING[2].op, 0.0)
  {
    hide Tasks.Transition, Tasks.Claim, Tasks.Complete, Numbered, Prepared;
    RunStarts(FailedOnce(sha), sha, 0.0, TO_RETRYING[2], []);
    RunStarts(Claimed(sha), sha, 0.0, TO_RETRYING[1], [TO_RETRYING[2]] + []);
    hide IsRun, Final;
    RunStarts(Prepared(sha), sha, 0.0, TO_RETRYING[0], [TO_RETRYING[1]] + ([TO_RETRYING[2]] + []));
    assert TO_RETRYING == [TO_RETRYING[0]] + ([TO_RETRYING[1]] + ([TO_RETRYING[2]] + []));
  }

  lemma RetryingStands(sha: Checkpoints.Sha)
    ensures var end := After(FailedOnce(sha), sha, TO_RETRYING[2].op, 0.0);
      && T in end.tasks && end.tasks[T].state == Retrying && end.tasks[T].attemptsStarted == end.tasks[T].maxAttempts == 1
  {
    hide Tasks.Transition, Tasks.Claim, Tasks.Complete, Tasks.Authoritative, Numbered, FreshBut, TaskInvariants.Inv, Prepared;
    PreparationStands(sha);
    ClaimStands(Prepared(sha));
    CompleteStands(Claimed(sha), Tasks.ClaimedRow(ReadyRow(), "attempt", 0.0));
    MoveStands(FailedOnce(sha), "6",
      Tasks.CompletedRow(Tasks.ClaimedRow(ReadyRow(), "attempt", 0.0), false, "", None, false, None, 0.0),
      {"1", "2", "3", "4", "5"}, Retrying, "by hand");
  }
}
