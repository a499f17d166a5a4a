/**
 The oldest job that waits, when it has no task and was quarantined before: as long as it
 is there, no claim gets past it, whatever else the system does in between.
 */
module QueueHead {
  import opened Inputs
  import opened JobProgress
  import opened JobSteps
  import opened System
  import opened TaskEffects
  import opened TaskInvariants
  import opened Tables
  import opened Wrappers
  import CheckpointInvariants
  import Checkpoints
  import EventLog
  import Jobs
  import Json
  import Keys
  import QueueRuns
  import Recovery
  import Tasks

  predicate Waits(job: Job) {
    job.status in {JobQueued, JobRetry}
  }

  /** The job is due, and older than every other job that waits. */
  predicate IsHead(db: Db, head: string, start: Time) {
    && head in db.jobs && Jobs.IsDue(db.jobs[head], start)
    && forall j :: j in db.jobs && j != head && Waits(db.jobs[j]) ==> db.jobs[head].createdAt < db.jobs[j].createdAt
  }

  /** Such a job without a task, whose quarantine is in the log. */
  ghost predicate Blocks(db: Db, head: string, start: Time) {
    IsHead(db, head, start) && Spent(db, head)
  }

  predicate IsOlder(db: Db, j: string, head: string) {
    j in db.jobs && head in db.jobs && db.jobs[j].createdAt <= db.jobs[head].createdAt
  }

  /**
   The step neither takes the job away nor puts an older one in front of it: it is not
   cancelled or deleted, no older job is finished or retried, and none is submitted at an
   earlier time. A claim draws a new event identifier.
   */
  ghost predicate LeavesHead(db: Db, op: Op, now: Time, head: string) {
    match op
    case SubmitJob(_, _, _, _, _, _, _, _) => head in db.jobs ==> db.jobs[head].createdAt < now
    case ClaimJob(ids, _, _, _) => Fresh(db, ids.first)
    case FinishJob(_, j, _, _, _, _) => j == head || !IsOlder(db, j, head)
    case RetryJob(_, j, _) => j == head || !IsOlder(db, j, head)
    case CancelJob(_, j) => j != head
    case DeleteJob(j) => j != head
    case _ => true
  }

  // ----- one step

  /** Of the jobs, those that wait afterwards waited before or are younger than the head, whose row stays. */
  ghost predicate KeepsRows(db: Db, after: Db, head: string) {
    && head in db.jobs && head in after.jobs && after.jobs[head] == db.jobs[head] && (head in after.mappings ==> head in db.mappings)
    && forall j :: j in after.jobs && j != head && Waits(after.jobs[j]) ==>
         (j in db.jobs && Waits(db.jobs[j]) && after.jobs[j].createdAt == db.jobs[j].createdAt)
         || db.jobs[head].createdAt < after.jobs[j].createdAt
  }

  lemma KeepsRowsTransitive(a: Db, b: Db, c: Db, head: string)
    requires KeepsRows(a, b, head) && KeepsRows(b, c, head)
    ensures KeepsRows(a, c, head)
  {
  }

  lemma SameJobsKeep(db: Db, after: Db, head: string)
    requires head in db.jobs && after.jobs == db.jobs && after.mappings == db.mappings
    ensures KeepsRows(db, after, head)
  {
  }

  lemma HeadKept(db: Db, after: Db, head: string, start: Time, now: Time)
    requires Blocks(db, head, start) && KeepsRows(db, after, head) && start <= now && db.events <= after.events
    ensures Blocks(after, head, now)
  {
    KeyStays(db.events, after.events, Jobs.SOURCE, Keys.Render(Keys.Unmigrated(head)));
  }

  predicate Conflicts(db: Db, op: Op, now: Time) {
    op.ClaimJob? && op.jobId in db.jobs
    && Jobs.ClaimJob(db, op.ids, op.jobId, op.owner, op.leaseSeconds, now) == Raised(EventConflict)
  }

  /** A claim finds the head, and fails. */
  lemma ClaimFails(db: Db, op: Op, start: Time, now: Time, head: string)
    requires Inv(db) && Blocks(db, head, start) && start <= now
    requires op.ClaimJob? && CanHappen(db, op, now) && Fresh(db, op.ids.first)
    ensures Conflicts(db, op, now)
  {
    hide Inv, Jobs.ClaimJob, Fresh;
    assert Jobs.IsDue(db.jobs[head], now);
    assert op.jobId == head;
    QuarantineExact(db, op.ids, op.jobId, op.owner, op.leaseSeconds, now);
  }

  // ----- steps on the jobs

  lemma SubmitJobKeepsRows(db: Db, op: Op, now: Time, head: string)
    requires op.SubmitJob? && head in db.jobs && LeavesHead(db, op, now, head)
    ensures KeepsRows(db, Commit(db, Jobs.SubmitJob(db, op.stamp, op.bound, op.jobId, op.requestHash, op.engine, op.timeout,
                                                     op.maxAttempts, op.reference, now)), head)
  {
    hide Jobs.SubmitJob;
    if Jobs.SubmitJob(db, op.stamp, op.bound, op.jobId, op.requestHash, op.engine, op.timeout, op.maxAttempts, op.reference, now).Done? {
      QueueRuns.SubmittedJob(db, op.stamp, op.bound, op.jobId, op.requestHash, op.engine, op.timeout, op.maxAttempts, op.reference, now);
    }
  }

  /** One job's row changes; the job is not the head, and does not come before it. */
  lemma RowChangeKeeps(db: Db, after: Db, j: string, head: string)
    requires head in db.jobs && j != head && j in db.jobs && j in after.jobs
    requires after.jobs == db.jobs[j := after.jobs[j]] && after.mappings == db.mappings
    requires after.jobs[j].createdAt == db.jobs[j].createdAt
    requires Waits(after.jobs[j]) ==> Waits(db.jobs[j]) || db.jobs[head].createdAt < db.jobs[j].createdAt
    ensures KeepsRows(db, after, head)
  {
  }

  lemma FinishJobKeepsRows(db: Db, op: Op, now: Time, head: string)
    requires op.FinishJob? && head in db.jobs && head !in db.mappings && LeavesHead(db, op, now, head)
    ensures KeepsRows(db, Commit(db, Jobs.FinishJob(db, op.stamp, op.jobId, op.claimed, op.attempt, op.lease, op.result, now)), head)
  {
    hide Tasks.Complete;
    SameJobsKeep(db, db, head);
    var o := Jobs.FinishJob(db, op.stamp, op.jobId, op.claimed, op.attempt, op.lease, op.result, now);
    if o.Done? {
      CompleteTables(db, op.stamp, op.lease, op.result.success, op.result.outcomeHash, op.result.errorCode,
        Jobs.AsksRetry(op.claimed, op.attempt, op.result), Some(Jobs.NextRun(op.claimed, op.attempt, op.result, now)), now);
      hide KeepsRows;
      RowChangeKeeps(db, o.db, op.jobId, head);
    }
  }

  lemma CancelJobKeepsRows(db: Db, op: Op, now: Time, head: string)
    requires op.CancelJob? && head in db.jobs && LeavesHead(db, op, now, head)
    ensures KeepsRows(db, Commit(db, Jobs.CancelJob(db, op.stamp, op.jobId, now)), head)
  {
    hide Tasks.Advance, KeepsRows;
    SameJobsKeep(db, db, head);
    var j := op.jobId;
    var o := Jobs.CancelJob(db, op.stamp, j, now);
    if o.Done? && o.value {
      if j in db.mappings {
        var t := db.mappings[j].taskId;
        var task, row := db.tasks[t], Tasks.CancelledRow(db.tasks[t], now);
        AdvanceTables(db, t, row, db.attempts, Tasks.MovedEvent(op.stamp, t, "task.cancelled", task, Cancelled, "user.cancelled"),
          Tasks.NewTransition(op.stamp, t, None, Some(task.state), row, "user.cancelled", now));
      }
      RowChangeKeeps(db, o.db, j, head);
    }
  }

  lemma RetryJobKeepsRows(db: Db, op: Op, now: Time, start: Time, head: string)
    requires op.RetryJob? && IsHead(db, head, start) && LeavesHead(db, op, now, head)
    ensures KeepsRows(db, Commit(db, Jobs.RetryJob(db, op.stamp, op.jobId, now, op.later)), head)
  {
    hide Tasks.Retry, KeepsRows;
    SameJobsKeep(db, db, head);
    var j := op.jobId;
    var o := Jobs.RetryJob(db, op.stamp, j, now, op.later);
    if o.Done? {
      if j in db.mappings && Tasks.Retry(db, op.stamp, db.mappings[j].taskId, now).Done? {
        RetryTables(db, op.stamp, db.mappings[j].taskId, now);
      }
      if j in db.jobs && j != head && o.value {
        RowChangeKeeps(db, o.db, j, head);
      } else {
        SameJobsKeep(db, o.db, head);
      }
    }
  }

  lemma DeleteJobKeepsRows(db: Db, j: string, head: string)
    requires head in db.jobs && j != head
    ensures KeepsRows(db, Jobs.DeleteJob(db, j), head)
  {
  }

  // ----- recovery of stale jobs, which never makes a job wait

  lemma StaleKeepsRows(db: Db, stamp: Stamp, j: string, now: Time, head: string)
    requires head in db.jobs && head !in db.mappings
    ensures KeepsRows(db, Commit(db, Jobs.RecoverStaleJob(db, stamp, j, now)), head)
  {
    hide Tasks.Expire, KeepsRows;
    SameJobsKeep(db, db, head);
    var o := Jobs.RecoverStaleJob(db, stamp, j, now);
    if o.Done? && j in db.mappings && j in db.jobs {
      StaleTaskJobs(db, stamp, db.mappings[j].taskId, now);
      RowChangeKeeps(db, o.db, j, head);
    }
  }

  lemma StaleTaskJobs(db: Db, stamp: Stamp, t: string, now: Time)
    requires Jobs.StaleTask(db, stamp, t, now).Done?
    ensures var after := Jobs.StaleTask(db, stamp, t, now).db; after.jobs == db.jobs && after.mappings == db.mappings
  {
    hide Tasks.Expire;
    if t in db.tasks && db.tasks[t].active.Some? {
      var a := db.tasks[t].active.value;
      if Tasks.Expire(db, stamp, t, a, Failed, now).Done? {
        ExpireTables(db, stamp, t, a, Failed, now);
      }
    }
  }

  lemma {:induction false} StaleJobsKeepRows(db: Db, stamps: seq<Stamp>, rows: seq<string>, now: Time, head: string)
    requires |stamps| == |rows| && head in db.jobs && head !in db.mappings
    ensures KeepsRows(db, Commit(db, Jobs.RecoverStaleJobs(db, stamps, rows, now)), head)
    decreases |rows|
  {
    hide Jobs.RecoverStaleJob, KeepsRows;
    SameJobsKeep(db, db, head);
    if rows != [] {
      StaleKeepsRows(db, stamps[0], rows[0], now, head);
      var first := Jobs.RecoverStaleJob(db, stamps[0], rows[0], now);
      if first.Done? {
        HeadThere(db, first.db, head);
        StaleJobsKeepRows(first.db, stamps[1..], rows[1..], now, head);
        KeepsRowsTransitive(db, first.db, Commit(first.db, Jobs.RecoverStaleJobs(first.db, stamps[1..], rows[1..], now)), head);
      }
    }
  }

  lemma HeadThere(db: Db, after: Db, head: string)
    requires KeepsRows(db, after, head) && head !in db.mappings
    ensures head in after.jobs && after.jobs[head] == db.jobs[head] && head !in after.mappings
  {
  }

  lemma RecoverStaleKeepsRows(db: Db, stamps: seq<Stamp>, rows: seq<string>, now: Time, head: string)
    requires |stamps| == |rows| && head in db.jobs && head !in db.mappings && Waits(db.jobs[head])
    ensures KeepsRows(db, Commit(db, Jobs.RecoverStale(db, stamps, rows, now)), head)
  {
    hide Jobs.RecoverStaleJobs, KeepsRows;
    SameJobsKeep(db, db, head);
    StaleJobsKeepRows(db, stamps, rows, now, head);
    var o := Jobs.RecoverStaleJobs(db, stamps, rows, now);
    if o.Done? {
      HeadThere(db, o.db, head);
      QuarantineKeepsRows(o.db, now, head);
      KeepsRowsTransitive(db, o.db, Jobs.QuarantineStale(o.db, now), head);
    }
  }

  lemma QuarantineKeepsRows(db: Db, now: Time, head: string)
    requires head in db.jobs && Waits(db.jobs[head])
    ensures KeepsRows(db, Jobs.QuarantineStale(db, now), head)
  {
  }

  // ----- steps that do not look at the jobs

  lemma KeptJobs(db: Db, after: Db, t: string, now: Time)
    requires Kept(db, after, t, now)
    ensures after.jobs == db.jobs && after.mappings == db.mappings
  {
    hide Inv, Evolves;
  }

  lemma TaskStepJobs(db: Db, sha: Checkpoints.Sha, op: Op, now: Time)
    requires Inv(db) && CanHappen(db, op, now)
    requires op.Submit? || op.Move? || op.Cancel? || op.Retry? || op.Claim? || op.Renew? || op.Complete?
    ensures After(db, sha, op, now).jobs == db.jobs && After(db, sha, op, now).mappings == db.mappings
  {
    hide Inv, Kept, Tasks.Submit, Tasks.Transition, Tasks.Cancel, Tasks.Retry, Tasks.Claim, Tasks.Renew, Tasks.Complete;
    var after := After(db, sha, op, now);
    match op {
      case Submit(stamp, r) =>
        SubmitKeeps(db, stamp, r, now);
        KeptJobs(db, after, r.taskId, now);
      case Move(stamp, t, to, reason, causation) =>
        TransitionKeeps(db, stamp, t, to, reason, causation, now);
        KeptJobs(db, after, t, now);
      case Cancel(stamp, t, lease) =>
        CancelKeeps(db, stamp, t, lease, now);
        KeptJobs(db, after, t, now);
      case Retry(stamp, t) =>
        RetryKeeps(db, stamp, t, now);
        KeptJobs(db, after, t, now);
      case Claim(stamp, a, t, plan, owner, seconds) =>
        ClaimKeeps(db, stamp, a, t, plan, owner, seconds, now);
        KeptJobs(db, after, t, now);
      case Renew(stamp, lease, seconds) =>
        RenewKeeps(db, stamp, lease, seconds, now);
        KeptJobs(db, after, lease.taskId, now);
      case Complete(stamp, lease, success, outcome, error, retryable, retryAt) =>
        CompleteKeeps(db, stamp, lease, success, outcome, error, retryable, retryAt, now);
        KeptJobs(db, after, lease.taskId, now);
    }
  }

  lemma CheckpointJobs(db: Db, sha: Checkpoints.Sha, stamp: Stamp, lease: Lease, reference: Reference, step: string,
                       versions: map<string, Json.Json>, resumable: bool, now: Time)
    ensures var after := Commit(db, Checkpoints.MakeCheckpoint(db, sha, stamp, lease, reference, step, versions, resumable, now));
      after.jobs == db.jobs && after.mappings == db.mappings
  {
    hide Checkpoints.MakeCheckpoint, Checkpoints.InsertReference, EventLog.AppendTo;
    if Checkpoints.MakeCheckpoint(db, sha, stamp, lease, reference, step, versions, resumable, now).Done? {
      CheckpointInvariants.MakeUnfolds(db, sha, stamp, lease, reference, step, versions, resumable, now);
      CheckpointInvariants.InsertedReference(db, reference);
    }
  }

  lemma RecoverJobs(db: Db, stamps: seq<Stamp>, rows: seq<string>, now: Time)
    requires Inv(db) && |stamps| == |rows| && Recovery.Expirable(db, rows, now)
    ensures var after := Commit(db, Tasks.Recover(db, stamps, rows, now)); after.jobs == db.jobs && after.mappings == db.mappings
  {
    hide Inv, Evolves, Tasks.Recover, Recovery.Expirable;
    Recovery.RecoverKeeps(db, stamps, rows, now);
  }

  lemma CreateJobs(db: Db, sha: Checkpoints.Sha, stamp: Stamp, bound: Stamp, r: Tasks.Request, reference: Reference, now: Time)
    requires Sound(db, sha)
    ensures var after := Commit(db, Checkpoints.CreateTask(db, stamp, bound, r, reference, now));
      after.jobs == db.jobs && after.mappings == db.mappings
  {
    hide Sound, Evolves, Checkpoints.CreateTask;
    CreateKeeps(db, sha, stamp, bound, r, reference, now);
  }

  lemma OtherStepJobs(db: Db, sha: Checkpoints.Sha, op: Op, now: Time)
    requires Sound(db, sha) && CanHappen(db, op, now)
    requires op.Recover? || op.Create? || op.Put? || op.Checkpoint? || op.Publish? || op.Acknowledge?
    ensures After(db, sha, op, now).jobs == db.jobs && After(db, sha, op, now).mappings == db.mappings
  {
    hide Sound, Tasks.Recover, Recovery.Expirable, Checkpoints.CreateTask, Checkpoints.MakeCheckpoint, Checkpoints.Authenticates,
      EventLog.Append, EventLog.Ack;
    SoundInv(db, sha);
    match op {
      case Recover(stamps, rows) => RecoverJobs(db, stamps, rows, now);
      case Create(stamp, bound, r, reference) => CreateJobs(db, sha, stamp, bound, r, reference, now);
      case Put(_) =>
      case Checkpoint(stamp, lease, reference, step, versions, resumable) =>
        CheckpointJobs(db, sha, stamp, lease, reference, step, versions, resumable, now);
      case Publish(e) => EventLog.AppendOnly(db, e);
      case Acknowledge(consumer, through) => AckOnly(db, consumer, through);
    }
  }

  predicate IsJobOp(op: Op) {
    op.SubmitJob? || op.RecoverStale? || op.ClaimJob? || op.FinishJob? || op.CancelJob? || op.RetryJob? || op.DeleteJob?
  }

  lemma HeadWaits(db: Db, head: string, start: Time)
    requires Blocks(db, head, start)
    ensures head in db.jobs && Waits(db.jobs[head]) && head !in db.mappings
  {
  }

  lemma JobStepKeepsRows(db: Db, sha: Checkpoints.Sha, op: Op, start: Time, now: Time, head: string)
    requires Inv(db) && Blocks(db, head, start) && start <= now && IsJobOp(op) && CanHappen(db, op, now)
    requires LeavesHead(db, op, now, head)
    ensures KeepsRows(db, After(db, sha, op, now), head)
  {
    hide Inv, KeepsRows, Spent, IsHead, Fresh, AllStale, Conflicts, Jobs.SubmitJob, Jobs.RecoverStale, Jobs.ClaimJob, Jobs.FinishJob, Jobs.CancelJob,
      Jobs.RetryJob, Jobs.DeleteJob;
    HeadWaits(db, head, start);
    match op {
      case SubmitJob(_, _, _, _, _, _, _, _) => SubmitJobKeepsRows(db, op, now, head);
      case RecoverStale(stamps, rows) => RecoverStaleKeepsRows(db, stamps, rows, now, head);
      case ClaimJob(_, _, _, _) =>
        ClaimFails(db, op, start, now, head);
        ConflictChangesNothing(db, sha, op, now);
        SameJobsKeep(db, db, head);
      case FinishJob(_, _, _, _, _, _) => FinishJobKeepsRows(db, op, now, head);
      case CancelJob(_, _) => CancelJobKeepsRows(db, op, now, head);
      case RetryJob(_, _, _) => RetryJobKeepsRows(db, op, now, start, head);
      case DeleteJob(j) => DeleteJobKeepsRows(db, j, head);
    }
  }

  lemma StepBlocks(db: Db, sha: Checkpoints.Sha, op: Op, start: Time, now: Time, head: string)
    requires Sound(db, sha) && Blocks(db, head, start) && start <= now && CanHappen(db, op, now) && LeavesHead(db, op, now, head)
    ensures Blocks(After(db, sha, op, now), head, now)
    ensures op.ClaimJob? ==> Conflicts(db, op, now)
  {
    hide Sound, Spent, IsHead, Conflicts, CanHappen, LeavesHead, KeepsRows, After;
    SoundInv(db, sha);
    StepSound(db, sha, op, now);
    var after := After(db, sha, op, now);
    StepRows(db, sha, op, start, now, head);
    LogGrows(db, after, now);
    HeadKept(db, after, head, start, now);
    if op.ClaimJob? {
      HeadClaimFails(db, op, start, now, head);
    }
  }

  lemma HeadClaimFails(db: Db, op: Op, start: Time, now: Time, head: string)
    requires Inv(db) && Blocks(db, head, start) && start <= now && op.ClaimJob? && CanHappen(db, op, now) && LeavesHead(db, op, now, head)
    ensures Conflicts(db, op, now)
  {
    hide Inv, Blocks, Jobs.ClaimJob, Fresh;
    ClaimFails(db, op, start, now, head);
  }

  lemma ConflictChangesNothing(db: Db, sha: Checkpoints.Sha, op: Op, now: Time)
    requires CanHappen(db, op, now)
    ensures Conflicts(db, op, now) ==> After(db, sha, op, now) == db
  {
    hide Jobs.ClaimJob, Jobs.IsNextJob;
  }

  lemma LogGrows(db: Db, after: Db, now: Time)
    requires Evolves(db, after, now)
    ensures db.events <= after.events
  {
  }

  lemma StepRows(db: Db, sha: Checkpoints.Sha, op: Op, start: Time, now: Time, head: string)
    requires Sound(db, sha) && Blocks(db, head, start) && start <= now && CanHappen(db, op, now) && LeavesHead(db, op, now, head)
    ensures KeepsRows(db, After(db, sha, op, now), head)
  {
    hide Sound, Spent, CanHappen, LeavesHead, KeepsRows, After;
    SoundInv(db, sha);
    if IsJobOp(op) {
      JobStepKeepsRows(db, sha, op, start, now, head);
    } else {
      if op.Submit? || op.Move? || op.Cancel? || op.Retry? || op.Claim? || op.Renew? || op.Complete? {
        TaskStepJobs(db, sha, op, now);
      } else {
        OtherStepJobs(db, sha, op, now);
      }
      SameJobsKeep(db, After(db, sha, op, now), head);
    }
  }

  // ----- runs

  ghost predicate AllLeaveHead(db: Db, sha: Checkpoints.Sha, start: Time, steps: seq<Step>, head: string)
    requires IsRun(db, sha, start, steps)
    decreases |steps|
  {
    steps == [] ||
    (LeavesHead(db, steps[0].op, steps[0].now, head)
     && AllLeaveHead(After(db, sha, steps[0].op, steps[0].now), sha, steps[0].now, steps[1..], head))
  }

  /** Every claim of the run fails, and so leaves the database as it finds it. */
  ghost predicate ClaimsFail(db: Db, sha: Checkpoints.Sha, start: Time, steps: seq<Step>)
    requires IsRun(db, sha, start, steps)
    decreases |steps|
  {
    steps == [] ||
    ((steps[0].op.ClaimJob? ==>
        Conflicts(db, steps[0].op, steps[0].now) && After(db, sha, steps[0].op, steps[0].now) == db)
     && ClaimsFail(After(db, sha, steps[0].op, steps[0].now), sha, steps[0].now, steps[1..]))
  }

  /**
   Whatever else happens, as long as the job is not taken away and no older one comes before
   it: every claim, by whomever and whenever, fails and changes nothing, and the job blocks
   the queue at the end as well.
   */
  lemma {:induction false} QueueBlocked(db: Db, sha: Checkpoints.Sha, start: Time, steps: seq<Step>, head: string)
    requires Sound(db, sha) && Blocks(db, head, start) && IsRun(db, sha, start, steps) && AllLeaveHead(db, sha, start, steps, head)
    ensures ClaimsFail(db, sha, start, steps)
    ensures Blocks(Final(db, sha, start, steps), head, EndTime(start, steps))
    decreases |steps|
  {
    hide Sound, Blocks, CanHappen, After, LeavesHead, Conflicts;
    if steps != [] {
      StepSound(db, sha, steps[0].op, steps[0].now);
      StepBlocks(db, sha, steps[0].op, start, steps[0].now, head);
      ConflictChangesNothing(db, sha, steps[0].op, steps[0].now);
      QueueBlocked(After(db, sha, steps[0].op, steps[0].now), sha, steps[0].now, steps[1..], head);
    }
  }
}
