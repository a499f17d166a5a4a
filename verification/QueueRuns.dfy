/**
 The job queue and the direct calls of the task repository together: which steps keep the
 job table a projection of the tasks, and which break it.
 */
module QueueRuns {
  import opened ForeignCancel
  import opened Inputs
  import opened JobInvariants
  import opened JobProgress
  import opened JobSteps
  import opened System
  import opened TaskEffects
  import opened TaskInvariants
  import opened Tables
  import opened Wrappers
  import CheckpointInvariants
  import Checkpoints
  import EventLog
  import Jobs
  import Json
  import Keys
  import Recovery
  import TaskOutcomes
  import Tasks

  // ----- direct calls on one task

  /** The statuses a job can have while its task is in this state. */
  function Statuses(s: TaskState): set<JobStatus> {
    match s
    case Created => {JobQueued}
    case Retrying => {JobQueued, JobRetry}
    case Running => {JobRunning}
    case Completed => {JobSucceeded}
    case Failed => {JobDead}
    case Cancelled => {JobCancelled}
    case _ => {}
  }

  lemma StatusFits(db: Db, j: string)
    requires ProjectionInv(db) && j in db.mappings
    ensures j in db.jobs && db.mappings[j].taskId in db.tasks
    ensures var task := db.tasks[db.mappings[j].taskId];
      db.jobs[j].status in Statuses(task.state) && db.jobs[j].attempt == task.attemptsStarted
  {
    ProjectionOf(db, j);
  }

  /** No job row matches both rows of the task. */
  predicate Departs(task: Task, row: Task) {
    Statuses(task.state) !! Statuses(row.state) || row.attemptsStarted != task.attemptsStarted
  }

  lemma DepartureBreaks(db: Db, after: Db, t: string)
    requires ProjectionInv(db) && Tasks.IsMapped(db, t) && after.jobs == db.jobs && after.mappings == db.mappings
    requires t in db.tasks && t in after.tasks && Departs(db.tasks[t], after.tasks[t])
    ensures !ProjectionInv(after)
  {
    hide ProjectionInv, Statuses;
    var j :| j in db.mappings && db.mappings[j].taskId == t;
    StatusFits(db, j);
    if ProjectionInv(after) {
      StatusFits(after, j);
      assert false;
    }
  }

  /** A change of one task that departs from its row keeps the projection exactly when no job is mapped to the task. */
  lemma DirectExact(db: Db, after: Db, t: string, now: Time)
    requires ProjectionInv(db) && Kept(db, after, t, now) && t in db.tasks && t in after.tasks
    requires Departs(db.tasks[t], after.tasks[t])
    ensures ProjectionInv(after) <==> !Tasks.IsMapped(db, t)
  {
    hide ProjectionInv, Inv, Evolves, Departs, Tasks.IsMapped;
    if Tasks.IsMapped(db, t) {
      TouchedJobs(db, after, t);
      DepartureBreaks(db, after, t);
    } else {
      ProjectionFrame(db, after, t);
    }
  }

  lemma MoveExact(db: Db, stamp: Stamp, t: string, to: TaskState, reason: string, causation: Option<string>, now: Time)
    requires Inv(db) && ProjectionInv(db) && Tasks.Transition(db, stamp, t, to, reason, causation, now).Done?
    ensures ProjectionInv(Tasks.Transition(db, stamp, t, to, reason, causation, now).db) <==> !Tasks.IsMapped(db, t)
  {
    hide Inv, ProjectionInv, Kept, Tasks.Transition, Tasks.IsMapped;
    MoveTables(db, stamp, t, to, reason, causation, now);
    TransitionKeeps(db, stamp, t, to, reason, causation, now);
    DirectExact(db, Tasks.Transition(db, stamp, t, to, reason, causation, now).db, t, now);
  }

  lemma DirectCancelExact(db: Db, stamp: Stamp, t: string, lease: Option<Lease>, now: Time)
    requires Inv(db) && ProjectionInv(db) && Tasks.Cancel(db, stamp, t, lease, now).Done?
    ensures ProjectionInv(Tasks.Cancel(db, stamp, t, lease, now).db) <==> !Tasks.IsMapped(db, t)
  {
    hide Inv, ProjectionInv, Kept, Tasks.Authoritative, Tasks.Advance, Tasks.IsMapped;
    TaskOutcomes.CancelDone(db, stamp, t, lease, now);
    CancelKeeps(db, stamp, t, lease, now);
    assert !Terminal(db.tasks[t].state);
    hide Tasks.Cancel;
    DirectExact(db, Tasks.Cancel(db, stamp, t, lease, now).db, t, now);
  }

  lemma DirectRetryExact(db: Db, stamp: Stamp, t: string, now: Time)
    requires Inv(db) && ProjectionInv(db) && Tasks.Retry(db, stamp, t, now).Done?
    ensures ProjectionInv(Tasks.Retry(db, stamp, t, now).db) <==> !Tasks.IsMapped(db, t)
  {
    hide Inv, ProjectionInv, Kept, Tasks.Retry, Tasks.IsMapped;
    RetryTables(db, stamp, t, now);
    RetryKeeps(db, stamp, t, now);
    DirectExact(db, Tasks.Retry(db, stamp, t, now).db, t, now);
  }

  lemma DirectClaimExact(db: Db, stamp: Stamp, a: string, t: string, plan: Plan, owner: string, leaseSeconds: int, now: Time)
    requires Inv(db) && ProjectionInv(db) && Tasks.Claim(db, stamp, a, t, plan, owner, leaseSeconds, now).Done?
    ensures ProjectionInv(Tasks.Claim(db, stamp, a, t, plan, owner, leaseSeconds, now).db) <==> !Tasks.IsMapped(db, t)
  {
    hide Inv, ProjectionInv, Kept, Tasks.Claim, Tasks.IsMapped, Tasks.Claimable;
    ClaimTables(db, stamp, a, t, plan, owner, leaseSeconds, now);
    ClaimKeeps(db, stamp, a, t, plan, owner, leaseSeconds, now);
    DirectExact(db, Tasks.Claim(db, stamp, a, t, plan, owner, leaseSeconds, now).db, t, now);
  }

  lemma DirectCompleteExact(db: Db, stamp: Stamp, lease: Lease, success: bool, outcomeHash: string, errorCode: Option<string>,
                            retryable: bool, retryAt: Option<Time>, now: Time)
    requires Inv(db) && ProjectionInv(db)
    requires Tasks.Complete(db, stamp, lease, success, outcomeHash, errorCode, retryable, retryAt, now).Done?
    ensures ProjectionInv(Tasks.Complete(db, stamp, lease, success, outcomeHash, errorCode, retryable, retryAt, now).db)
      <==> !Tasks.IsMapped(db, lease.taskId)
  {
    hide Inv, ProjectionInv, Kept, Tasks.Complete, Tasks.IsMapped, Tasks.CloseAttempt;
    CompleteTables(db, stamp, lease, success, outcomeHash, errorCode, retryable, retryAt, now);
    CompleteKeeps(db, stamp, lease, success, outcomeHash, errorCode, retryable, retryAt, now);
    assert db.tasks[lease.taskId].state == Running;
    hide Tasks.Authoritative;
    DirectExact(db, Tasks.Complete(db, stamp, lease, success, outcomeHash, errorCode, retryable, retryAt, now).db, lease.taskId, now);
  }

  // ----- renewal, which moves the lease's end only

  /** The lease ends later than before. */
  predicate Lengthens(db: Db, lease: Lease, leaseSeconds: int, now: Time) {
    lease.attemptId in db.attempts && db.attempts[lease.attemptId].leaseUntil < now + Max(1, leaseSeconds) as real
  }

  predicate SameLease(attempt: Attempt, other: Attempt) {
    other.taskId == attempt.taskId && other.leaseUntil == attempt.leaseUntil
  }

  lemma SameLeases(db: Db, after: Db)
    requires ProjectionInv(db) && after.jobs == db.jobs && after.mappings == db.mappings && after.tasks == db.tasks
    requires forall a :: a in db.attempts ==> a in after.attempts && SameLease(db.attempts[a], after.attempts[a])
    ensures ProjectionInv(after)
  {
    forall j | j in after.mappings
      ensures j in after.jobs && Projected(after.jobs[j], after.mappings[j], after.tasks, after.attempts)
    {
      ProjectionOf(db, j);
    }
  }

  /** A running task's job shows the end of its active attempt's lease. */
  lemma LeaseShown(db: Db, j: string, a: string)
    requires ProjectionInv(db) && j in db.mappings && db.mappings[j].taskId in db.tasks
    requires var task := db.tasks[db.mappings[j].taskId]; task.state == Running && task.active == Some(a)
    ensures j in db.jobs && a in db.attempts && db.jobs[j].leaseUntil == Some(db.attempts[a].leaseUntil)
  {
    ProjectionOf(db, j);
  }

  lemma DirectRenewExact(db: Db, stamp: Stamp, lease: Lease, leaseSeconds: int, now: Time)
    requires Inv(db) && ProjectionInv(db) && Tasks.Renew(db, stamp, lease, leaseSeconds, now).Done?
    ensures ProjectionInv(Tasks.Renew(db, stamp, lease, leaseSeconds, now).db)
      <==> !(Tasks.IsMapped(db, lease.taskId) && Lengthens(db, lease, leaseSeconds, now))
  {
    hide Inv, ProjectionInv, Evolves, Tasks.Renew;
    RenewTables(db, stamp, lease, leaseSeconds, now);
    var after := Tasks.Renew(db, stamp, lease, leaseSeconds, now).db;
    if !Lengthens(db, lease, leaseSeconds, now) {
      SameLeases(db, after);
    } else if Tasks.IsMapped(db, lease.taskId) {
      var j :| j in db.mappings && db.mappings[j].taskId == lease.taskId;
      LeaseShown(db, j, lease.attemptId);
      if ProjectionInv(after) {
        LeaseShown(after, j, lease.attemptId);
        assert false;
      }
    } else {
      RenewKeeps(db, stamp, lease, leaseSeconds, now);
      ProjectionFrame(db, after, lease.taskId);
    }
  }

  // ----- submission of a job whose task is there already

  /** A task that a new job could have. */
  predicate Queueable(task: Task, now: Time) {
    task.state in {Created, Retrying} && task.attemptsStarted == 0 && task.nextRunAt <= now
  }

  lemma AgainTables(db: Db, stamp: Stamp, bound: Stamp, j: string, requestHash: string, engine: string, timeout: int,
                    maxAttempts: int, reference: Reference, now: Time)
    requires Jobs.SubmitJob(db, stamp, bound, j, requestHash, engine, timeout, maxAttempts, reference, now).Done?
    requires Jobs.TaskIdOf(j) in db.tasks
    ensures j !in db.jobs && j !in db.mappings && !Tasks.IsMapped(db, Jobs.TaskIdOf(j))
    ensures db.tasks[Jobs.TaskIdOf(j)].submission.maxAttempts == Max(1, maxAttempts)
    ensures var after := Jobs.SubmitJob(db, stamp, bound, j, requestHash, engine, timeout, maxAttempts, reference, now).db;
      && after.tasks == db.tasks && after.attempts == db.attempts
      && after.jobs == db.jobs[j := Jobs.NewJob(engine, timeout, maxAttempts, now)]
      && after.mappings == db.mappings[j := Mapping(Jobs.TaskIdOf(j), reference.id, None, None, 0, now)]
  {
    hide Bind, Tasks.Advance, Jobs.TaskIdOf;
    var start := db.(jobs := db.jobs[j := Jobs.NewJob(engine, timeout, maxAttempts, now)]);
    var r := Jobs.TaskRequest(j, requestHash, maxAttempts);
    CreateUnfolds(start, stamp, bound, r, reference, now);
    hide Checkpoints.CreateTask;
    BindUnfolds(start, bound, r, reference);
  }

  lemma NewMapping(db: Db, after: Db, j: string, m: Mapping, job: Job)
    requires ProjectionInv(db) && j !in db.jobs && !Tasks.IsMapped(db, m.taskId)
    requires after.tasks == db.tasks && after.attempts == db.attempts
    requires after.jobs == db.jobs[j := job] && after.mappings == db.mappings[j := m]
    ensures ProjectionInv(after) <==> Projected(job, m, db.tasks, db.attempts)
  {
    hide Projected;
    assert j in after.mappings;
    forall k | k in db.mappings
      ensures k != j && k in db.jobs && Projected(db.jobs[k], db.mappings[k], db.tasks, db.attempts)
    {
      ProjectionOf(db, k);
    }
  }

  lemma AgainExact(db: Db, stamp: Stamp, bound: Stamp, j: string, requestHash: string, engine: string, timeout: int,
                   maxAttempts: int, reference: Reference, now: Time)
    requires Inv(db) && ProjectionInv(db) && Jobs.TaskIdOf(j) in db.tasks
    requires Jobs.SubmitJob(db, stamp, bound, j, requestHash, engine, timeout, maxAttempts, reference, now).Done?
    ensures ProjectionInv(Jobs.SubmitJob(db, stamp, bound, j, requestHash, engine, timeout, maxAttempts, reference, now).db)
      <==> Queueable(db.tasks[Jobs.TaskIdOf(j)], now)
  {
    hide Inv, ProjectionInv, Jobs.SubmitJob, Jobs.TaskIdOf, Tasks.IsMapped;
    AgainTables(db, stamp, bound, j, requestHash, engine, timeout, maxAttempts, reference, now);
    NewMapping(db, Jobs.SubmitJob(db, stamp, bound, j, requestHash, engine, timeout, maxAttempts, reference, now).db, j,
      Mapping(Jobs.TaskIdOf(j), reference.id, None, None, 0, now), Jobs.NewJob(engine, timeout, maxAttempts, now));
    TaskRow(db, Jobs.TaskIdOf(j));
  }

  lemma TaskRow(db: Db, t: string)
    requires Inv(db) && t in db.tasks
    ensures db.tasks[t].maxAttempts == db.tasks[t].submission.maxAttempts >= 1
    ensures db.tasks[t].active.Some? ==> db.tasks[t].state == Running
  {
    hide HistoryInv, EventsInv, RowsInv, HasSlot, HasWinner;
    TaskFacts(db, t);
  }

  // ----- runs that leave mapped tasks to the job queue

  /**
   The steps that keep the projection: of the direct calls those that are refused, those on
   a task that no job is mapped to, and renewals that do not lengthen the lease; of the
   submissions of jobs those whose task is new, or still as a new job would have it.
   */
  ghost predicate Respects(db: Db, op: Op, now: Time) {
    match op
    case Move(stamp, t, to, reason, causation) =>
      Tasks.Transition(db, stamp, t, to, reason, causation, now).Done? ==> !Tasks.IsMapped(db, t)
    case Cancel(stamp, t, lease) => Tasks.Cancel(db, stamp, t, lease, now).Done? ==> !Tasks.IsMapped(db, t)
    case Retry(stamp, t) => Tasks.Retry(db, stamp, t, now).Done? ==> !Tasks.IsMapped(db, t)
    case Claim(stamp, a, t, plan, owner, seconds) =>
      Tasks.Claim(db, stamp, a, t, plan, owner, seconds, now).Done? ==> !Tasks.IsMapped(db, t)
    case Renew(stamp, lease, seconds) =>
      Tasks.Renew(db, stamp, lease, seconds, now).Done? ==>
        !(Tasks.IsMapped(db, lease.taskId) && Lengthens(db, lease, seconds, now))
    case Complete(stamp, lease, success, outcome, error, retryable, retryAt) =>
      Tasks.Complete(db, stamp, lease, success, outcome, error, retryable, retryAt, now).Done? ==>
        !Tasks.IsMapped(db, lease.taskId)
    case SubmitJob(stamp, bound, j, hash, engine, timeout, most, reference) =>
      Jobs.SubmitJob(db, stamp, bound, j, hash, engine, timeout, most, reference, now).Done? && Jobs.TaskIdOf(j) in db.tasks ==>
        Queueable(db.tasks[Jobs.TaskIdOf(j)], now)
    case _ => true
  }

  lemma SameProjection(db: Db, after: Db)
    requires ProjectionInv(db) && after.jobs == db.jobs && after.mappings == db.mappings && after.attempts == db.attempts
    requires forall t :: t in db.tasks ==> t in after.tasks && after.tasks[t] == db.tasks[t]
    ensures ProjectionInv(after)
  {
    forall j | j in after.mappings
      ensures j in after.jobs && Projected(after.jobs[j], after.mappings[j], after.tasks, after.attempts)
    {
      ProjectionOf(db, j);
    }
  }

  lemma NewTaskProjection(db: Db, stamp: Stamp, r: Tasks.Request, now: Time)
    requires ProjectionInv(db)
    ensures ProjectionInv(Commit(db, Tasks.Submit(db, stamp, r, now)))
  {
    hide Tasks.Submit;
    if Tasks.Submit(db, stamp, r, now).Done? {
      SubmitRow(db, stamp, r, now);
      SubmitJobTables(db, stamp, r, now);
      SameProjection(db, Tasks.Submit(db, stamp, r, now).db);
    }
  }

  lemma SubmitJobTables(db: Db, stamp: Stamp, r: Tasks.Request, now: Time)
    requires Tasks.Submit(db, stamp, r, now).Done?
    ensures var after := Tasks.Submit(db, stamp, r, now).db; after.jobs == db.jobs && after.mappings == db.mappings
  {
    hide EventLog.AppendTo;
  }

  /** The steps of the task repository. */
  lemma TaskStepExact(db: Db, sha: Checkpoints.Sha, op: Op, now: Time)
    requires Inv(db) && ProjectionInv(db) && CanHappen(db, op, now)
    requires op.Submit? || op.Move? || op.Cancel? || op.Retry? || op.Claim? || op.Renew? || op.Complete?
    ensures ProjectionInv(After(db, sha, op, now)) <==> Respects(db, op, now)
  {
    hide Inv, ProjectionInv, Tasks.IsMapped, Tasks.Submit, Tasks.Transition, Tasks.Cancel, Tasks.Retry, Tasks.Claim,
      Tasks.Renew, Tasks.Complete, Lengthens;
    match op {
      case Submit(stamp, r) => NewTaskProjection(db, stamp, r, now);
      case Move(stamp, t, to, reason, causation) =>
        if Tasks.Transition(db, stamp, t, to, reason, causation, now).Done? {
          MoveExact(db, stamp, t, to, reason, causation, now);
        }
      case Cancel(stamp, t, lease) =>
        if Tasks.Cancel(db, stamp, t, lease, now).Done? {
          DirectCancelExact(db, stamp, t, lease, now);
        }
      case Retry(stamp, t) =>
        if Tasks.Retry(db, stamp, t, now).Done? {
          DirectRetryExact(db, stamp, t, now);
        }
      case Claim(stamp, a, t, plan, owner, seconds) =>
        if Tasks.Claim(db, stamp, a, t, plan, owner, seconds, now).Done? {
          DirectClaimExact(db, stamp, a, t, plan, owner, seconds, now);
        }
      case Renew(stamp, lease, seconds) =>
        if Tasks.Renew(db, stamp, lease, seconds, now).Done? {
          DirectRenewExact(db, stamp, lease, seconds, now);
        }
      case Complete(stamp, lease, success, outcome, error, retryable, retryAt) =>
        if Tasks.Complete(db, stamp, lease, success, outcome, error, retryable, retryAt, now).Done? {
          DirectCompleteExact(db, stamp, lease, success, outcome, error, retryable, retryAt, now);
        }
    }
  }

  lemma SubmitJobExact(db: Db, sha: Checkpoints.Sha, op: Op, now: Time)
    requires Consistent(db, sha) && op.SubmitJob?
    ensures ProjectionInv(After(db, sha, op, now)) <==> Respects(db, op, now)
  {
    hide Inv, CheckpointInvariants.CheckpointInv, BindingInv, ProjectionInv, Evolves, Jobs.SubmitJob, Jobs.TaskIdOf, Queueable;
    var j := op.jobId;
    if Jobs.TaskIdOf(j) !in db.tasks {
      SubmitJobKeeps(db, sha, op.stamp, op.bound, j, op.requestHash, op.engine, op.timeout, op.maxAttempts, op.reference, now);
    } else if Jobs.SubmitJob(db, op.stamp, op.bound, j, op.requestHash, op.engine, op.timeout, op.maxAttempts, op.reference, now).Done? {
      AgainExact(db, op.stamp, op.bound, j, op.requestHash, op.engine, op.timeout, op.maxAttempts, op.reference, now);
    }
  }

  lemma CreateProjects(db: Db, sha: Checkpoints.Sha, stamp: Stamp, bound: Stamp, r: Tasks.Request, reference: Reference, now: Time)
    requires Consistent(db, sha)
    ensures ProjectionInv(Commit(db, Checkpoints.CreateTask(db, stamp, bound, r, reference, now)))
  {
    hide Sound, ProjectionInv, Checkpoints.CreateTask, Evolves;
    CreateKeeps(db, sha, stamp, bound, r, reference, now);
    SameProjection(db, Commit(db, Checkpoints.CreateTask(db, stamp, bound, r, reference, now)));
  }

  lemma CheckpointProjects(db: Db, sha: Checkpoints.Sha, stamp: Stamp, lease: Lease, reference: Reference, step: string,
                           versions: map<string, Json.Json>, resumable: bool, now: Time)
    requires Consistent(db, sha)
    requires Checkpoints.Authenticates(db, reference, CheckpointOf(lease.taskId, lease.attemptId, lease.fence))
    ensures ProjectionInv(Commit(db, Checkpoints.MakeCheckpoint(db, sha, stamp, lease, reference, step, versions, resumable, now)))
  {
    hide Inv, CheckpointInvariants.CheckpointInv, BindingInv, ProjectionInv, Checkpoints.MakeCheckpoint, Evolves, Checkpoints.Authenticates;
    CheckpointInvariants.CheckpointKeeps(db, sha, stamp, lease, reference, step, versions, resumable, now);
    SameProjection(db, Commit(db, Checkpoints.MakeCheckpoint(db, sha, stamp, lease, reference, step, versions, resumable, now)));
  }

  lemma RecoverProjection(db: Db, sha: Checkpoints.Sha, stamps: seq<Stamp>, rows: seq<string>, now: Time)
    requires Consistent(db, sha) && |stamps| == |rows| && Recovery.Expirable(db, rows, now)
    ensures ProjectionInv(Commit(db, Tasks.Recover(db, stamps, rows, now)))
  {
    hide Inv, CheckpointInvariants.CheckpointInv, BindingInv, ProjectionInv, Tasks.Recover, Recovery.Expirable;
    RecoverProjects(db, stamps, rows, now);
  }

  lemma PutProjects(db: Db, stored: StoredObject)
    requires ProjectionInv(db)
    ensures ProjectionInv(Commit(db, Checkpoints.Put(db, stored)))
  {
    hide ProjectionInv;
    SameProjection(db, Commit(db, Checkpoints.Put(db, stored)));
  }

  lemma PublishProjects(db: Db, e: Event)
    requires ProjectionInv(db)
    ensures ProjectionInv(Commit(db, EventLog.Append(db, e)))
  {
    hide ProjectionInv, EventLog.AppendTo;
    hide EventLog.Append;
    EventLog.AppendOnly(db, e);
    SameProjection(db, Commit(db, EventLog.Append(db, e)));
  }

  lemma AckProjects(db: Db, consumer: string, through: int)
    requires ProjectionInv(db)
    ensures ProjectionInv(Commit(db, EventLog.Ack(db, consumer, through)))
  {
    hide ProjectionInv, EventLog.Ack;
    AckOnly(db, consumer, through);
    SameProjection(db, Commit(db, EventLog.Ack(db, consumer, through)));
  }

  /** The projection, and with it every invariant, is kept by exactly these steps. */
  lemma StepConsistent(db: Db, sha: Checkpoints.Sha, op: Op, now: Time)
    requires Consistent(db, sha) && CanHappen(db, op, now)
    ensures Consistent(After(db, sha, op, now), sha) <==> Respects(db, op, now)
  {
    hide Sound, ProjectionInv, Evolves, CanHappen, After, Respects;
    StepSound(db, sha, op, now);
    StepProjects(db, sha, op, now);
  }

  lemma StepProjects(db: Db, sha: Checkpoints.Sha, op: Op, now: Time)
    requires Consistent(db, sha) && CanHappen(db, op, now)
    ensures ProjectionInv(After(db, sha, op, now)) <==> Respects(db, op, now)
  {
    if op.Submit? || op.Move? || op.Cancel? || op.Retry? || op.Claim? || op.Renew? || op.Complete? {
      hide Sound, ProjectionInv, CanHappen, After, Respects;
      SoundInv(db, sha);
      TaskStepExact(db, sha, op, now);
    } else if op.SubmitJob? {
      hide Sound, ProjectionInv, CanHappen, After, Respects;
      SubmitJobExact(db, sha, op, now);
    } else {
      hide Sound, ProjectionInv, CanHappen, After;
      OtherStepProjects(db, sha, op, now);
    }
  }

  /** The other steps always keep it. */
  lemma OtherStepProjects(db: Db, sha: Checkpoints.Sha, op: Op, now: Time)
    requires Consistent(db, sha) && CanHappen(db, op, now)
    requires !(op.Submit? || op.Move? || op.Cancel? || op.Retry? || op.Claim? || op.Renew? || op.Complete? || op.SubmitJob?)
    ensures ProjectionInv(After(db, sha, op, now))
  {
    hide Sound, ProjectionInv, Evolves, Recovery.Expirable, AllStale, Checkpoints.Authenticates,
      Jobs.RecoverStale, Jobs.ClaimJob, Jobs.FinishJob, Jobs.CancelJob, Jobs.RetryJob, Jobs.DeleteJob,
      Checkpoints.CreateTask, Checkpoints.MakeCheckpoint, Tasks.Recover, Checkpoints.Put, EventLog.Append, EventLog.Ack;
    match op {
      case RecoverStale(stamps, rows) => RecoverStaleKeeps(db, sha, stamps, rows, now);
      case ClaimJob(ids, j, owner, seconds) => ClaimJobKeeps(db, sha, ids, j, owner, seconds, now);
      case FinishJob(stamp, j, claimed, attempt, lease, result) =>
        FinishJobKeeps(db, sha, stamp, j, claimed, attempt, lease, result, now);
      case CancelJob(stamp, j) => CancelJobKeeps(db, sha, stamp, j, now);
      case RetryJob(stamp, j, later) => RetryJobKeeps(db, sha, stamp, j, now, later);
      case DeleteJob(j) => DeleteJobKeeps(db, sha, j, now);
      case Create(stamp, bound, r, reference) => CreateProjects(db, sha, stamp, bound, r, reference, now);
      case Checkpoint(stamp, lease, reference, step, versions, resumable) =>
        CheckpointProjects(db, sha, stamp, lease, reference, step, versions, resumable, now);
      case Recover(stamps, rows) => RecoverProjection(db, sha, stamps, rows, now);
      case Put(stored) => PutProjects(db, stored);
      case Publish(e) => PublishProjects(db, e);
      case Acknowledge(consumer, through) => AckProjects(db, consumer, through);
    }
  }

  // ----- runs

  /** Every step of the run keeps the projection. */
  ghost predicate RespectsAll(db: Db, sha: Checkpoints.Sha, start: Time, steps: seq<Step>)
    requires IsRun(db, sha, start, steps)
    decreases |steps|
  {
    steps == [] ||
    (Respects(db, steps[0].op, steps[0].now)
     && RespectsAll(After(db, sha, steps[0].op, steps[0].now), sha, steps[0].now, steps[1..]))
  }

  ghost predicate ConsistentThroughout(db: Db, sha: Checkpoints.Sha, start: Time, steps: seq<Step>)
    requires IsRun(db, sha, start, steps)
    decreases |steps|
  {
    Consistent(db, sha)
    && (steps == [] || ConsistentThroughout(After(db, sha, steps[0].op, steps[0].now), sha, steps[0].now, steps[1..]))
  }

  /** The job table matches the tasks it is mapped to at every moment of a run exactly when every step is one of these. */
  lemma {:induction false} RunConsistent(db: Db, sha: Checkpoints.Sha, start: Time, steps: seq<Step>)
    requires Consistent(db, sha) && IsRun(db, sha, start, steps)
    ensures ConsistentThroughout(db, sha, start, steps) <==> RespectsAll(db, sha, start, steps)
    ensures RespectsAll(db, sha, start, steps) ==> Consistent(Final(db, sha, start, steps), sha)
    decreases |steps|
  {
    hide Consistent, CanHappen, After, Respects;
    if steps != [] {
      var next := After(db, sha, steps[0].op, steps[0].now);
      StepConsistent(db, sha, steps[0].op, steps[0].now);
      if Consistent(next, sha) {
        RunConsistent(next, sha, steps[0].now, steps[1..]);
      }
    }
  }

  // ----- a direct call that breaks it

  const JOB: string := "j"
  const INPUT: Reference := Reference("reference", "backend", "object", "hash", 1, "schema", "input", "mac")
  const QUEUING: Step := Step(SubmitJob(Numbered("1"), Numbered("2"), JOB, "", "auto", 600, 1, INPUT), 0.0)
  const CANCELLING: Step := Step(Cancel(Numbered("3"), Jobs.TaskIdOf(JOB), None), 0.0)

  /** The database with one job, which waits to be claimed. */
  ghost function Queued(sha: Checkpoints.Sha): Db {
    After(EMPTY, sha, QUEUING.op, 0.0)
  }

  lemma AppendedFresh(db: Db, after: Db, e: Event, s: Stamp)
    requires EventLog.AppendTo(db.events, e).Success? && after.events == EventLog.AppendTo(db.events, e).value.0
    requires after.transitions == db.transitions && Fresh(db, s) && s.eventId != e.id
    ensures Fresh(after, s)
  {
  }

  lemma SubmittedFresh(db: Db, stamp: Stamp, r: Tasks.Request, now: Time, s: Stamp)
    requires Inv(db) && Fresh(db, stamp) && Fresh(db, s) && Apart(s, stamp) && Tasks.Submit(db, stamp, r, now).Done?
    ensures Fresh(Tasks.Submit(db, stamp, r, now).db, s)
  {
    hide Inv, Fresh, Tasks.Submit;
    SubmitExact(db, stamp, r, now);
    if r.taskId !in db.tasks {
      AdvancedFresh(db, r.taskId, Tasks.NewRow(r, now), db.attempts,
        Tasks.KernelEvent(stamp, "task.created", r.taskId, Keys.Created(r.taskId), Submitted(Tasks.SubmissionOf(r))),
        Tasks.NewTransition(stamp, r.taskId, None, None, Tasks.NewRow(r, now), "submitted", now), stamp, s);
    }
  }

  lemma CreatedFresh(db: Db, stamp: Stamp, bound: Stamp, r: Tasks.Request, reference: Reference, now: Time, s: Stamp)
    requires Inv(db) && Fresh(db, stamp) && Fresh(db, s) && Apart(s, stamp) && Apart(s, bound)
    requires Checkpoints.CreateTask(db, stamp, bound, r, reference, now).Done?
    ensures Fresh(Checkpoints.CreateTask(db, stamp, bound, r, reference, now).db, s)
  {
    hide Inv, Fresh, Tasks.Submit, Bind, EventLog.AppendTo;
    CreateUnfolds(db, stamp, bound, r, reference, now);
    hide Checkpoints.CreateTask;
    SubmittedFresh(db, stamp, r, now, s);
    var submitted := Tasks.Submit(db, stamp, r, now).db;
    BindUnfolds(submitted, bound, r, reference);
    AppendedFresh(submitted, Bind(submitted, bound, r, reference).db, Checkpoints.BoundEvent(bound, r.taskId, reference, r.taskType), s);
  }

  lemma QueuedFresh(sha: Checkpoints.Sha, s: Stamp)
    requires Apart(s, Numbered("1")) && Apart(s, Numbered("2"))
    requires Jobs.SubmitJob(EMPTY, Numbered("1"), Numbered("2"), JOB, "", "auto", 600, 1, INPUT, 0.0).Done?
    ensures Fresh(Queued(sha), s)
  {
    hide Inv, Numbered, Apart, Checkpoints.CreateTask, Jobs.TaskIdOf;
    var start := EMPTY.(jobs := EMPTY.jobs[JOB := Jobs.NewJob("auto", 600, 1, 0.0)]);
    EmptyInv();
    JobsInv(EMPTY, start);
    CreatedFresh(start, Numbered("1"), Numbered("2"), Jobs.TaskRequest(JOB, "", 1), INPUT, 0.0, s);
  }

  lemma JobsInv(db: Db, after: Db)
    requires Inv(db) && after == db.(jobs := after.jobs)
    ensures Inv(after)
  {
    hide FencingInv, HistoryInv, EventsInv, RowsInv;
  }

  /** The job waits, its task is new, and the third stamp is not used. */
  lemma QueuedStands(sha: Checkpoints.Sha)
    ensures Consistent(EMPTY, sha) && Consistent(Queued(sha), sha) && Fresh(Queued(sha), Numbered("3"))
    ensures JOB in Queued(sha).jobs && Queued(sha).jobs[JOB].status == JobQueued
    ensures JOB in Queued(sha).mappings && Queued(sha).mappings[JOB].taskId == Jobs.TaskIdOf(JOB)
  {
    hide Inv, CheckpointInvariants.CheckpointInv, BindingInv, ProjectionInv, Fresh, Apart, Numbered, Jobs.SubmitJob, Jobs.TaskIdOf,
      Tasks.KeyTaken, Evolves;
    StampsDiffer();
    EmptyInv();
    InitialConsistent(EMPTY, sha);
    NoKeyTaken();
    SubmitProgress(EMPTY, sha, Numbered("1"), Numbered("2"), JOB, "", "auto", 600, 1, INPUT, 0.0);
    SubmitJobKeeps(EMPTY, sha, Numbered("1"), Numbered("2"), JOB, "", "auto", 600, 1, INPUT, 0.0);
    QueuedFresh(sha, Numbered("3"));
    SubmittedJob(EMPTY, Numbered("1"), Numbered("2"), JOB, "", "auto", 600, 1, INPUT, 0.0);
  }

  lemma NoKeyTaken()
    ensures !Tasks.KeyTaken(EMPTY.tasks, Some("legacy-job:" + JOB)) && Checkpoints.InsertReference(EMPTY, INPUT).Done?
  {
  }

  lemma SubmittedJob(db: Db, stamp: Stamp, bound: Stamp, j: string, requestHash: string, engine: string, timeout: int,
                     maxAttempts: int, reference: Reference, now: Time)
    requires Jobs.SubmitJob(db, stamp, bound, j, requestHash, engine, timeout, maxAttempts, reference, now).Done?
    ensures j !in db.jobs
    ensures var after := Jobs.SubmitJob(db, stamp, bound, j, requestHash, engine, timeout, maxAttempts, reference, now).db;
      && after.jobs == db.jobs[j := Jobs.NewJob(engine, timeout, maxAttempts, now)]
      && after.mappings.Keys == db.mappings.Keys + {j}
  {
    hide Bind, Tasks.Submit, Jobs.TaskIdOf, Jobs.NewJob;
    var start := db.(jobs := db.jobs[j := Jobs.NewJob(engine, timeout, maxAttempts, now)]);
    var r := Jobs.TaskRequest(j, requestHash, maxAttempts);
    CreateUnfolds(start, stamp, bound, r, reference, now);
    hide Checkpoints.CreateTask;
    SubmitJobTables(start, stamp, r, now);
    BindUnfolds(Tasks.Submit(start, stamp, r, now).db, bound, r, reference);
  }

  /** A job that is queued while its task is cancelled: it was submitted, and its task then cancelled directly. */
  lemma DirectCancelBreaks(sha: Checkpoints.Sha)
    ensures IsRun(EMPTY, sha, 0.0, [QUEUING, CANCELLING]) && Consistent(EMPTY, sha)
    ensures var end := Final(EMPTY, sha, 0.0, [QUEUING, CANCELLING]);
      && JOB in end.jobs && end.jobs[JOB].status == JobQueued
      && JOB in end.mappings && end.mappings[JOB].taskId in end.tasks && end.tasks[end.mappings[JOB].taskId].state == Cancelled
      && !Consistent(end, sha)
  {
    hide Sound, ProjectionInv, Fresh, Numbered, Jobs.TaskIdOf, Tasks.Cancel, IsRun, Final, Queued;
    QueuedStands(sha);
    CancelledDirectly(Queued(sha), sha);
    CancellingRuns(sha);
  }

  lemma CancellingRuns(sha: Checkpoints.Sha)
    ensures IsRun(EMPTY, sha, 0.0, [QUEUING, CANCELLING])
    ensures Final(EMPTY, sha, 0.0, [QUEUING, CANCELLING]) == After(Queued(sha), sha, CANCELLING.op, 0.0)
  {
    hide Numbered, Jobs.SubmitJob, Jobs.TaskIdOf, Tasks.Cancel;
    RunStarts(Queued(sha), sha, 0.0, CANCELLING, []);
    RunStarts(EMPTY, sha, 0.0, QUEUING, [CANCELLING] + []);
    assert [QUEUING, CANCELLING] == [QUEUING] + ([CANCELLING] + []);
  }

  lemma CancelledDirectly(db: Db, sha: Checkpoints.Sha)
    requires Consistent(db, sha) && Fresh(db, Numbered("3")) && JOB in db.jobs && db.jobs[JOB].status == JobQueued
    requires JOB in db.mappings && db.mappings[JOB].taskId == Jobs.TaskIdOf(JOB)
    ensures var end := Commit(db, Tasks.Cancel(db, Numbered("3"), Jobs.TaskIdOf(JOB), None, 0.0));
      && end.jobs == db.jobs && end.mappings == db.mappings
      && db.mappings[JOB].taskId in end.tasks && end.tasks[db.mappings[JOB].taskId].state == Cancelled && !ProjectionInv(end)
  {
    hide Sound, ProjectionInv, Fresh, Numbered, Jobs.TaskIdOf, Tasks.Cancel;
    var t := Jobs.TaskIdOf(JOB);
    SoundInv(db, sha);
    WaitingTask(db, JOB);
    CancelExact(db, Numbered("3"), t, None, 0.0);
    DirectCancelExact(db, Numbered("3"), t, None, 0.0);
  }
}
