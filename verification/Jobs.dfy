/**
 The durable job queue (harness2/jobs.py): a second table that mirrors kernel tasks. Each
 transaction is a function from the database before it to its outcome.
 */
module Jobs {
  import opened Tables
  import opened Wrappers
  import Checkpoints
  import EventLog
  import Keys
  import Tasks

  const SOURCE: string := "legacy.jobs"

  function TaskIdOf(jobId: string): string {
    "legacy-job-" + jobId
  }

  // ----- submission

  function TaskRequest(jobId: string, requestHash: string, maxAttempts: int): Tasks.Request {
    Tasks.Request(TaskIdOf(jobId), requestHash, "legacy.run/v1", "legacy.jobs", "legacy job compatibility submission",
                  0, "authenticated_user", Some("legacy-job:" + jobId), Max(1, maxAttempts))
  }

  function NewJob(engine: string, timeout: int, maxAttempts: int, now: Time): Job {
    Job(now, now, JobQueued, engine, timeout, 0, Max(1, maxAttempts), now, None, None, None, None)
  }

  function SubmitJob(db: Db, stamp: Stamp, bound: Stamp, jobId: string, requestHash: string, engine: string,
                     timeout: int, maxAttempts: int, reference: Reference, now: Time): Outcome<()>
  {
    if jobId in db.jobs then Raised(IntegrityError)
    else
      var t := TaskIdOf(jobId);
      match Checkpoints.CreateTask(db.(jobs := db.jobs[jobId := NewJob(engine, timeout, maxAttempts, now)]),
                                   stamp, bound, TaskRequest(jobId, requestHash, maxAttempts), reference, now)
      case Raised(e) => Raised(e)
      case Done(db1, _) =>
        if jobId in db1.mappings || Tasks.IsMapped(db1, t) then Raised(IntegrityError)
        else Done(db1.(mappings := db1.mappings[jobId := Mapping(t, reference.id, None, None, 0, now)]), ())
  }

  // ----- recovery of stale jobs

  predicate IsStale(job: Job, now: Time) {
    job.status == JobRunning && job.leaseUntil.Some? && job.leaseUntil.value < now
  }

  /** The task of a stale job fails when its own attempt has expired too. */
  function StaleTask(db: Db, stamp: Stamp, t: string, now: Time): Outcome<()> {
    if t in db.tasks && db.tasks[t].state == Running && db.tasks[t].active.Some?
      && db.tasks[t].active.value in db.attempts && db.attempts[db.tasks[t].active.value].leaseUntil < now
    then
      match Tasks.Expire(db, stamp, t, db.tasks[t].active.value, Failed, now)
      case Raised(e) => Raised(e)
      case Done(db1, _) => Done(db1, ())
    else Done(db, ())
  }

  function StaleStatus(db: Db, t: string): JobStatus {
    if t in db.tasks && db.tasks[t].state == Completed then JobSucceeded
    else if t in db.tasks && db.tasks[t].state == Cancelled then JobCancelled
    else JobDead
  }

  function StaleJob(job: Job, status: JobStatus, now: Time): Job {
    job.(status := status, workerPid := None, leaseUntil := None, updatedAt := now, errorCode := Some("lease_expired"))
  }

  function RecoverStaleJob(db: Db, stamp: Stamp, j: string, now: Time): Outcome<()> {
    if j !in db.mappings || j !in db.jobs then Done(db, ())
    else
      match StaleTask(db, stamp, db.mappings[j].taskId, now)
      case Raised(e) => Raised(e)
      case Done(db1, _) =>
        Done(db1.(jobs := db1.jobs[j := StaleJob(db.jobs[j], StaleStatus(db1, db.mappings[j].taskId), now)]), ())
  }

  function RecoverStaleJobs(db: Db, stamps: seq<Stamp>, rows: seq<string>, now: Time): Outcome<()>
    requires |stamps| == |rows|
    decreases |rows|
  {
    if rows == [] then Done(db, ())
    else
      match RecoverStaleJob(db, stamps[0], rows[0], now)
      case Raised(e) => Raised(e)
      case Done(db1, _) => RecoverStaleJobs(db1, stamps[1..], rows[1..], now)
  }

  function QuarantineStale(db: Db, now: Time): Db {
    db.(jobs := map j | j in db.jobs ::
      if IsStale(db.jobs[j], now) && j !in db.mappings
      then StaleJob(db.jobs[j], JobDead, now).(errorCode := Some("legacy_payload_not_migrated"))
      else db.jobs[j])
  }

  /** The mapped stale jobs, each once, in some order. */
  ghost predicate IsStaleQuery(db: Db, rows: seq<string>, now: Time) {
    && (forall i, k :: 0 <= i < k < |rows| ==> rows[i] != rows[k])
    && (forall j :: j in rows <==> j in db.jobs && j in db.mappings && IsStale(db.jobs[j], now))
  }

  function RecoverStale(db: Db, stamps: seq<Stamp>, rows: seq<string>, now: Time): Outcome<()>
    requires |stamps| == |rows|
  {
    match RecoverStaleJobs(db, stamps, rows, now)
    case Raised(e) => Raised(e)
    case Done(db1, _) => Done(QuarantineStale(db1, now), ())
  }

  // ----- claim

  predicate IsDue(job: Job, now: Time) {
    job.status in {JobQueued, JobRetry} && job.nextRunAt <= now
  }

  /** A possible answer to the query for the oldest due job. */
  ghost predicate IsNextJob(db: Db, next: Option<string>, now: Time) {
    match next
    case None => forall j :: j in db.jobs ==> !IsDue(db.jobs[j], now)
    case Some(j) =>
      && j in db.jobs && IsDue(db.jobs[j], now)
      && forall k :: k in db.jobs && IsDue(db.jobs[k], now) ==> db.jobs[j].createdAt <= db.jobs[k].createdAt
  }

  datatype Claimed = Quarantined | ClaimedJob(lease: Lease, attempt: nat)

  function QuarantineEvent(stamp: Stamp, j: string): Event {
    Event(stamp.eventId, "legacy.job.quarantined", 1, SOURCE, None, j, None, stamp.occurredAt,
          JobQuarantined(j), "{}", Some(Keys.Render(Keys.Unmigrated(j))))
  }

  /** A job without a task is quarantined. */
  function Quarantine(db: Db, stamp: Stamp, j: string, now: Time): Outcome<Claimed>
    requires j in db.jobs
  {
    var job := db.jobs[j].(status := JobDead, updatedAt := now, errorCode := Some("legacy_payload_not_migrated"));
    match EventLog.Append(db.(jobs := db.jobs[j := job]), QuarantineEvent(stamp, j))
    case Raised(e) => Raised(e)
    case Done(db1, _) => Done(db1, Quarantined)
  }

  function ClaimedRow(job: Job, leaseUntil: Time, pid: int, now: Time): Job {
    job.(status := JobRunning, attempt := job.attempt + 1, workerPid := Some(pid),
         leaseUntil := Some(leaseUntil), updatedAt := now)
  }

  datatype ClaimIds = ClaimIds(first: Stamp, second: Stamp, started: Stamp, attemptId: string, planId: string, pid: int)

  function Runtime(job: Job): string {
    if job.engine != "auto" then job.engine else "opencode"
  }

  function ClaimJob(db: Db, ids: ClaimIds, j: string, owner: string, leaseSeconds: int, now: Time): Outcome<Claimed>
    requires j in db.jobs
  {
    if j !in db.mappings then Quarantine(db, ids.first, j, now)
    else
      var t := db.mappings[j].taskId;
      if t !in db.tasks then Raised(MissingMapping)
      else
        match Tasks.Prepare(db, ids.first, ids.second, t, now)
        case Raised(e) => Raised(e)
        case Done(db1, _) =>
          match Tasks.Claim(db1, ids.started, ids.attemptId, t, Plan(ids.planId, t, Runtime(db.jobs[j])), owner,
                            Max(leaseSeconds, db.jobs[j].timeout + 120), now)
          case Raised(e) => Raised(e)
          case Done(db2, lease) =>
            var job := ClaimedRow(db.jobs[j], lease.leaseUntil, ids.pid, now);
            var m := db.mappings[j].(attemptId := Some(lease.attemptId), fence := Some(lease.fence),
                                     projection := db.mappings[j].projection + 1);
            Done(db2.(jobs := db2.jobs[j := job], mappings := db2.mappings[j := m]), ClaimedJob(lease, job.attempt))
  }

  // ----- completion of a claimed job

  /** What a worker found out about the job it claimed as its given attempt. */
  datatype WorkResult = WorkResult(
    success: bool, transient: bool, outcomeHash: string, errorCode: Option<string>, runId: Option<string>)

  function Power2(n: nat): nat {
    if n == 0 then 1 else 2 * Power2(n - 1)
  }

  /** Whether the worker asks for a retry, and when. */
  predicate AsksRetry(job: Job, attempt: nat, result: WorkResult) {
    !result.success && result.transient && attempt < job.maxAttempts
  }

  function NextRun(job: Job, attempt: nat, result: WorkResult, now: Time): Time {
    if AsksRetry(job, attempt, result) then now + Min(300, Power2(attempt)) as real else now
  }

  function FinishedStatus(state: TaskState): JobStatus {
    if state == Completed then JobSucceeded else if state == Retrying then JobRetry else JobDead
  }

  function FinishedRow(job: Job, state: TaskState, result: WorkResult, nextRun: Time, now: Time): Job {
    job.(status := FinishedStatus(state), updatedAt := now, leaseUntil := None, workerPid := None,
         resultRunId := result.runId, errorCode := result.errorCode, nextRunAt := nextRun)
  }

  /** The completion transaction of `work_once`, for the job row the worker read when it claimed. */
  function FinishJob(db: Db, stamp: Stamp, j: string, claimed: Job, attempt: nat, lease: Lease, result: WorkResult,
                     now: Time): Outcome<JobStatus>
  {
    if j !in db.mappings || db.mappings[j].attemptId != Some(lease.attemptId) || db.mappings[j].fence != Some(lease.fence)
    then Raised(StaleLease)
    else
      var nextRun := NextRun(claimed, attempt, result, now);
      match Tasks.Complete(db, stamp, lease, result.success, result.outcomeHash, result.errorCode,
                           AsksRetry(claimed, attempt, result), Some(nextRun), now)
      case Raised(e) => Raised(e)
      case Done(db1, task) =>
        if j !in db1.jobs || db1.jobs[j].status != JobRunning then Raised(StaleLease)
        else
          Done(db1.(jobs := db1.jobs[j := FinishedRow(db1.jobs[j], task.state, result, nextRun, now)]),
               FinishedStatus(task.state))
  }

  // ----- operator actions

  function CancelledJob(job: Job, now: Time): Job {
    job.(status := JobCancelled, updatedAt := now)
  }

  function CancelJob(db: Db, stamp: Stamp, j: string, now: Time): Outcome<bool> {
    if j !in db.jobs || db.jobs[j].status !in {JobQueued, JobRetry} then Done(db, false)
    else if j !in db.mappings then Done(db.(jobs := db.jobs[j := CancelledJob(db.jobs[j], now)]), true)
    else
      var t := db.mappings[j].taskId;
      if t !in db.tasks || Terminal(db.tasks[t].state) || db.tasks[t].active.Some? then Done(db, false)
      else
        var task := db.tasks[t];
        var row := Tasks.CancelledRow(task, now);
        match Tasks.Advance(db, t, row, db.attempts,
                            Tasks.MovedEvent(stamp, t, "task.cancelled", task, Cancelled, "user.cancelled"),
                            Tasks.NewTransition(stamp, t, None, Some(task.state), row, "user.cancelled", now))
        case Raised(e) => Raised(e)
        case Done(db1, _) => Done(db1.(jobs := db1.jobs[j := CancelledJob(db.jobs[j], now)]), true)
  }

  function RequeuedJob(job: Job, now: Time): Job {
    job.(status := JobQueued, nextRunAt := now, errorCode := None, updatedAt := now)
  }

  function Requeue(db: Db, j: string, now: Time): Outcome<bool> {
    if j in db.jobs && db.jobs[j].status == JobDead
    then Done(db.(jobs := db.jobs[j := RequeuedJob(db.jobs[j], now)]), true)
    else Done(db, false)
  }

  /** now and later are the two clock readings of the transaction. */
  function RetryJob(db: Db, stamp: Stamp, j: string, now: Time, later: Time): Outcome<bool> {
    if j !in db.mappings then Requeue(db, j, later)
    else
      var t := db.mappings[j].taskId;
      if t !in db.tasks || db.tasks[t].state != Failed || db.tasks[t].attemptsStarted >= db.tasks[t].maxAttempts
      then Done(db, false)
      else
        match Tasks.Retry(db, stamp, t, now)
        case Raised(e) => Raised(e)
        case Done(db1, _) => Requeue(db1, j, later)
  }

  /** The deletions of `purge`, which follow a check that is not part of their transaction. */
  function DeleteJob(db: Db, j: string): Db {
    db.(jobs := map k | k in db.jobs && k != j :: db.jobs[k],
        mappings := map k | k in db.mappings && k != j :: db.mappings[k])
  }
}
