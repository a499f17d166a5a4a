/**
 What each committed transaction of the job queue writes into job, mapping, task and attempt,
 in terms of its arguments and of the rows it found.
 */
module JobsWritten {
  import opened Inputs
  import opened JobInvariants
  import opened JobProgress
  import opened JobSteps
  import opened Jobs
  import opened TaskEffects
  import opened TaskInvariants
  import opened Tables
  import opened Wrappers
  import CheckpointInvariants
  import Checkpoints
  import EventLog
  import Tasks

  // ----- submission

  /** A new job and its task are due at once; the task asks for what the job asks for. */
  lemma SubmitJobWrites(db: Db, sha: Checkpoints.Sha, stamp: Stamp, bound: Stamp, j: string, requestHash: string, engine: string,
                        timeout: int, maxAttempts: int, reference: Reference, now: Time)
    requires Consistent(db, sha) && Fresh(db, stamp) && Fresh(db, bound) && Apart(stamp, bound) && "legacy-job-" + j !in db.tasks
    requires SubmitJob(db, stamp, bound, j, requestHash, engine, timeout, maxAttempts, reference, now).Done?
    ensures var after := SubmitJob(db, stamp, bound, j, requestHash, engine, timeout, maxAttempts, reference, now).db;
      var t, most := "legacy-job-" + j, if maxAttempts < 1 then 1 else maxAttempts;
      var asked := Submission(requestHash, "legacy.run/v1", "legacy.jobs", "legacy job compatibility submission", 0,
                              "authenticated_user", most);
      && after.jobs == db.jobs[j := Job(now, now, JobQueued, engine, timeout, 0, most, now, None, None, None, None)]
      && after.mappings == db.mappings[j := Mapping(t, reference.id, None, None, 0, now)]
      && after.tasks == db.tasks[t := Task(asked, Some("legacy-job:" + j), Created, most, 0, 0, None, now, None, None, now, now, None, 0)]
      && after.attempts == db.attempts && after.inputs == db.inputs[t := reference.id]
  {
    hide Inv, CheckpointInvariants.CheckpointInv, BindingInv, ProjectionInv, Fresh, Apart, Checkpoints.CreateTask,
      Checkpoints.InsertReference, Tasks.KeyTaken, Evolves;
    var start := db.(jobs := db.jobs[j := NewJob(engine, timeout, maxAttempts, now)]);
    var r := TaskRequest(j, requestHash, maxAttempts);
    JobsApart(db, start, sha);
    SameFresh(db, start);
    CreateExact(start, sha, stamp, bound, r, reference, now);
    CreateKeeps(start, sha, stamp, bound, r, reference, now);
  }

  // ----- claim

  /** What a claim of job j writes: one attempt, which job, mapping, task and lease all show alike. */
  ghost predicate ClaimShows(db: Db, after: Db, lease: Lease, ids: ClaimIds, j: string, owner: string, seconds: int, now: Time)
    requires j in db.jobs && j in db.mappings && db.mappings[j].taskId in db.tasks
  {
    var t, job, m := db.mappings[j].taskId, db.jobs[j], db.mappings[j];
    var task := db.tasks[t];
    var wanted := if seconds < job.timeout + 120 then job.timeout + 120 else seconds;
    var until := now + (if wanted < 1 then 1 else wanted) as real;
    var number, fence := task.attemptsStarted + 1, task.currentFence + 1;
    var plan := Plan(ids.planId, t, if job.engine == "auto" then "opencode" else job.engine);
    && lease == Lease(ids.attemptId, t, number, fence, owner, until, plan)
    && after.attempts == db.attempts[
         ids.attemptId := Attempt(t, number, fence, AttemptRunning, owner, until, plan, now, now, None, None, None)]
    && after.jobs == db.jobs[j := job.(status := JobRunning, attempt := job.attempt + 1, workerPid := Some(ids.pid),
                                       leaseUntil := Some(until), updatedAt := now)]
    && after.mappings == db.mappings[j := m.(attemptId := Some(ids.attemptId), fence := Some(fence), projection := m.projection + 1)]
    && t in after.tasks && after.tasks == db.tasks[t := after.tasks[t]]
    && after.tasks[t] == task.(state := Running, active := Some(ids.attemptId), attemptsStarted := number, currentFence := fence,
                               updatedAt := now, terminalAt := if task.state in {Created, Planned, Blocked} then None else task.terminalAt,
                               revision := task.revision + StepsToRun(task.state))
  }

  /** The transitions from a state to running that a claim makes with its preparation. */
  function StepsToRun(s: TaskState): nat {
    if s == Created then 3 else if s in {Planned, Blocked} then 2 else 1
  }

  lemma PreparedAndClaimed(task: Task, a: string, now: Time)
    ensures Tasks.ClaimedRow(PreparedRow(task, now), a, now) == task.(
      state := Running, active := Some(a), attemptsStarted := task.attemptsStarted + 1, currentFence := task.currentFence + 1,
      updatedAt := now, terminalAt := if task.state in {Created, Planned, Blocked} then None else task.terminalAt,
      revision := task.revision + StepsToRun(task.state))
    ensures PreparedRow(task, now).attemptsStarted == task.attemptsStarted && PreparedRow(task, now).currentFence == task.currentFence
  {
  }

  lemma ClaimJobWrites(db: Db, ids: ClaimIds, j: string, owner: string, leaseSeconds: int, now: Time)
    requires j in db.jobs && j in db.mappings && db.mappings[j].taskId in db.tasks
    requires ClaimJob(db, ids, j, owner, leaseSeconds, now).Done?
    ensures var o := ClaimJob(db, ids, j, owner, leaseSeconds, now);
      && o.value.ClaimedJob? && o.value.attempt == db.jobs[j].attempt + 1
      && ClaimShows(db, o.db, o.value.lease, ids, j, owner, leaseSeconds, now)
  {
    hide Tasks.Claimable, ClaimJob, ClaimTask, PreparedRow, Tasks.ClaimedRow, StepsToRun;
    ClaimJobUnfolds(db, ids, j, owner, leaseSeconds, now);
    PreparedAndClaimed(db.tasks[db.mappings[j].taskId], ids.attemptId, now);
    ClaimTaskTables(db, ids, db.mappings[j].taskId, Runtime(db.jobs[j]), owner, LeaseSeconds(db.jobs[j], leaseSeconds), now);
  }

  /** The lease of a claimed job lasts as long as was asked for, at least two minutes longer than the job may run, to the moment. */
  lemma ClaimedJobLasts(db: Db, ids: ClaimIds, j: string, owner: string, leaseSeconds: int, now: Time, at: Time)
    requires Inv(db) && j in db.jobs && j in db.mappings && db.mappings[j].taskId in db.tasks
    requires ClaimJob(db, ids, j, owner, leaseSeconds, now).Done?
    ensures var o, wanted := ClaimJob(db, ids, j, owner, leaseSeconds, now), Max(leaseSeconds, db.jobs[j].timeout + 120);
      var until := now + Max(1, wanted) as real;
      && o.value.ClaimedJob? && o.value.lease.leaseUntil == until
      && j in o.db.jobs && o.db.jobs[j].leaseUntil == Some(until)
      && o.value.lease.attemptId in o.db.attempts && o.db.attempts[o.value.lease.attemptId].leaseUntil == until
      && (Tasks.Authoritative(o.db, o.value.lease, at) <==> at <= until)
      && !IsDue(o.db.jobs[j], at) && (IsStale(o.db.jobs[j], at) <==> at > until)
  {
    hide Inv, ClaimJob;
    ClaimJobWrites(db, ids, j, owner, leaseSeconds, now);
  }

  /** A job without a task is marked dead, and the log tells it. */
  lemma QuarantineWrites(db: Db, ids: ClaimIds, j: string, owner: string, leaseSeconds: int, now: Time)
    requires Inv(db) && Fresh(db, ids.first) && j in db.jobs && j !in db.mappings
    requires ClaimJob(db, ids, j, owner, leaseSeconds, now).Done?
    ensures var e := Event(ids.first.eventId, "legacy.job.quarantined", 1, "legacy.jobs", None, j, None, ids.first.occurredAt,
                           JobQuarantined(j), "{}", Some(j + ":" + "unmigrated"));
      ClaimJob(db, ids, j, owner, leaseSeconds, now) == Done(
        db.(jobs := db.jobs[j := db.jobs[j].(status := JobDead, updatedAt := now, errorCode := Some("legacy_payload_not_migrated"))],
            events := db.events + [e]), Quarantined)
  {
    hide FencingInv, HistoryInv, RowsInv, EventLog.AppendTo;
    var e := QuarantineEvent(ids.first, j);
    EventLog.AppendKeeps(db.events, e);
  }

  // ----- completion

  /** What the worker reports: its verdict and schedule, the run it stored, and its error. */
  lemma FinishJobWrites(db: Db, stamp: Stamp, j: string, claimed: Job, attempt: nat, lease: Lease, result: WorkResult, now: Time)
    requires j in db.jobs && FinishJob(db, stamp, j, claimed, attempt, lease, result, now).Done?
    ensures var o, job := FinishJob(db, stamp, j, claimed, attempt, lease, result, now), db.jobs[j];
      var again := !result.success && result.transient && attempt < claimed.maxAttempts;
      var nextRun := if again then now + Min(300, Power2(attempt)) as real else now;
      && o.value in {JobSucceeded, JobRetry, JobDead} && (o.value == JobSucceeded <==> result.success) && (o.value == JobRetry ==> again)
      && o.db.jobs == db.jobs[j := Job(
           job.createdAt, now, o.value, job.engine, job.timeout, job.attempt, job.maxAttempts, nextRun, None, None, result.runId,
           result.errorCode)]
      && o.db.mappings == db.mappings
      && lease.taskId in db.tasks && lease.taskId in o.db.tasks && lease.attemptId in o.db.attempts
      && o.db.tasks[lease.taskId].resultHash == (if result.success then Some(result.outcomeHash) else None)
      && o.db.tasks[lease.taskId].errorCode == result.errorCode && o.db.tasks[lease.taskId].nextRunAt == nextRun
      && o.db.attempts[lease.attemptId].outcomeHash == Some(result.outcomeHash)
      && o.db.attempts[lease.attemptId].errorCode == result.errorCode
  {
    hide Tasks.Complete;
    CompleteTables(db, stamp, lease, result.success, result.outcomeHash, result.errorCode, AsksRetry(claimed, attempt, result),
                   Some(NextRun(claimed, attempt, result, now)), now);
  }

  // ----- operator actions

  lemma CancelJobWrites(db: Db, stamp: Stamp, j: string, now: Time)
    requires Inv(db) && ProjectionInv(db) && Fresh(db, stamp) && j in db.jobs && db.jobs[j].status in {JobQueued, JobRetry}
    ensures var o := CancelJob(db, stamp, j, now);
      && o.Done? && o.value && o.db.jobs == db.jobs[j := db.jobs[j].(status := JobCancelled, updatedAt := now)]
      && o.db.mappings == db.mappings && o.db.attempts == db.attempts
      && (if j in db.mappings then
            && db.mappings[j].taskId in db.tasks && db.mappings[j].taskId in o.db.tasks
            && var task := db.tasks[db.mappings[j].taskId];
               o.db.tasks[db.mappings[j].taskId] == task.(
                 state := Cancelled, errorCode := Some("task_cancelled"), updatedAt := now, terminalAt := Some(now), revision := task.revision + 1)
          else o.db.tasks == db.tasks)
  {
    hide Inv, Fresh, ProjectionInv, Tasks.Cancel, Tasks.Advance;
    CancelJobAnswers(db, stamp, j, now);
    if j in db.mappings {
      WaitingTask(db, j);
      CancelJobIsCancel(db, stamp, j, now);
      CancelTables(db, stamp, db.mappings[j].taskId, now);
      CancelKeeps(db, stamp, db.mappings[j].taskId, None, now);
      CancelledMappings(db, Tasks.Cancel(db, stamp, db.mappings[j].taskId, None, now).db, db.mappings[j].taskId, now);
    }
  }

  lemma CancelledMappings(db: Db, after: Db, t: string, now: Time)
    requires Kept(db, after, t, now)
    ensures after.mappings == db.mappings
  {
    hide Inv, Evolves;
  }

  /** A retried job waits again, due at the second clock reading; its task is due at the first. */
  lemma RetryJobWrites(db: Db, stamp: Stamp, j: string, now: Time, later: Time)
    requires Inv(db) && ProjectionInv(db) && Fresh(db, stamp) && CanRetry(db, j)
    ensures var o := RetryJob(db, stamp, j, now, later);
      && o.Done? && o.value
      && o.db.jobs == db.jobs[j := db.jobs[j].(status := JobQueued, nextRunAt := later, errorCode := None, updatedAt := later)]
      && o.db.mappings == db.mappings && o.db.attempts == db.attempts
      && (if j in db.mappings then
            && db.mappings[j].taskId in db.tasks && db.mappings[j].taskId in o.db.tasks
            && var task := db.tasks[db.mappings[j].taskId];
               o.db.tasks[db.mappings[j].taskId] == task.(
                 state := Retrying, nextRunAt := now, errorCode := None, updatedAt := now, terminalAt := None, revision := task.revision + 1)
          else o.db.tasks == db.tasks)
  {
    hide Inv, Fresh, ProjectionInv, Tasks.Retry;
    RetryJobAnswers(db, stamp, j, now, later);
    if j in db.mappings {
      DeadTask(db, j);
      RetryTables(db, stamp, db.mappings[j].taskId, now);
    }
  }

  /** A purge takes the job and its mapping, and nothing else. */
  lemma DeleteJobWrites(db: Db, j: string)
    ensures var after := DeleteJob(db, j);
      && after == db.(jobs := after.jobs, mappings := after.mappings)
      && after.jobs.Keys == db.jobs.Keys - {j} && after.mappings.Keys == db.mappings.Keys - {j}
      && (forall k :: k in after.jobs ==> after.jobs[k] == db.jobs[k])
      && (forall k :: k in after.mappings ==> after.mappings[k] == db.mappings[k])
  {
  }

  // ----- recovery of stale jobs

  /** A stale job is dead together with its task, and its attempt has expired. */
  lemma StaleJobWrites(db: Db, stamp: Stamp, j: string, now: Time)
    requires ProjectionInv(db) && j in db.mappings && j in db.jobs && IsStale(db.jobs[j], now)
    requires RecoverStaleJob(db, stamp, j, now).Done?
    ensures var o, t := RecoverStaleJob(db, stamp, j, now), db.mappings[j].taskId;
      && t in db.tasks && db.tasks[t].active.Some? && t in o.db.tasks && o.db.mappings == db.mappings
      && o.db.jobs == db.jobs[j := db.jobs[j].(status := JobDead, workerPid := None, leaseUntil := None, updatedAt := now,
                                               errorCode := Some("lease_expired"))]
      && var task := db.tasks[t];
         o.db.tasks == db.tasks[t := task.(state := Failed, active := None, nextRunAt := now, errorCode := Some("lease_expired"),
                                           updatedAt := now, terminalAt := Some(now), revision := task.revision + 1)]
  {
    hide ProjectionInv, Tasks.Expire, RecoverStaleJob;
    RecoverStaleJobIsExpire(db, stamp, j, now);
    ExpireTables(db, stamp, db.mappings[j].taskId, db.tasks[db.mappings[j].taskId].active.value, Failed, now);
  }

  /** The task runs under an attempt that has not expired. */
  predicate IsAlive(db: Db, t: string, now: Time) {
    && t in db.tasks && db.tasks[t].state == Running && db.tasks[t].active.Some?
    && db.tasks[t].active.value in db.attempts && db.attempts[db.tasks[t].active.value].leaseUntil >= now
  }

  /** What the sweep makes of a stale job whose task does not run, or runs on: the task stays as it is. */
  lemma SettledJobWrites(db: Db, stamp: Stamp, j: string, now: Time)
    requires j in db.mappings && j in db.jobs
    requires db.mappings[j].taskId in db.tasks ==>
      db.tasks[db.mappings[j].taskId].state != Running || IsAlive(db, db.mappings[j].taskId, now)
    ensures var t := db.mappings[j].taskId;
      var status := if t !in db.tasks then JobDead
                    else if db.tasks[t].state == Completed then JobSucceeded
                    else if db.tasks[t].state == Cancelled then JobCancelled else JobDead;
      RecoverStaleJob(db, stamp, j, now) == Done(
        db.(jobs := db.jobs[j := db.jobs[j].(status := status, workerPid := None, leaseUntil := None, updatedAt := now,
                                             errorCode := Some("lease_expired"))]), ())
  {
  }

  /** Stale jobs without a task are dead, for want of a payload; no other job changes. */
  lemma QuarantineStaleWrites(db: Db, now: Time, j: string)
    requires j in db.jobs
    ensures var after, job := QuarantineStale(db, now), db.jobs[j];
      && after == db.(jobs := after.jobs) && j in after.jobs
      && after.jobs[j] ==
           if job.status == JobRunning && job.leaseUntil.Some? && job.leaseUntil.value < now && j !in db.mappings
           then job.(status := JobDead, workerPid := None, leaseUntil := None, updatedAt := now,
                     errorCode := Some("legacy_payload_not_migrated"))
           else job
  {
  }
}
