/**
 What the job queue's transactions achieve, given new identifiers: a due job that is mapped
 can always be claimed, its worker's verdict always becomes its status, operator actions
 answer by the job's status alone, and a sweep leaves no stale job. A job without a task is
 quarantined once; after that no claim of it succeeds.
 */
module JobProgress {
  import opened EventLog
  import opened Inputs
  import opened JobInvariants
  import opened JobSteps
  import opened Jobs
  import opened Leases
  import opened Recovery
  import opened TaskEffects
  import opened TaskInvariants
  import opened Tables
  import opened Wrappers
  import CheckpointInvariants
  import Checkpoints
  import Keys
  import Tasks

  // ----- claim

  ghost predicate FreshIds(db: Db, ids: ClaimIds) {
    && Fresh(db, ids.first) && Fresh(db, ids.second) && Fresh(db, ids.started)
    && Apart(ids.first, ids.second) && Apart(ids.started, ids.first) && Apart(ids.started, ids.second)
    && ids.attemptId !in db.attempts
  }

  lemma DueTask(db: Db, j: string, now: Time)
    requires ProjectionInv(db) && j in db.mappings && j in db.jobs && IsDue(db.jobs[j], now)
    ensures db.mappings[j].taskId in db.tasks
    ensures Tasks.Claimable(PreparedRow(db.tasks[db.mappings[j].taskId], now), now)
  {
    ProjectionOf(db, j);
  }

  lemma ClaimTaskDone(db: Db, ids: ClaimIds, t: string, engine: string, owner: string, leaseSeconds: int, now: Time)
    requires Inv(db) && FreshIds(db, ids) && t in db.tasks && Tasks.Claimable(PreparedRow(db.tasks[t], now), now)
    ensures var o := ClaimTask(db, ids, t, engine, owner, leaseSeconds, now);
      o.Done? && Issued(o.db, o.value) && Tasks.Authoritative(o.db, o.value, now)
  {
    hide Inv, Fresh, Tasks.Prepare, Tasks.Claim, PreparedRow, Issued, Tasks.Authoritative;
    PrepareExact(db, ids.first, ids.second, t, now);
    var db1 := Tasks.Prepare(db, ids.first, ids.second, t, now).db;
    ClaimExact(db1, ids.started, ids.attemptId, t, Plan(ids.planId, t, engine), owner, leaseSeconds, now);
    ClaimIssues(db1, ids.started, ids.attemptId, t, Plan(ids.planId, t, engine), owner, leaseSeconds, now);
  }

  /** A due job that is mapped is claimed, whatever happened to it before. */
  lemma ClaimProgress(db: Db, ids: ClaimIds, j: string, owner: string, leaseSeconds: int, now: Time)
    requires Inv(db) && ProjectionInv(db) && j in db.mappings && j in db.jobs && IsDue(db.jobs[j], now) && FreshIds(db, ids)
    ensures var o := ClaimJob(db, ids, j, owner, leaseSeconds, now);
      && o.Done? && o.value.ClaimedJob?
      && Issued(o.db, o.value.lease) && Tasks.Authoritative(o.db, o.value.lease, now)
      && o.value.lease.taskId == db.mappings[j].taskId && o.value.attempt == db.jobs[j].attempt + 1 == o.value.lease.number
      && j in o.db.jobs && o.db.jobs[j].status == JobRunning
  {
    hide Inv, ProjectionInv, FreshIds, PreparedRow, Tasks.Claimable;
    DueTask(db, j, now);
    var t, engine, seconds := db.mappings[j].taskId, Runtime(db.jobs[j]), LeaseSeconds(db.jobs[j], leaseSeconds);
    ClaimTaskDone(db, ids, t, engine, owner, seconds, now);
    ClaimTaskTables(db, ids, t, engine, owner, seconds, now);
    ClaimJobUnfolds(db, ids, j, owner, leaseSeconds, now);
    hide ClaimJob, ClaimTask;
    AttemptCount(db, j, now);
  }

  lemma AttemptCount(db: Db, j: string, now: Time)
    requires ProjectionInv(db) && j in db.mappings && j in db.jobs
    ensures db.mappings[j].taskId in db.tasks
    ensures PreparedRow(db.tasks[db.mappings[j].taskId], now).attemptsStarted == db.jobs[j].attempt
  {
    ProjectionOf(db, j);
  }

  // ----- completion

  /** What the worker expects its job to become. */
  function Verdict(attempt: nat, maxAttempts: nat, result: WorkResult): JobStatus {
    if result.success then JobSucceeded
    else if result.transient && attempt < maxAttempts then JobRetry
    else JobDead
  }

  /** What a completion leaves as it was: what the job is and how often it was tried. */
  predicate SameIdentity(job: Job, after: Job) {
    && after.createdAt == job.createdAt && after.engine == job.engine && after.timeout == job.timeout
    && after.attempt == job.attempt && after.maxAttempts == job.maxAttempts
  }

  /** The worker of a claimed job, as long as its lease is in force, is heard: the job becomes what it expects. */
  lemma FinishProgress(db: Db, stamp: Stamp, j: string, claimed: Job, attempt: nat, lease: Lease, result: WorkResult, now: Time)
    requires Inv(db) && ProjectionInv(db) && Fresh(db, stamp) && Tasks.Authoritative(db, lease, now)
    requires j in db.mappings && db.mappings[j].attemptId == Some(lease.attemptId)
    requires claimed.maxAttempts == db.jobs[j].maxAttempts && attempt == db.jobs[j].attempt
    ensures var o := FinishJob(db, stamp, j, claimed, attempt, lease, result, now);
      && o.Done? && o.value == Verdict(attempt, claimed.maxAttempts, result) && j in o.db.jobs
      && o.db.jobs == db.jobs[j := o.db.jobs[j]] && o.db.jobs[j].status == o.value
      && o.db.jobs[j].nextRunAt == NextRun(claimed, attempt, result, now)
      && o.db.jobs[j].resultRunId == result.runId && o.db.jobs[j].errorCode == result.errorCode
      && o.db.jobs[j].leaseUntil == None && o.db.jobs[j].workerPid == None && o.db.jobs[j].updatedAt == now
      && SameIdentity(db.jobs[j], o.db.jobs[j])
  {
    hide Inv, Fresh, Tasks.Authoritative, Tasks.Complete, ProjectionInv, Advanced, Tasks.CloseAttempt;
    MappedLease(db, j, lease, now);
    FinishedTask(db, j, lease, attempt, result, now);
    CompleteExact(db, stamp, lease, result.success, result.outcomeHash, result.errorCode, AsksRetry(claimed, attempt, result),
                  Some(NextRun(claimed, attempt, result, now)), now);
    AdvancedJobs(db, lease.taskId);
  }

  /** A job that its worker has finished is due again only if it is to be retried, and not before its delay has passed. */
  lemma FinishedDue(db: Db, stamp: Stamp, j: string, claimed: Job, attempt: nat, lease: Lease, result: WorkResult, now: Time, at: Time)
    requires Inv(db) && ProjectionInv(db) && Fresh(db, stamp) && Tasks.Authoritative(db, lease, now)
    requires j in db.mappings && db.mappings[j].attemptId == Some(lease.attemptId)
    requires claimed.maxAttempts == db.jobs[j].maxAttempts && attempt == db.jobs[j].attempt
    ensures var o := FinishJob(db, stamp, j, claimed, attempt, lease, result, now);
      && o.Done? && j in o.db.jobs && !IsStale(o.db.jobs[j], at)
      && (IsDue(o.db.jobs[j], at) <==>
            && !result.success && result.transient && attempt < claimed.maxAttempts
            && at >= now + if attempt < 9 then Power2(attempt) as real else 300.0)
  {
    hide Inv, ProjectionInv, Fresh, Tasks.Authoritative, FinishJob;
    FinishProgress(db, stamp, j, claimed, attempt, lease, result, now);
    PowersGrow(attempt);
  }

  lemma AdvancedJobs(db: Db, t: string)
    ensures forall row, attempts, e, tr :: Advanced(db, t, row, attempts, e, tr).jobs == db.jobs
    ensures forall row, attempts, e, tr :: Advanced(db, t, row, attempts, e, tr).mappings == db.mappings
  {
  }

  lemma FinishedTask(db: Db, j: string, lease: Lease, attempt: nat, result: WorkResult, now: Time)
    requires Inv(db) && ProjectionInv(db) && Tasks.Authoritative(db, lease, now)
    requires j in db.mappings && db.mappings[j].attemptId == Some(lease.attemptId) && j in db.jobs && attempt == db.jobs[j].attempt
    ensures db.mappings[j].fence == Some(lease.fence)
    ensures FinishedStatus(Tasks.CompletionState(db.tasks[lease.taskId], result.success,
              !result.success && result.transient && attempt < db.jobs[j].maxAttempts)) == Verdict(attempt, db.jobs[j].maxAttempts, result)
  {
    hide Inv;
    MappedLease(db, j, lease, now);
    ProjectionOf(db, j);
  }

  /** The delay of a retry doubles with the attempts, up to five minutes. */
  lemma RetrySchedule(job: Job, attempt: nat, result: WorkResult, now: Time, later: Time)
    requires AsksRetry(job, attempt, result) && AsksRetry(job, attempt + 1, result) && 0 < attempt
    ensures var delay, next := NextRun(job, attempt, result, now) - now, NextRun(job, attempt + 1, result, later) - later;
      && 2.0 <= delay <= next <= 300.0
      && (attempt == 1 ==> delay == 2.0)
      && (if attempt < 8 then next == 2.0 * delay else next == 300.0)
  {
    PowersGrow(attempt);
    PowersGrow(attempt + 1);
  }

  lemma {:induction false} PowersGrow(n: nat)
    ensures Power2(n) >= 1 && (n > 0 ==> Power2(n) >= 2) && (n > 8 ==> Power2(n) >= 512)
    ensures n <= 8 ==> Power2(n) == [1, 2, 4, 8, 16, 32, 64, 128, 256][n]
  {
    if n > 0 {
      PowersGrow(n - 1);
    }
  }

  // ----- submission

  /** A job with a new identifier is accepted unless its idempotency key or its object's place is taken, and then it is due. */
  lemma SubmitProgress(db: Db, sha: Checkpoints.Sha, stamp: Stamp, bound: Stamp, j: string, requestHash: string, engine: string,
                       timeout: int, maxAttempts: int, reference: Reference, now: Time)
    requires Consistent(db, sha) && Fresh(db, stamp) && Fresh(db, bound) && Apart(stamp, bound)
    requires j !in db.jobs && TaskIdOf(j) !in db.tasks
    ensures var o := SubmitJob(db, stamp, bound, j, requestHash, engine, timeout, maxAttempts, reference, now);
      if Tasks.KeyTaken(db.tasks, Some("legacy-job:" + j)) then o == Raised(IdempotencyConflict)
      else if Checkpoints.InsertReference(db, reference).Raised? then o == Raised(PayloadIntegrity)
      else
        && o.Done? && j in o.db.jobs && (forall at :: IsDue(o.db.jobs[j], at) <==> now <= at) && o.db.jobs[j].attempt == 0
        && o.db.jobs[j].maxAttempts == Max(1, maxAttempts)
        && j in o.db.mappings && o.db.mappings[j].taskId == TaskIdOf(j)
  {
    hide Inv, CheckpointInvariants.CheckpointInv, BindingInv, Fresh, Projected, Checkpoints.CreateTask, Checkpoints.InsertReference,
      Tasks.KeyTaken;
    var start := db.(jobs := db.jobs[j := NewJob(engine, timeout, maxAttempts, now)]);
    var r := TaskRequest(j, requestHash, maxAttempts);
    JobsApart(db, start, sha);
    SameFresh(db, start);
    SameInsertion(db, start, reference);
    CreateExact(start, sha, stamp, bound, r, reference, now);
    CreateKeeps(start, sha, stamp, bound, r, reference, now);
    NotMapped(db, Commit(start, Checkpoints.CreateTask(start, stamp, bound, r, reference, now)), j);
  }

  lemma SameFresh(db: Db, after: Db)
    requires after.events == db.events && after.transitions == db.transitions
    ensures forall s :: Fresh(db, s) ==> Fresh(after, s)
  {
  }

  /** No job is mapped to a task that does not exist yet. */
  lemma NotMapped(db: Db, after: Db, j: string)
    requires ProjectionInv(db) && j !in db.jobs && TaskIdOf(j) !in db.tasks && after.mappings == db.mappings
    ensures j !in after.mappings && !Tasks.IsMapped(after, TaskIdOf(j))
  {
    forall k | k in db.mappings
      ensures db.mappings[k].taskId in db.tasks && k in db.jobs
    {
      ProjectionOf(db, k);
    }
  }

  // ----- operator actions

  /** A cancellation succeeds exactly when the job is waiting. */
  lemma CancelJobAnswers(db: Db, stamp: Stamp, j: string, now: Time)
    requires Inv(db) && ProjectionInv(db) && Fresh(db, stamp)
    ensures var o := CancelJob(db, stamp, j, now);
      && o.Done?
      && (o.value <==> j in db.jobs && db.jobs[j].status in {JobQueued, JobRetry})
      && (if o.value then o.db.jobs == db.jobs[j := CancelledJob(db.jobs[j], now)] else o.db == db)
  {
    hide Inv, Fresh, ProjectionInv, Tasks.Cancel, Tasks.Advance, Advanced;
    if j in db.jobs && db.jobs[j].status in {JobQueued, JobRetry} && j in db.mappings {
      WaitingTask(db, j);
      var t := db.mappings[j].taskId;
      CancelJobIsCancel(db, stamp, j, now);
      CancelExact(db, stamp, t, None, now);
      AdvancedJobs(db, t);
    }
  }

  lemma WaitingTask(db: Db, j: string)
    requires ProjectionInv(db) && j in db.mappings && j in db.jobs && db.jobs[j].status in {JobQueued, JobRetry}
    ensures db.mappings[j].taskId in db.tasks
    ensures var task := db.tasks[db.mappings[j].taskId]; !Terminal(task.state) && task.active.None?
  {
    ProjectionOf(db, j);
  }

  predicate CanRetry(db: Db, j: string) {
    j in db.jobs && db.jobs[j].status == JobDead && (j in db.mappings ==> db.jobs[j].attempt < db.jobs[j].maxAttempts)
  }

  /** A retry succeeds exactly when the job is dead and, if it is mapped, has attempts left. */
  lemma RetryJobAnswers(db: Db, stamp: Stamp, j: string, now: Time, later: Time)
    requires Inv(db) && ProjectionInv(db) && Fresh(db, stamp)
    ensures var o := RetryJob(db, stamp, j, now, later);
      && o.Done?
      && (o.value <==> CanRetry(db, j))
      && (if o.value then o.db.jobs == db.jobs[j := RequeuedJob(db.jobs[j], later)] else o.db == db)
  {
    hide Inv, Fresh, ProjectionInv, Tasks.Retry, Advanced;
    if j in db.mappings {
      DeadTask(db, j);
      var t := db.mappings[j].taskId;
      RetryExact(db, stamp, t, now);
      AdvancedJobs(db, t);
    }
  }

  lemma DeadTask(db: Db, j: string)
    requires ProjectionInv(db) && j in db.mappings
    ensures j in db.jobs && db.mappings[j].taskId in db.tasks
    ensures db.jobs[j].status == JobDead <==> db.tasks[db.mappings[j].taskId].state == Failed
    ensures db.jobs[j].attempt == db.tasks[db.mappings[j].taskId].attemptsStarted
    ensures db.jobs[j].maxAttempts == db.tasks[db.mappings[j].taskId].maxAttempts
  {
    ProjectionOf(db, j);
  }

  // ----- quarantine

  /** A job without a task is quarantined if it never was before; otherwise claiming it fails. */
  lemma QuarantineExact(db: Db, ids: ClaimIds, j: string, owner: string, leaseSeconds: int, now: Time)
    requires Inv(db) && Fresh(db, ids.first) && j in db.jobs && j !in db.mappings
    ensures var o := ClaimJob(db, ids, j, owner, leaseSeconds, now);
      if KeyUsed(db.events, Jobs.SOURCE, Keys.Render(Keys.Unmigrated(j))) then o == Raised(EventConflict)
      else o.Done? && o.value == Quarantined && o.db.jobs[j].status == JobDead
  {
    hide FencingInv, HistoryInv, RowsInv, AppendTo;
    var e := QuarantineEvent(ids.first, j);
    AppendKeeps(db.events, e);
    if KeyUsed(db.events, Jobs.SOURCE, Keys.Render(Keys.Unmigrated(j))) {
      assert e !in db.events;
    } else {
      AppendFresh(db.events, e);
    }
  }

  /**
   Once quarantined, a job that an operator retries can never be claimed: in every later
   state in which it still has no task, claiming it fails, and the failure leaves it due.
   */
  lemma QuarantinedForEver(db: Db, ids: ClaimIds, j: string, later: Db, at: Time, again: ClaimIds, owner: string,
                           leaseSeconds: int, now: Time)
    requires Inv(db) && Fresh(db, ids.first) && j in db.jobs && j !in db.mappings
    requires ClaimJob(db, ids, j, owner, leaseSeconds, at).Done?
    requires Inv(later) && ClaimJob(db, ids, j, owner, leaseSeconds, at).db.events <= later.events
    requires Fresh(later, again.first) && j in later.jobs && j !in later.mappings
    ensures ClaimJob(later, again, j, owner, leaseSeconds, now) == Raised(EventConflict)
  {
    hide FencingInv, HistoryInv, RowsInv, AppendTo, AttemptsEvolve, TaskEvolves;
    var e := QuarantineEvent(ids.first, j);
    var first := ClaimJob(db, ids, j, owner, leaseSeconds, at).db;
    AppendKeeps(db.events, e);
    var i :| 0 <= i < |first.events| && first.events[i] == e;
    assert KeyUsed(first.events, Jobs.SOURCE, Keys.Render(Keys.Unmigrated(j)));
    KeyStays(first.events, later.events, Jobs.SOURCE, Keys.Render(Keys.Unmigrated(j)));
    QuarantineExact(later, again, j, owner, leaseSeconds, now);
  }

  /** A job that has no task and was quarantined before. */
  ghost predicate Spent(db: Db, j: string) {
    j !in db.mappings && KeyUsed(db.events, Jobs.SOURCE, Keys.Render(Keys.Unmigrated(j)))
  }

  /** A claim succeeds exactly when the due job it finds is mapped or was never quarantined. */
  lemma ClaimSucceeds(db: Db, ids: ClaimIds, j: string, owner: string, leaseSeconds: int, now: Time)
    requires Inv(db) && ProjectionInv(db) && FreshIds(db, ids) && IsNextJob(db, Some(j), now)
    ensures ClaimJob(db, ids, j, owner, leaseSeconds, now).Done? <==> !Spent(db, j)
    ensures Spent(db, j) ==> ClaimJob(db, ids, j, owner, leaseSeconds, now) == Raised(EventConflict)
  {
    hide Inv, ProjectionInv, Fresh, ClaimJob;
    if j in db.mappings {
      ClaimProgress(db, ids, j, owner, leaseSeconds, now);
    } else {
      QuarantineExact(db, ids, j, owner, leaseSeconds, now);
    }
  }

  /** A worker takes a job that waits and whose time has come, and none that was created later than another such job. */
  lemma NextExact(db: Db, j: string, now: Time)
    ensures IsNextJob(db, Some(j), now) <==>
      IsWaiting(db, j, now) && forall k :: IsWaiting(db, k, now) ==> db.jobs[j].createdAt <= db.jobs[k].createdAt
    ensures IsNextJob(db, None, now) <==> forall k :: !IsWaiting(db, k, now)
  {
    assert forall k :: IsWaiting(db, k, now) <==> k in db.jobs && IsDue(db.jobs[k], now);
    hide IsWaiting, IsDue;
  }

  predicate IsWaiting(db: Db, j: string, now: Time) {
    j in db.jobs && (db.jobs[j].status == JobQueued || db.jobs[j].status == JobRetry) && now >= db.jobs[j].nextRunAt
  }

  // ----- recovery of stale jobs

  lemma StaleJobExact(db: Db, stamps: seq<Stamp>, j: string, now: Time)
    requires Inv(db) && ProjectionInv(db) && |stamps| > 0 && AllFresh(db, stamps)
    requires j in db.mappings && j in db.jobs && IsStale(db.jobs[j], now)
    ensures var o := RecoverStaleJob(db, stamps[0], j, now);
      && o.Done? && AllFresh(o.db, stamps[1..])
      && o.db.jobs == db.jobs[j := StaleJob(db.jobs[j], JobDead, now)] && o.db.mappings == db.mappings
  {
    hide Inv, ProjectionInv, Tasks.Expire, RecoverStaleJob;
    RecoverStaleJobIsExpire(db, stamps[0], j, now);
    var t := db.mappings[j].taskId;
    var a := db.tasks[t].active.value;
    assert Fresh(db, stamps[0]);
    ActiveAttemptOf(db, t, a);
    ExpireExact(db, stamps[0], t, a, Failed, now);
    var kernel := Tasks.Expire(db, stamps[0], t, a, Failed, now).db;
    RestFresh(db, kernel, stamps);
    assert forall s :: Fresh(kernel, s) ==> Fresh(RecoverStaleJob(db, stamps[0], j, now).db, s);
  }

  lemma ActiveAttemptOf(db: Db, t: string, a: string)
    requires Inv(db) && t in db.tasks && db.tasks[t].active == Some(a)
    ensures a in db.attempts && db.attempts[a].state == AttemptRunning
  {
    hide HistoryInv, EventsInv, RowsInv;
    ActiveAttempt(db, t, a);
  }

  function StaleJobs(jobs: map<string, Job>, rows: seq<string>, now: Time): map<string, Job> {
    map j | j in jobs :: if j in rows then StaleJob(jobs[j], JobDead, now) else jobs[j]
  }

  lemma RestStale(db: Db, after: Db, rows: seq<string>, now: Time)
    requires |rows| > 0 && AllStale(db, rows, now) && after.mappings == db.mappings
    requires after.jobs == db.jobs[rows[0] := StaleJob(db.jobs[rows[0]], JobDead, now)]
    ensures AllStale(after, rows[1..], now)
    ensures StaleJobs(after.jobs, rows[1..], now) == StaleJobs(db.jobs, rows, now)
  {
    assert rows == [rows[0]] + rows[1..];
  }

  lemma {:induction false} StaleJobsExact(db: Db, sha: Checkpoints.Sha, stamps: seq<Stamp>, rows: seq<string>, now: Time)
    requires Consistent(db, sha) && |stamps| == |rows| && AllStale(db, rows, now) && AllFresh(db, stamps)
    ensures var o := RecoverStaleJobs(db, stamps, rows, now);
      o.Done? && o.db.jobs == StaleJobs(db.jobs, rows, now) && o.db.mappings == db.mappings
    decreases |rows|
  {
    hide Inv, ProjectionInv, RecoverStaleJob, AllFresh, StaleJobs, AllStale;
    if rows == [] {
      NoneStale(db.jobs, now);
    } else {
      FirstStale(db, rows, now);
      StaleJobExact(db, stamps, rows[0], now);
      RecoverStaleJobKeeps(db, sha, stamps[0], rows[0], now);
      var o := RecoverStaleJob(db, stamps[0], rows[0], now);
      RestStale(db, o.db, rows, now);
      StaleJobsExact(o.db, sha, stamps[1..], rows[1..], now);
    }
  }

  lemma NoneStale(jobs: map<string, Job>, now: Time)
    ensures StaleJobs(jobs, [], now) == jobs
  {
  }

  lemma FirstStale(db: Db, rows: seq<string>, now: Time)
    requires |rows| > 0 && AllStale(db, rows, now)
    ensures rows[0] in db.mappings && rows[0] in db.jobs && IsStale(db.jobs[rows[0]], now)
  {
  }

  /** A sweep with new identifiers never fails and leaves no job stale: all of them are dead. */
  lemma StaleSweep(db: Db, sha: Checkpoints.Sha, stamps: seq<Stamp>, rows: seq<string>, now: Time)
    requires Consistent(db, sha) && |stamps| == |rows| && IsStaleQuery(db, rows, now) && AllFresh(db, stamps)
    ensures var o := RecoverStale(db, stamps, rows, now);
      && o.Done? && o.db.jobs.Keys == db.jobs.Keys
      && forall j :: j in db.jobs ==>
           if db.jobs[j].status == JobRunning && db.jobs[j].leaseUntil.Some? && db.jobs[j].leaseUntil.value < now
           then o.db.jobs[j].status == JobDead && !IsStale(o.db.jobs[j], now)
           else o.db.jobs[j] == db.jobs[j]
  {
    hide Consistent, AllFresh, RecoverStaleJobs;
    StaleJobsExact(db, sha, stamps, rows, now);
  }
}
