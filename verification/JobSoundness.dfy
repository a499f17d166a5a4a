/**
 The queue's transactions keep the kernel's own invariants even where the projection has
 been broken, as it is by operations that bypass the queue on a task that a job is mapped to.
 */
module JobSoundness {
  import opened Inputs
  import opened JobInvariants
  import opened JobSteps
  import opened Jobs
  import opened TaskInvariants
  import opened Tables
  import opened Wrappers
  import Checkpoints
  import CheckpointInvariants
  import EventLog
  import Tasks

  /** A sound step on one task, whatever happens to the job tables beside it. */
  lemma KernelStep(db: Db, kernel: Db, after: Db, sha: Checkpoints.Sha, t: string, now: Time)
    requires Sound(db, sha) && Kept(db, kernel, t, now)
    requires after == kernel.(jobs := after.jobs, mappings := after.mappings)
    ensures Sound(after, sha) && Evolves(db, after, now)
  {
    hide Sound, Evolves, Kept;
    KeptSound(db, kernel, sha, t, now);
    JobsApart(kernel, after, sha);
    EvolvesApart(db, kernel, after, now);
  }

  lemma JobsOnly(db: Db, after: Db, sha: Checkpoints.Sha, now: Time)
    requires Sound(db, sha) && after == db.(jobs := after.jobs, mappings := after.mappings)
    ensures Sound(after, sha) && Evolves(db, after, now)
  {
    hide Sound, Evolves;
    JobsApart(db, after, sha);
    EvolvesReflexive(db, after);
  }

  lemma CancelJobSound(db: Db, sha: Checkpoints.Sha, stamp: Stamp, j: string, now: Time)
    requires Sound(db, sha)
    ensures var after := Commit(db, CancelJob(db, stamp, j, now)); Sound(after, sha) && Evolves(db, after, now)
  {
    hide Inv, CheckpointInvariants.CheckpointInv, BindingInv, Evolves, Kept, Tasks.Advance, Tasks.Cancel;
    var o := CancelJob(db, stamp, j, now);
    JobsOnly(db, db, sha, now);
    if o.Done? && o.value {
      if j in db.mappings {
        CancelJobIsCancel(db, stamp, j, now);
        CancelKeeps(db, stamp, db.mappings[j].taskId, None, now);
        KernelStep(db, Tasks.Cancel(db, stamp, db.mappings[j].taskId, None, now).db, o.db, sha, db.mappings[j].taskId, now);
      } else {
        JobsOnly(db, o.db, sha, now);
      }
    }
  }

  lemma RetryJobSound(db: Db, sha: Checkpoints.Sha, stamp: Stamp, j: string, now: Time, later: Time)
    requires Sound(db, sha)
    ensures var after := Commit(db, RetryJob(db, stamp, j, now, later)); Sound(after, sha) && Evolves(db, after, now)
  {
    hide Inv, CheckpointInvariants.CheckpointInv, BindingInv, Evolves, Kept, Tasks.Retry;
    var o := RetryJob(db, stamp, j, now, later);
    JobsOnly(db, db, sha, now);
    if o.Done? {
      if j in db.mappings && db.mappings[j].taskId in db.tasks && Tasks.Retry(db, stamp, db.mappings[j].taskId, now).Done? {
        RetryKeeps(db, stamp, db.mappings[j].taskId, now);
        RetryTables(db, stamp, db.mappings[j].taskId, now);
        KernelStep(db, Tasks.Retry(db, stamp, db.mappings[j].taskId, now).db, o.db, sha, db.mappings[j].taskId, now);
      } else {
        JobsOnly(db, o.db, sha, now);
      }
    }
  }

  lemma QuarantineSound(db: Db, sha: Checkpoints.Sha, stamp: Stamp, j: string, now: Time)
    requires Sound(db, sha) && j in db.jobs
    ensures var after := Commit(db, Quarantine(db, stamp, j, now)); Sound(after, sha) && Evolves(db, after, now)
  {
    hide Inv, CheckpointInvariants.CheckpointInv, BindingInv, Evolves, EventLog.AppendTo;
    JobsOnly(db, db, sha, now);
    var o := Quarantine(db, stamp, j, now);
    if o.Done? {
      var e := QuarantineEvent(stamp, j);
      var logged := db.(events := EventLog.AppendTo(db.events, e).value.0);
      LogSound(db, logged, sha, e, now);
      JobsOnly(logged, o.db, sha, now);
      EvolvesTransitive(db, logged, o.db, now);
    }
  }

  lemma ClaimJobSound(db: Db, sha: Checkpoints.Sha, ids: ClaimIds, j: string, owner: string, leaseSeconds: int, now: Time)
    requires Sound(db, sha) && j in db.jobs
    ensures var after := Commit(db, ClaimJob(db, ids, j, owner, leaseSeconds, now)); Sound(after, sha) && Evolves(db, after, now)
  {
    hide Inv, CheckpointInvariants.CheckpointInv, BindingInv, Evolves, Kept, Quarantine, ClaimTask;
    JobsOnly(db, db, sha, now);
    if j !in db.mappings {
      QuarantineSound(db, sha, ids.first, j, now);
    } else if db.mappings[j].taskId in db.tasks {
      ClaimJobUnfolds(db, ids, j, owner, leaseSeconds, now);
      hide ClaimJob;
      var t, seconds := db.mappings[j].taskId, LeaseSeconds(db.jobs[j], leaseSeconds);
      var o := ClaimTask(db, ids, t, Runtime(db.jobs[j]), owner, seconds, now);
      if o.Done? {
        ClaimTaskKeeps(db, ids, t, Runtime(db.jobs[j]), owner, seconds, now);
        KernelStep(db, o.db, ClaimJob(db, ids, j, owner, leaseSeconds, now).db, sha, t, now);
      }
    }
  }

  lemma FinishJobSound(db: Db, sha: Checkpoints.Sha, stamp: Stamp, j: string, claimed: Job, attempt: nat, lease: Lease,
                       result: WorkResult, now: Time)
    requires Sound(db, sha)
    ensures var after := Commit(db, FinishJob(db, stamp, j, claimed, attempt, lease, result, now));
      Sound(after, sha) && Evolves(db, after, now)
  {
    hide Inv, CheckpointInvariants.CheckpointInv, BindingInv, Evolves, Kept, Tasks.Complete, AsksRetry;
    JobsOnly(db, db, sha, now);
    var o := FinishJob(db, stamp, j, claimed, attempt, lease, result, now);
    if o.Done? {
      var nextRun, retryable := NextRun(claimed, attempt, result, now), AsksRetry(claimed, attempt, result);
      CompleteKeeps(db, stamp, lease, result.success, result.outcomeHash, result.errorCode, retryable, Some(nextRun), now);
      KernelStep(db,
        Tasks.Complete(db, stamp, lease, result.success, result.outcomeHash, result.errorCode, retryable, Some(nextRun), now).db,
        o.db, sha, lease.taskId, now);
    }
  }

  lemma RecoverStaleJobSound(db: Db, sha: Checkpoints.Sha, stamp: Stamp, j: string, now: Time)
    requires Sound(db, sha)
    ensures var o := RecoverStaleJob(db, stamp, j, now); o.Done? ==> Sound(o.db, sha) && Evolves(db, o.db, now)
  {
    hide Inv, CheckpointInvariants.CheckpointInv, BindingInv, Evolves, Kept, Tasks.Expire;
    JobsOnly(db, db, sha, now);
    var o := RecoverStaleJob(db, stamp, j, now);
    if o.Done? && j in db.mappings && j in db.jobs {
      var t := db.mappings[j].taskId;
      var kernel := StaleTask(db, stamp, t, now).db;
      if kernel != db {
        ExpireKeeps(db, stamp, t, db.tasks[t].active.value, Failed, now);
        ExpireTables(db, stamp, t, db.tasks[t].active.value, Failed, now);
        KernelStep(db, kernel, o.db, sha, t, now);
      } else {
        JobsOnly(db, o.db, sha, now);
      }
    }
  }

  lemma {:induction false} RecoverStaleJobsSound(db: Db, sha: Checkpoints.Sha, stamps: seq<Stamp>, rows: seq<string>, now: Time)
    requires Sound(db, sha) && |stamps| == |rows|
    ensures var o := RecoverStaleJobs(db, stamps, rows, now); o.Done? ==> Sound(o.db, sha) && Evolves(db, o.db, now)
    decreases |rows|
  {
    hide Sound, Evolves, RecoverStaleJob;
    JobsOnly(db, db, sha, now);
    if rows != [] {
      RecoverStaleJobSound(db, sha, stamps[0], rows[0], now);
      var o := RecoverStaleJob(db, stamps[0], rows[0], now);
      if o.Done? && RecoverStaleJobs(o.db, stamps[1..], rows[1..], now).Done? {
        RecoverStaleJobsSound(o.db, sha, stamps[1..], rows[1..], now);
        EvolvesTransitive(db, o.db, RecoverStaleJobs(o.db, stamps[1..], rows[1..], now).db, now);
      }
    }
  }

  lemma RecoverStaleSound(db: Db, sha: Checkpoints.Sha, stamps: seq<Stamp>, rows: seq<string>, now: Time)
    requires Sound(db, sha) && |stamps| == |rows|
    ensures var after := Commit(db, RecoverStale(db, stamps, rows, now)); Sound(after, sha) && Evolves(db, after, now)
  {
    hide Sound, Evolves, RecoverStaleJobs;
    JobsOnly(db, db, sha, now);
    RecoverStaleJobsSound(db, sha, stamps, rows, now);
    var o := RecoverStaleJobs(db, stamps, rows, now);
    if o.Done? {
      JobsOnly(o.db, QuarantineStale(o.db, now), sha, now);
      EvolvesTransitive(db, o.db, QuarantineStale(o.db, now), now);
    }
  }

  lemma SubmitJobSound(db: Db, sha: Checkpoints.Sha, stamp: Stamp, bound: Stamp, j: string, requestHash: string, engine: string,
                       timeout: int, maxAttempts: int, reference: Reference, now: Time)
    requires Sound(db, sha)
    ensures var after := Commit(db, SubmitJob(db, stamp, bound, j, requestHash, engine, timeout, maxAttempts, reference, now));
      Sound(after, sha) && Evolves(db, after, now)
  {
    hide Inv, CheckpointInvariants.CheckpointInv, BindingInv, Evolves, Checkpoints.CreateTask;
    JobsOnly(db, db, sha, now);
    var o := SubmitJob(db, stamp, bound, j, requestHash, engine, timeout, maxAttempts, reference, now);
    if o.Done? {
      var start := db.(jobs := db.jobs[j := NewJob(engine, timeout, maxAttempts, now)]);
      var created := Checkpoints.CreateTask(start, stamp, bound, TaskRequest(j, requestHash, maxAttempts), reference, now);
      JobsOnly(db, start, sha, now);
      CreateKeeps(start, sha, stamp, bound, TaskRequest(j, requestHash, maxAttempts), reference, now);
      JobsOnly(created.db, o.db, sha, now);
      EvolvesTransitive(db, start, created.db, now);
      EvolvesTransitive(db, created.db, o.db, now);
    }
  }
}
