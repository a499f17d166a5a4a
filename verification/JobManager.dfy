/**
 The job queue as it runs: each transaction changes the job tables and the kernel's in
 place, and is proved to do what its specification in Jobs says.
 */
module Queue {
  import opened Database
  import opened ExecutionState
  import opened Jobs
  import opened Repository
  import opened Tables
  import opened Wrappers
  import Checkpoints
  import EventLog
  import Tasks

  class JobManager {
    const store: Store
    const events: EventBus
    const tasks: TaskRepository
    const execution: ExecutionStateRepository

    constructor (store: Store, events: EventBus, tasks: TaskRepository, execution: ExecutionStateRepository)
      requires events.store == store && tasks.store == store && tasks.Valid() && execution.store == store && execution.Valid()
      ensures this.store == store && this.tasks == tasks && Valid()
    {
      this.store, this.events, this.tasks, this.execution := store, events, tasks, execution;
    }

    predicate Valid() {
      events.store == store && tasks.store == store && tasks.Valid() && execution.store == store && execution.Valid()
    }

    method SubmitWithin(stamp: Stamp, bound: Stamp, j: string, requestHash: string, engine: string, timeout: int,
                        maxAttempts: int, reference: Reference, now: Time) returns (r: Result<(), Error>)
      requires Valid()
      modifies store
      ensures r == Answer(SubmitJob(old(store.Snapshot()), stamp, bound, j, requestHash, engine, timeout, maxAttempts, reference, now))
      ensures r.Success? ==>
        store.Snapshot() == SubmitJob(old(store.Snapshot()), stamp, bound, j, requestHash, engine, timeout, maxAttempts, reference, now).db
    {
      hide Checkpoints.CreateTask;
      if j in store.jobs {
        return Failure(IntegrityError);
      }
      store.jobs := store.jobs[j := NewJob(engine, timeout, maxAttempts, now)];
      assert store.Snapshot() == old(store.Snapshot()).(jobs := store.jobs);
      var created := execution.CreateTaskWithin(stamp, bound, TaskRequest(j, requestHash, maxAttempts), reference, now);
      if created.Failure? {
        return Failure(created.error);
      }
      if j in store.mappings || Tasks.IsMapped(store.Snapshot(), TaskIdOf(j)) {
        return Failure(IntegrityError);
      }
      store.mappings := store.mappings[j := Mapping(TaskIdOf(j), reference.id, None, None, 0, now)];
      return Success(());
    }

    method Submit(stamp: Stamp, bound: Stamp, j: string, requestHash: string, engine: string, timeout: int,
                  maxAttempts: int, reference: Reference, now: Time) returns (r: Result<(), Error>)
      requires Valid()
      modifies store
      ensures r == Answer(SubmitJob(old(store.Snapshot()), stamp, bound, j, requestHash, engine, timeout, maxAttempts, reference, now))
      ensures store.Snapshot() == Commit(old(store.Snapshot()),
        SubmitJob(old(store.Snapshot()), stamp, bound, j, requestHash, engine, timeout, maxAttempts, reference, now))
    {
      hide SubmitJob;
      var saved := store.Snapshot();
      r := SubmitWithin(stamp, bound, j, requestHash, engine, timeout, maxAttempts, reference, now);
      if r.Failure? {
        store.Restore(saved);
      }
    }

    // ----- recovery of stale jobs

    method RecoverStaleJobWithin(stamp: Stamp, j: string, now: Time) returns (r: Result<(), Error>)
      requires Valid()
      modifies store
      ensures r == Answer(RecoverStaleJob(old(store.Snapshot()), stamp, j, now))
      ensures r.Success? ==> store.Snapshot() == RecoverStaleJob(old(store.Snapshot()), stamp, j, now).db
    {
      hide Tasks.Expire;
      if j !in store.mappings || j !in store.jobs {
        return Success(());
      }
      ghost var before := store.Snapshot();
      var t, job := store.mappings[j].taskId, store.jobs[j];
      if t in store.tasks && store.tasks[t].state == Running && store.tasks[t].active.Some? {
        var a := store.tasks[t].active.value;
        if a in store.attempts && store.attempts[a].leaseUntil < now {
          var expired := tasks.ExpireWithin(stamp, t, a, Failed, now);
          if expired.Failure? {
            return Failure(expired.error);
          }
        }
      }
      assert StaleTask(before, stamp, t, now) == Done(store.Snapshot(), ());
      var status := JobDead;
      if t in store.tasks && store.tasks[t].state == Completed {
        status := JobSucceeded;
      } else if t in store.tasks && store.tasks[t].state == Cancelled {
        status := JobCancelled;
      }
      store.jobs := store.jobs[j := StaleJob(job, status, now)];
      return Success(());
    }

    method QuarantineStaleRows(now: Time)
      modifies store`jobs
      ensures store.Snapshot() == QuarantineStale(old(store.Snapshot()), now)
    {
      store.jobs := map j | j in store.jobs ::
        if IsStale(store.jobs[j], now) && j !in store.mappings
        then StaleJob(store.jobs[j], JobDead, now).(errorCode := Some("legacy_payload_not_migrated"))
        else store.jobs[j];
    }

    /** The rows are the mapped stale jobs that the query answered with. */
    method Recover(stamps: seq<Stamp>, rows: seq<string>, now: Time) returns (r: Result<(), Error>)
      requires Valid() && |stamps| == |rows|
      modifies store
      ensures r == Answer(RecoverStale(old(store.Snapshot()), stamps, rows, now))
      ensures store.Snapshot() == Commit(old(store.Snapshot()), RecoverStale(old(store.Snapshot()), stamps, rows, now))
    {
      hide RecoverStaleJob, QuarantineStale;
      var saved := store.Snapshot();
      for i := 0 to |rows|
        invariant RecoverStaleJobs(saved, stamps, rows, now) == RecoverStaleJobs(store.Snapshot(), stamps[i..], rows[i..], now)
      {
        assert stamps[i..][1..] == stamps[i + 1..] && rows[i..][1..] == rows[i + 1..];
        var done := RecoverStaleJobWithin(stamps[i], rows[i], now);
        if done.Failure? {
          store.Restore(saved);
          return Failure(done.error);
        }
      }
      QuarantineStaleRows(now);
      return Success(());
    }

    // ----- claim

    method ClaimWithin(ids: ClaimIds, j: string, owner: string, leaseSeconds: int, now: Time) returns (r: Result<Claimed, Error>)
      requires Valid() && j in store.jobs
      modifies store
      ensures r == Answer(ClaimJob(old(store.Snapshot()), ids, j, owner, leaseSeconds, now))
      ensures r.Success? ==> store.Snapshot() == ClaimJob(old(store.Snapshot()), ids, j, owner, leaseSeconds, now).db
    {
      hide Tasks.Prepare, Tasks.Claim, EventLog.Append;
      ghost var before := store.Snapshot();
      var row := store.jobs[j];
      if j !in store.mappings {
        store.jobs := store.jobs[j := row.(status := JobDead, updatedAt := now, errorCode := Some("legacy_payload_not_migrated"))];
        assert store.Snapshot() == before.(jobs := store.jobs);
        var announced := events.Append(QuarantineEvent(ids.first, j));
        if announced.Failure? {
          return Failure(announced.error);
        }
        return Success(Quarantined);
      }
      var mapping := store.mappings[j];
      var t := mapping.taskId;
      if t !in store.tasks {
        return Failure(MissingMapping);
      }
      var prepared := tasks.PrepareWithin(ids.first, ids.second, t, now);
      if prepared.Failure? {
        return Failure(prepared.error);
      }
      var lease := tasks.ClaimWithin(ids.started, ids.attemptId, t, Plan(ids.planId, t, Runtime(row)), owner,
                                     Max(leaseSeconds, row.timeout + 120), now);
      if lease.Failure? {
        return Failure(lease.error);
      }
      var attempt := row.attempt + 1;
      store.jobs := store.jobs[j := row.(status := JobRunning, attempt := attempt, workerPid := Some(ids.pid),
                                        leaseUntil := Some(lease.value.leaseUntil), updatedAt := now)];
      store.mappings := store.mappings[j := mapping.(attemptId := Some(lease.value.attemptId), fence := Some(lease.value.fence),
                                                     projection := mapping.projection + 1)];
      return Success(ClaimedJob(lease.value, attempt));
    }

    method Claim(ids: ClaimIds, j: string, owner: string, leaseSeconds: int, now: Time) returns (r: Result<Claimed, Error>)
      requires Valid() && j in store.jobs
      modifies store
      ensures r == Answer(ClaimJob(old(store.Snapshot()), ids, j, owner, leaseSeconds, now))
      ensures store.Snapshot() == Commit(old(store.Snapshot()), ClaimJob(old(store.Snapshot()), ids, j, owner, leaseSeconds, now))
    {
      hide ClaimJob;
      var saved := store.Snapshot();
      r := ClaimWithin(ids, j, owner, leaseSeconds, now);
      if r.Failure? {
        store.Restore(saved);
      }
    }

    // ----- completion

    method FinishWithin(stamp: Stamp, j: string, claimed: Job, attempt: nat, lease: Lease, result: WorkResult, now: Time)
      returns (r: Result<JobStatus, Error>)
      requires Valid()
      modifies store
      ensures r == Answer(FinishJob(old(store.Snapshot()), stamp, j, claimed, attempt, lease, result, now))
      ensures r.Success? ==> store.Snapshot() == FinishJob(old(store.Snapshot()), stamp, j, claimed, attempt, lease, result, now).db
    {
      hide Tasks.Complete;
      var retryable := !result.success && result.transient && attempt < claimed.maxAttempts;
      var nextRun := if retryable then now + Min(300, Power2(attempt)) as real else now;
      if j !in store.mappings || store.mappings[j].attemptId != Some(lease.attemptId) || store.mappings[j].fence != Some(lease.fence) {
        return Failure(StaleLease);
      }
      var task := tasks.CompleteWithin(stamp, lease, result.success, result.outcomeHash, result.errorCode, retryable, Some(nextRun), now);
      if task.Failure? {
        return Failure(task.error);
      }
      var status := FinishedStatus(task.value.state);
      if j !in store.jobs || store.jobs[j].status != JobRunning {
        return Failure(StaleLease);
      }
      store.jobs := store.jobs[j := store.jobs[j].(status := status, updatedAt := now, leaseUntil := None, workerPid := None,
                                                  resultRunId := result.runId, errorCode := result.errorCode, nextRunAt := nextRun)];
      return Success(status);
    }

    method Finish(stamp: Stamp, j: string, claimed: Job, attempt: nat, lease: Lease, result: WorkResult, now: Time)
      returns (r: Result<JobStatus, Error>)
      requires Valid()
      modifies store
      ensures r == Answer(FinishJob(old(store.Snapshot()), stamp, j, claimed, attempt, lease, result, now))
      ensures store.Snapshot() ==
        Commit(old(store.Snapshot()), FinishJob(old(store.Snapshot()), stamp, j, claimed, attempt, lease, result, now))
    {
      hide FinishJob;
      var saved := store.Snapshot();
      r := FinishWithin(stamp, j, claimed, attempt, lease, result, now);
      if r.Failure? {
        store.Restore(saved);
      }
    }

    // ----- operator actions

    method Cancel(stamp: Stamp, j: string, now: Time) returns (r: Result<bool, Error>)
      requires Valid()
      modifies store
      ensures r == Answer(CancelJob(old(store.Snapshot()), stamp, j, now))
      ensures store.Snapshot() == Commit(old(store.Snapshot()), CancelJob(old(store.Snapshot()), stamp, j, now))
    {
      hide Tasks.Advance;
      var saved := store.Snapshot();
      if j !in store.jobs || store.jobs[j].status !in {JobQueued, JobRetry} {
        return Success(false);
      }
      if j in store.mappings {
        var t := store.mappings[j].taskId;
        if t !in store.tasks || Terminal(store.tasks[t].state) {
          return Success(false);
        }
        if store.tasks[t].active.Some? {
          return Success(false);
        }
        var task := store.tasks[t];
        var row := Tasks.CancelledRow(task, now);
        var advanced := tasks.AdvanceWithin(t, row, store.attempts,
          Tasks.MovedEvent(stamp, t, "task.cancelled", task, Cancelled, "user.cancelled"),
          Tasks.NewTransition(stamp, t, None, Some(task.state), row, "user.cancelled", now));
        if advanced.Failure? {
          store.Restore(saved);
          return Failure(advanced.error);
        }
      }
      store.jobs := store.jobs[j := saved.jobs[j].(status := JobCancelled, updatedAt := now)];
      return Success(true);
    }

    method Retry(stamp: Stamp, j: string, now: Time, later: Time) returns (r: Result<bool, Error>)
      requires Valid()
      modifies store
      ensures r == Answer(RetryJob(old(store.Snapshot()), stamp, j, now, later))
      ensures store.Snapshot() == Commit(old(store.Snapshot()), RetryJob(old(store.Snapshot()), stamp, j, now, later))
    {
      hide Tasks.Retry;
      if j in store.mappings {
        var t := store.mappings[j].taskId;
        if t !in store.tasks || store.tasks[t].state != Failed || store.tasks[t].attemptsStarted >= store.tasks[t].maxAttempts {
          return Success(false);
        }
        var retried := tasks.Retry(stamp, t, now);
        if retried.Failure? {
          return Failure(retried.error);
        }
      }
      if j in store.jobs && store.jobs[j].status == JobDead {
        store.jobs := store.jobs[j := store.jobs[j].(status := JobQueued, nextRunAt := later, errorCode := None, updatedAt := later)];
        return Success(true);
      }
      return Success(false);
    }

    /** The deletions of a purge. */
    method Delete(j: string)
      modifies store
      ensures store.Snapshot() == DeleteJob(old(store.Snapshot()), j)
    {
      store.mappings := map k | k in store.mappings && k != j :: store.mappings[k];
      store.jobs := map k | k in store.jobs && k != j :: store.jobs[k];
    }
  }
}
