/** Every transaction of the job queue keeps the projection, from any state and whatever its stamps are. */
module JobSteps {
  import opened Inputs
  import opened JobInvariants
  import opened Jobs
  import opened TaskEffects
  import opened TaskInvariants
  import opened Tables
  import opened Wrappers
  import Checkpoints
  import CheckpointInvariants
  import EventLog
  import Tasks

  /** What Advance commits, apart from the two logs. */
  lemma AdvanceTables(db: Db, t: string, row: Task, attempts: map<string, Attempt>, e: Event, tr: TransitionRow)
    requires Tasks.Advance(db, t, row, attempts, e, tr).Done?
    ensures var o := Tasks.Advance(db, t, row, attempts, e, tr);
      && o.value == row
      && o.db == db.(tasks := db.tasks[t := row], attempts := attempts, events := o.db.events, transitions := o.db.transitions)
  {
    hide EventLog.AppendTo;
  }

  // ----- operator actions

  lemma CancelJobIsCancel(db: Db, stamp: Stamp, j: string, now: Time)
    requires Inv(db) && j in db.jobs && j in db.mappings && db.jobs[j].status in {JobQueued, JobRetry}
    requires db.mappings[j].taskId in db.tasks
    requires var task := db.tasks[db.mappings[j].taskId]; !Terminal(task.state) && task.active.None?
    ensures CancelJob(db, stamp, j, now) ==
      match Tasks.Cancel(db, stamp, db.mappings[j].taskId, None, now)
      case Raised(e) => Raised(e)
      case Done(kernel, _) => Done(kernel.(jobs := kernel.jobs[j := CancelledJob(db.jobs[j], now)]), true)
  {
    hide Inv, Tasks.Advance;
    CanCancel(db, db.mappings[j].taskId);
  }

  /** A task that has not ended can be cancelled: it is never in the one state that forbids it. */
  lemma CanCancel(db: Db, t: string)
    requires Inv(db) && t in db.tasks && !Terminal(db.tasks[t].state)
    ensures Cancelled in AllowedTransitions(db.tasks[t].state)
  {
    hide HistoryInv, EventsInv, RowsInv;
    NeverVerifying(db, t);
  }

  lemma CancelJobKeeps(db: Db, sha: Checkpoints.Sha, stamp: Stamp, j: string, now: Time)
    requires Consistent(db, sha)
    ensures var after := Commit(db, CancelJob(db, stamp, j, now)); Consistent(after, sha) && Evolves(db, after, now)
  {
    hide Inv, CheckpointInvariants.CheckpointInv, BindingInv, Evolves, Tasks.Advance, Touches, ProjectionInv, Tasks.Cancel, Projected;
    ConsistentReflexive(db, sha, now);
    var o := CancelJob(db, stamp, j, now);
    if o.Done? && o.value {
      if j in db.mappings {
        var t := db.mappings[j].taskId;
        CancelJobIsCancel(db, stamp, j, now);
        CancelKeeps(db, stamp, t, None, now);
        CancelTables(db, stamp, t, now);
        CancelProjects(db, Tasks.Cancel(db, stamp, t, None, now).db, o.db, j, now);
        JobStepKeeps(db, Tasks.Cancel(db, stamp, t, None, now).db, o.db, sha, j, db.mappings[j], CancelledJob(db.jobs[j], now), now);
      } else {
        UnmappedKeeps(db, o.db, sha, now);
      }
    }
  }

  lemma CancelTables(db: Db, stamp: Stamp, t: string, now: Time)
    requires Inv(db) && Tasks.Cancel(db, stamp, t, None, now).Done?
    ensures t in db.tasks && db.tasks[t].active.None?
    ensures var kernel := Tasks.Cancel(db, stamp, t, None, now).db;
      kernel.tasks == db.tasks[t := Tasks.CancelledRow(db.tasks[t], now)] && kernel.attempts == db.attempts
  {
    hide Inv, Tasks.Advance;
    var task := db.tasks[t];
    var row := Tasks.CancelledRow(task, now);
    AdvanceTables(db, t, row, Tasks.CancelledAttempts(db, task, now),
      Tasks.MovedEvent(stamp, t, "task.cancelled", task, Cancelled, "user.cancelled"),
      Tasks.NewTransition(stamp, t, task.active, Some(task.state), row, "user.cancelled", now));
  }

  lemma CancelProjects(db: Db, kernel: Db, after: Db, j: string, now: Time)
    requires ProjectionInv(db) && j in db.mappings && j in db.jobs && db.mappings[j].taskId in db.tasks
    requires var t := db.mappings[j].taskId;
      && Touches(db, kernel, t) && kernel.attempts == db.attempts
      && kernel.tasks == db.tasks[t := Tasks.CancelledRow(db.tasks[t], now)]
    requires after == kernel.(jobs := kernel.jobs[j := CancelledJob(db.jobs[j], now)])
    ensures JobStep(db, kernel, after, j, db.mappings[j], CancelledJob(db.jobs[j], now))
  {
    ProjectionOf(db, j);
    assert after.mappings == db.mappings[j := db.mappings[j]];
  }

  lemma RetryTables(db: Db, stamp: Stamp, t: string, now: Time)
    requires Tasks.Retry(db, stamp, t, now).Done?
    ensures t in db.tasks && db.tasks[t].state == Failed && db.tasks[t].attemptsStarted < db.tasks[t].maxAttempts
    ensures var kernel := Tasks.Retry(db, stamp, t, now).db;
      && kernel.tasks == db.tasks[t := Tasks.RetriedRow(db.tasks[t], now)] && kernel.attempts == db.attempts
      && kernel.jobs == db.jobs && kernel.mappings == db.mappings
  {
    hide Tasks.Advance;
    var task := db.tasks[t];
    var row := Tasks.RetriedRow(task, now);
    AdvanceTables(db, t, row, db.attempts,
      Tasks.MovedEvent(stamp, t, "task.retrying", task, Retrying, "user.retry"),
      Tasks.NewTransition(stamp, t, None, Some(task.state), row, "user.retry", now));
  }

  lemma MoveTables(db: Db, stamp: Stamp, t: string, to: TaskState, reason: string, causation: Option<string>, now: Time)
    requires Tasks.Transition(db, stamp, t, to, reason, causation, now).Done?
    ensures t in db.tasks && db.tasks[t].active.None? && to in AllowedTransitions(db.tasks[t].state)
    ensures var o := Tasks.Transition(db, stamp, t, to, reason, causation, now);
      && o.value == Tasks.MovedRow(db.tasks[t], to, now)
      && o.db == db.(tasks := db.tasks[t := o.value], events := o.db.events, transitions := o.db.transitions)
  {
    hide Tasks.Advance, AllowedTransitions;
    var task := db.tasks[t];
    var row := Tasks.MovedRow(task, to, now);
    AdvanceTables(db, t, row, db.attempts,
      Tasks.MovedEvent(stamp, t, "task." + StateName(to), task, to, reason).(causationId := causation),
      Tasks.NewTransition(stamp, t, None, Some(task.state), row, reason, now));
  }

  lemma RenewTables(db: Db, stamp: Stamp, lease: Lease, leaseSeconds: int, now: Time)
    requires Tasks.Renew(db, stamp, lease, leaseSeconds, now).Done?
    ensures Tasks.Authoritative(db, lease, now)
    ensures var after := Tasks.Renew(db, stamp, lease, leaseSeconds, now).db;
      var attempt := Tasks.RenewedAttempt(db.attempts[lease.attemptId], leaseSeconds, now);
      after == db.(attempts := db.attempts[lease.attemptId := attempt], events := after.events)
  {
    hide EventLog.AppendTo;
  }

  lemma RetryProjects(db: Db, kernel: Db, after: Db, j: string, now: Time, later: Time)
    requires Inv(db) && ProjectionInv(db) && j in db.mappings && j in db.jobs && db.mappings[j].taskId in db.tasks && now <= later
    requires var t := db.mappings[j].taskId;
      && db.tasks[t].state == Failed && db.tasks[t].attemptsStarted < db.tasks[t].maxAttempts
      && Touches(db, kernel, t) && kernel.attempts == db.attempts
      && kernel.tasks == db.tasks[t := Tasks.RetriedRow(db.tasks[t], now)]
    requires after == kernel.(jobs := kernel.jobs[j := RequeuedJob(db.jobs[j], later)])
    ensures JobStep(db, kernel, after, j, db.mappings[j], RequeuedJob(db.jobs[j], later))
  {
    hide Inv;
    ProjectionOf(db, j);
    NotActive(db, db.mappings[j].taskId);
    assert after.mappings == db.mappings[j := db.mappings[j]];
  }

  /** A retried job was dead: its task had failed. */
  lemma RetriedWasDead(db: Db, j: string)
    requires ProjectionInv(db) && j in db.mappings && db.mappings[j].taskId in db.tasks
    requires db.tasks[db.mappings[j].taskId].state == Failed
    ensures j in db.jobs && db.jobs[j].status == JobDead
  {
    ProjectionOf(db, j);
  }

  lemma RetryJobKeeps(db: Db, sha: Checkpoints.Sha, stamp: Stamp, j: string, now: Time, later: Time)
    requires Consistent(db, sha) && now <= later
    ensures var after := Commit(db, RetryJob(db, stamp, j, now, later)); Consistent(after, sha) && Evolves(db, after, now)
  {
    hide Inv, CheckpointInvariants.CheckpointInv, BindingInv, Evolves, Touches, ProjectionInv, Tasks.Retry, Projected;
    ConsistentReflexive(db, sha, now);
    var o := RetryJob(db, stamp, j, now, later);
    if o.Done? && o.value {
      if j in db.mappings {
        var t := db.mappings[j].taskId;
        var kernel := Tasks.Retry(db, stamp, t, now).db;
        RetryKeeps(db, stamp, t, now);
        RetryTables(db, stamp, t, now);
        RetriedWasDead(db, j);
        RetryProjects(db, kernel, o.db, j, now, later);
        JobStepKeeps(db, kernel, o.db, sha, j, db.mappings[j], RequeuedJob(db.jobs[j], later), now);
      } else {
        UnmappedKeeps(db, o.db, sha, now);
      }
    } else if o.Done? && j in db.mappings && o.db != db {
      RetriedWasDead(db, j);
      RetryTables(db, stamp, db.mappings[j].taskId, now);
    }
  }

  // ----- claim

  lemma PrepareTables(db: Db, first: Stamp, second: Stamp, t: string, now: Time)
    requires Tasks.Prepare(db, first, second, t, now).Done?
    ensures t in db.tasks
    ensures var o := Tasks.Prepare(db, first, second, t, now);
      && o.value == PreparedRow(db.tasks[t], now)
      && o.db == db.(tasks := db.tasks[t := o.value], events := o.db.events, transitions := o.db.transitions)
  {
    hide Tasks.Transition, PreparedRow;
    var planned := Tasks.PrepareStep(Done(db, db.tasks[t]), Created, first, t, Planned, "plan.created", now);
    var ready := Tasks.PrepareStep(planned, Planned, second, t, Ready, "plan.ready", now);
    StepTables(db, db, db.tasks[t], Created, first, t, Planned, "plan.created", now);
    StepTables(db, planned.db, planned.value, Planned, second, t, Ready, "plan.ready", now);
    StepTables(db, ready.db, ready.value, Blocked, first, t, Ready, "plan.recheck", now);
    PreparedStepwise(db.tasks[t], now);
  }

  lemma PreparedStepwise(task: Task, now: Time)
    ensures var planned := if task.state == Created then Tasks.MovedRow(task, Planned, now) else task;
      var ready := if planned.state == Planned then Tasks.MovedRow(planned, Ready, now) else planned;
      PreparedRow(task, now) == if ready.state == Blocked then Tasks.MovedRow(ready, Ready, now) else ready
  {
  }

  lemma StepTables(db: Db, mid: Db, task: Task, from: TaskState, stamp: Stamp, t: string, to: TaskState, reason: string, now: Time)
    requires t in db.tasks && mid == db.(tasks := db.tasks[t := task], events := mid.events, transitions := mid.transitions)
    requires Tasks.PrepareStep(Done(mid, task), from, stamp, t, to, reason, now).Done?
    ensures var o := Tasks.PrepareStep(Done(mid, task), from, stamp, t, to, reason, now);
      && o.value == (if task.state == from then Tasks.MovedRow(task, to, now) else task)
      && o.db == db.(tasks := db.tasks[t := o.value], events := o.db.events, transitions := o.db.transitions)
  {
    hide Tasks.Advance;
    if task.state == from {
      var row := Tasks.MovedRow(task, to, now);
      AdvanceTables(mid, t, row, mid.attempts,
        Tasks.MovedEvent(stamp, t, "task." + StateName(to), task, to, reason).(causationId := None),
        Tasks.NewTransition(stamp, t, None, Some(task.state), row, reason, now));
    }
  }

  lemma ClaimTables(db: Db, stamp: Stamp, a: string, t: string, plan: Plan, owner: string, leaseSeconds: int, now: Time)
    requires Tasks.Claim(db, stamp, a, t, plan, owner, leaseSeconds, now).Done?
    ensures t in db.tasks && Tasks.Claimable(db.tasks[t], now) && a !in db.attempts
    ensures var o := Tasks.Claim(db, stamp, a, t, plan, owner, leaseSeconds, now);
      var attempt := Tasks.NewAttempt(t, db.tasks[t], plan, owner, leaseSeconds, now);
      && o.value == Lease(a, t, attempt.number, attempt.fence, owner, attempt.leaseUntil, plan)
      && o.db == db.(tasks := db.tasks[t := Tasks.ClaimedRow(db.tasks[t], a, now)], attempts := db.attempts[a := attempt],
                     events := o.db.events, transitions := o.db.transitions)
  {
    hide Tasks.Advance;
    var task := db.tasks[t];
    var attempt := Tasks.NewAttempt(t, task, plan, owner, leaseSeconds, now);
    var row := Tasks.ClaimedRow(task, a, now);
    AdvanceTables(db, t, row, db.attempts[a := attempt], Tasks.StartedEvent(stamp, t, a, attempt),
      Tasks.NewTransition(stamp, t, Some(a), Some(task.state), row, "attempt.started", now));
  }

  /** The kernel's part of a claim: prepare the task, then claim it. */
  function ClaimTask(db: Db, ids: ClaimIds, t: string, engine: string, owner: string, leaseSeconds: int, now: Time): Outcome<Lease> {
    match Tasks.Prepare(db, ids.first, ids.second, t, now)
    case Raised(e) => Raised(e)
    case Done(db1, _) => Tasks.Claim(db1, ids.started, ids.attemptId, t, Plan(ids.planId, t, engine), owner, leaseSeconds, now)
  }

  lemma ClaimTaskKeeps(db: Db, ids: ClaimIds, t: string, engine: string, owner: string, leaseSeconds: int, now: Time)
    requires Inv(db) && ClaimTask(db, ids, t, engine, owner, leaseSeconds, now).Done?
    ensures Kept(db, ClaimTask(db, ids, t, engine, owner, leaseSeconds, now).db, t, now)
  {
    hide Inv, Evolves, Touches, Tasks.Prepare, Tasks.Claim;
    PrepareKeeps(db, ids.first, ids.second, t, now);
    var db1 := Tasks.Prepare(db, ids.first, ids.second, t, now).db;
    ClaimKeeps(db1, ids.started, ids.attemptId, t, Plan(ids.planId, t, engine), owner, leaseSeconds, now);
    KeptTransitive(db, db1, ClaimTask(db, ids, t, engine, owner, leaseSeconds, now).db, t, now);
  }

  lemma ClaimTaskTables(db: Db, ids: ClaimIds, t: string, engine: string, owner: string, leaseSeconds: int, now: Time)
    requires ClaimTask(db, ids, t, engine, owner, leaseSeconds, now).Done?
    ensures t in db.tasks && ids.attemptId !in db.attempts
    ensures var o := ClaimTask(db, ids, t, engine, owner, leaseSeconds, now);
      var ready := PreparedRow(db.tasks[t], now);
      var attempt := Tasks.NewAttempt(t, ready, Plan(ids.planId, t, engine), owner, leaseSeconds, now);
      && Tasks.Claimable(ready, now)
      && o.value == Lease(ids.attemptId, t, attempt.number, attempt.fence, owner, attempt.leaseUntil, attempt.plan)
      && o.db == db.(tasks := db.tasks[t := Tasks.ClaimedRow(ready, ids.attemptId, now)], attempts := db.attempts[ids.attemptId := attempt],
                     events := o.db.events, transitions := o.db.transitions)
  {
    hide PreparedRow, Tasks.Claimable, Tasks.Prepare, Tasks.Claim;
    PrepareTables(db, ids.first, ids.second, t, now);
    var db1 := Tasks.Prepare(db, ids.first, ids.second, t, now).db;
    ClaimTables(db1, ids.started, ids.attemptId, t, Plan(ids.planId, t, engine), owner, leaseSeconds, now);
    assert db1.tasks[t := Tasks.ClaimedRow(db1.tasks[t], ids.attemptId, now)]
        == db.tasks[t := Tasks.ClaimedRow(db1.tasks[t], ids.attemptId, now)];
  }

  function LeaseSeconds(job: Job, leaseSeconds: int): int {
    Max(leaseSeconds, job.timeout + 120)
  }

  function MappedTo(m: Mapping, lease: Lease): Mapping {
    m.(attemptId := Some(lease.attemptId), fence := Some(lease.fence), projection := m.projection + 1)
  }

  lemma ClaimJobUnfolds(db: Db, ids: ClaimIds, j: string, owner: string, leaseSeconds: int, now: Time)
    requires j in db.jobs && j in db.mappings && db.mappings[j].taskId in db.tasks
    ensures ClaimJob(db, ids, j, owner, leaseSeconds, now) ==
      match ClaimTask(db, ids, db.mappings[j].taskId, Runtime(db.jobs[j]), owner, LeaseSeconds(db.jobs[j], leaseSeconds), now)
      case Raised(e) => Raised(e)
      case Done(kernel, lease) =>
        var job := ClaimedRow(db.jobs[j], lease.leaseUntil, ids.pid, now);
        Done(kernel.(jobs := kernel.jobs[j := job], mappings := kernel.mappings[j := MappedTo(db.mappings[j], lease)]),
             ClaimedJob(lease, job.attempt))
  {
    hide Tasks.Prepare, Tasks.Claim;
  }

  lemma ClaimProjects(db: Db, kernel: Db, after: Db, ids: ClaimIds, j: string, owner: string, leaseSeconds: int, now: Time)
    requires ProjectionInv(db) && j in db.mappings && j in db.jobs
    requires var t := db.mappings[j].taskId;
      && ClaimTask(db, ids, t, Runtime(db.jobs[j]), owner, leaseSeconds, now).Done?
      && kernel == ClaimTask(db, ids, t, Runtime(db.jobs[j]), owner, leaseSeconds, now).db
      && Touches(db, kernel, t)
    requires var lease := ClaimTask(db, ids, db.mappings[j].taskId, Runtime(db.jobs[j]), owner, leaseSeconds, now).value;
      after == kernel.(jobs := kernel.jobs[j := ClaimedRow(db.jobs[j], lease.leaseUntil, ids.pid, now)],
                       mappings := kernel.mappings[j := MappedTo(db.mappings[j], lease)])
    ensures var lease := ClaimTask(db, ids, db.mappings[j].taskId, Runtime(db.jobs[j]), owner, leaseSeconds, now).value;
      JobStep(db, kernel, after, j, MappedTo(db.mappings[j], lease), ClaimedRow(db.jobs[j], lease.leaseUntil, ids.pid, now))
  {
    hide ClaimTask, ProjectionInv, Tasks.Claimable;
    ProjectionOf(db, j);
    ClaimTaskTables(db, ids, db.mappings[j].taskId, Runtime(db.jobs[j]), owner, leaseSeconds, now);
  }

  lemma QuarantineKeeps(db: Db, sha: Checkpoints.Sha, stamp: Stamp, j: string, now: Time)
    requires Consistent(db, sha) && j in db.jobs && j !in db.mappings
    ensures var after := Commit(db, Quarantine(db, stamp, j, now)); Consistent(after, sha) && Evolves(db, after, now)
  {
    hide Inv, CheckpointInvariants.CheckpointInv, BindingInv, Evolves, ProjectionInv, EventLog.AppendTo;
    ConsistentReflexive(db, sha, now);
    var o := Quarantine(db, stamp, j, now);
    if o.Done? {
      var e := QuarantineEvent(stamp, j);
      var logged := db.(events := EventLog.AppendTo(db.events, e).value.0);
      LogKeeps(db, logged, sha, e, now);
      UnmappedKeeps(logged, o.db, sha, now);
      EvolvesTransitive(db, logged, o.db, now);
    }
  }

  lemma LogSound(db: Db, after: Db, sha: Checkpoints.Sha, e: Event, now: Time)
    requires Sound(db, sha) && e.source != Tasks.SOURCE && e.source != Checkpoints.SOURCE
    requires EventLog.AppendTo(db.events, e).Success? && after == db.(events := EventLog.AppendTo(db.events, e).value.0)
    ensures Sound(after, sha) && Evolves(db, after, now)
  {
    hide Inv, CheckpointInvariants.CheckpointInv, BindingInv, Evolves, EventLog.AppendTo;
    CheckpointInvariants.AppendedEvents(db, after, e);
    BindEvolves(db, after, "", now);
    SoundFrame(db, after, sha, now);
  }

  /** An event of another source changes nothing but the log. */
  lemma LogKeeps(db: Db, after: Db, sha: Checkpoints.Sha, e: Event, now: Time)
    requires Consistent(db, sha) && e.source != Tasks.SOURCE && e.source != Checkpoints.SOURCE
    requires EventLog.AppendTo(db.events, e).Success? && after == db.(events := EventLog.AppendTo(db.events, e).value.0)
    ensures Consistent(after, sha) && Evolves(db, after, now)
  {
    hide Sound, Evolves, Projected, EventLog.AppendTo;
    LogSound(db, after, sha, e, now);
  }

  lemma ClaimJobKeeps(db: Db, sha: Checkpoints.Sha, ids: ClaimIds, j: string, owner: string, leaseSeconds: int, now: Time)
    requires Consistent(db, sha) && j in db.jobs
    ensures var after := Commit(db, ClaimJob(db, ids, j, owner, leaseSeconds, now)); Consistent(after, sha) && Evolves(db, after, now)
  {
    hide Inv, CheckpointInvariants.CheckpointInv, BindingInv, Evolves, Touches, ProjectionInv, Quarantine, Projected, ClaimTask, JobStep;
    ConsistentReflexive(db, sha, now);
    if j !in db.mappings {
      QuarantineKeeps(db, sha, ids.first, j, now);
    } else if db.mappings[j].taskId in db.tasks {
      ClaimJobUnfolds(db, ids, j, owner, leaseSeconds, now);
      hide ClaimJob;
      var t, seconds := db.mappings[j].taskId, LeaseSeconds(db.jobs[j], leaseSeconds);
      var o := ClaimTask(db, ids, t, Runtime(db.jobs[j]), owner, seconds, now);
      if o.Done? {
        var after := ClaimJob(db, ids, j, owner, leaseSeconds, now).db;
        ClaimTaskKeeps(db, ids, t, Runtime(db.jobs[j]), owner, seconds, now);
        ClaimProjects(db, o.db, after, ids, j, owner, seconds, now);
        JobStepKeeps(db, o.db, after, sha, j, MappedTo(db.mappings[j], o.value),
          ClaimedRow(db.jobs[j], o.value.leaseUntil, ids.pid, now), now);
      }
    }
  }

  // ----- completion

  lemma CompleteTables(db: Db, stamp: Stamp, lease: Lease, success: bool, outcomeHash: string, errorCode: Option<string>,
                       retryable: bool, retryAt: Option<Time>, now: Time)
    requires Tasks.Complete(db, stamp, lease, success, outcomeHash, errorCode, retryable, retryAt, now).Done?
    ensures Tasks.Authoritative(db, lease, now)
    ensures var o := Tasks.Complete(db, stamp, lease, success, outcomeHash, errorCode, retryable, retryAt, now);
      && o.value == Tasks.CompletedRow(db.tasks[lease.taskId], success, outcomeHash, errorCode, retryable, retryAt, now)
      && o.db == db.(tasks := db.tasks[lease.taskId := o.value],
                     attempts := Tasks.CloseAttempt(db.attempts, lease.attemptId, if success then AttemptSucceeded else AttemptFailed,
                                                    Some(outcomeHash), errorCode, now),
                     events := o.db.events, transitions := o.db.transitions)
  {
    hide Tasks.Advance, Tasks.CloseAttempt;
    var t, a := lease.taskId, lease.attemptId;
    var task := db.tasks[t];
    var row := Tasks.CompletedRow(task, success, outcomeHash, errorCode, retryable, retryAt, now);
    AdvanceTables(db, t, row,
      Tasks.CloseAttempt(db.attempts, a, if success then AttemptSucceeded else AttemptFailed, Some(outcomeHash), errorCode, now),
      Tasks.CompletedEvent(stamp, lease, row.state, success, outcomeHash, errorCode),
      Tasks.NewTransition(stamp, t, Some(a), Some(task.state), row, "attempt.completed", now));
  }

  /** A lease in force that a job is mapped to is a lease of the job's task. */
  lemma MappedLease(db: Db, j: string, lease: Lease, now: Time)
    requires Inv(db) && ProjectionInv(db) && Tasks.Authoritative(db, lease, now)
    requires j in db.mappings && db.mappings[j].attemptId == Some(lease.attemptId)
    ensures db.mappings[j].taskId == lease.taskId && j in db.jobs && db.jobs[j].status == JobRunning
  {
    hide HistoryInv, EventsInv, RowsInv;
    ProjectionOf(db, j);
    ActiveAttempt(db, lease.taskId, lease.attemptId);
  }

  lemma FinishProjects(db: Db, kernel: Db, after: Db, j: string, lease: Lease, result: WorkResult, row: Task, nextRun: Time,
                       retryable: bool, now: Time)
    requires Inv(db) && ProjectionInv(db) && Tasks.Authoritative(db, lease, now)
    requires j in db.mappings && db.mappings[j].attemptId == Some(lease.attemptId)
    requires Touches(db, kernel, lease.taskId)
    requires row == Tasks.CompletedRow(db.tasks[lease.taskId], result.success, result.outcomeHash, result.errorCode, retryable,
                                       Some(nextRun), now)
    requires kernel.tasks == db.tasks[lease.taskId := row] && db.attempts.Keys <= kernel.attempts.Keys
    requires forall a :: a in db.attempts ==> kernel.attempts[a].taskId == db.attempts[a].taskId
    requires j in db.jobs && after == kernel.(jobs := kernel.jobs[j := FinishedRow(db.jobs[j], row.state, result, nextRun, now)])
    ensures JobStep(db, kernel, after, j, db.mappings[j], FinishedRow(db.jobs[j], row.state, result, nextRun, now))
  {
    hide Inv, Touches, ProjectionInv;
    MappedLease(db, j, lease, now);
    ProjectionOf(db, j);
    hide Tasks.Authoritative;
    TouchedJobs(db, kernel, lease.taskId);
    assert after.mappings == db.mappings[j := db.mappings[j]];
  }

  lemma TouchedJobs(db: Db, kernel: Db, t: string)
    requires Touches(db, kernel, t)
    ensures kernel.jobs == db.jobs && kernel.mappings == db.mappings
  {
  }

  lemma FinishJobKeeps(db: Db, sha: Checkpoints.Sha, stamp: Stamp, j: string, claimed: Job, attempt: nat, lease: Lease,
                       result: WorkResult, now: Time)
    requires Consistent(db, sha)
    ensures var after := Commit(db, FinishJob(db, stamp, j, claimed, attempt, lease, result, now));
      Consistent(after, sha) && Evolves(db, after, now)
  {
    hide Inv, CheckpointInvariants.CheckpointInv, BindingInv, Evolves, Touches, ProjectionInv, Projected, JobStep, Tasks.Complete,
      Tasks.Authoritative, AsksRetry;
    ConsistentReflexive(db, sha, now);
    var o := FinishJob(db, stamp, j, claimed, attempt, lease, result, now);
    if o.Done? {
      var nextRun, retryable := NextRun(claimed, attempt, result, now), AsksRetry(claimed, attempt, result);
      var kernel := Tasks.Complete(db, stamp, lease, result.success, result.outcomeHash, result.errorCode, retryable, Some(nextRun), now);
      CompleteTables(db, stamp, lease, result.success, result.outcomeHash, result.errorCode, retryable, Some(nextRun), now);
      CompleteKeeps(db, stamp, lease, result.success, result.outcomeHash, result.errorCode, retryable, Some(nextRun), now);
      MappedLease(db, j, lease, now);
      FinishProjects(db, kernel.db, o.db, j, lease, result, kernel.value, nextRun, retryable, now);
      JobStepKeeps(db, kernel.db, o.db, sha, j, db.mappings[j],
        FinishedRow(db.jobs[j], kernel.value.state, result, nextRun, now), now);
    }
  }

  // ----- recovery of stale jobs

  lemma ExpireTables(db: Db, stamp: Stamp, t: string, a: string, target: TaskState, now: Time)
    requires t in db.tasks && Tasks.Expire(db, stamp, t, a, target, now).Done?
    ensures var o := Tasks.Expire(db, stamp, t, a, target, now);
      o.db == db.(tasks := db.tasks[t := Tasks.ExpiredRow(db.tasks[t], target, now)],
                  attempts := Tasks.CloseAttempt(db.attempts, a, AttemptExpired, None, Some("lease_expired"), now),
                  events := o.db.events, transitions := o.db.transitions)
  {
    hide Tasks.Advance, Tasks.CloseAttempt;
    var task := db.tasks[t];
    var row := Tasks.ExpiredRow(task, target, now);
    AdvanceTables(db, t, row, Tasks.CloseAttempt(db.attempts, a, AttemptExpired, None, Some("lease_expired"), now),
      Tasks.ExpiredEvent(stamp, t, a, task, target),
      Tasks.NewTransition(stamp, t, Some(a), Some(Running), row, "lease.expired", now));
  }

  /** A mapped stale job has a running task whose attempt has expired. */
  lemma StaleAttempt(db: Db, j: string, now: Time)
    requires ProjectionInv(db) && j in db.mappings && j in db.jobs && IsStale(db.jobs[j], now)
    ensures db.mappings[j].taskId in db.tasks
    ensures var task := db.tasks[db.mappings[j].taskId];
      && task.state == Running && task.active.Some? && task.active.value in db.attempts
      && db.attempts[task.active.value].leaseUntil < now
  {
    ProjectionOf(db, j);
  }

  /** A stale job fails together with its task. */
  lemma RecoverStaleJobIsExpire(db: Db, stamp: Stamp, j: string, now: Time)
    requires ProjectionInv(db) && j in db.mappings && j in db.jobs && IsStale(db.jobs[j], now)
    ensures db.mappings[j].taskId in db.tasks && db.tasks[db.mappings[j].taskId].active.Some?
    ensures var t := db.mappings[j].taskId;
      RecoverStaleJob(db, stamp, j, now) ==
        match Tasks.Expire(db, stamp, t, db.tasks[t].active.value, Failed, now)
        case Raised(e) => Raised(e)
        case Done(kernel, _) => Done(kernel.(jobs := kernel.jobs[j := StaleJob(db.jobs[j], JobDead, now)]), ())
  {
    hide ProjectionInv, Tasks.Expire;
    StaleAttempt(db, j, now);
    var t := db.mappings[j].taskId;
    if Tasks.Expire(db, stamp, t, db.tasks[t].active.value, Failed, now).Done? {
      ExpireTables(db, stamp, t, db.tasks[t].active.value, Failed, now);
    }
  }

  lemma StaleProjects(db: Db, kernel: Db, after: Db, j: string, now: Time)
    requires ProjectionInv(db) && j in db.mappings && j in db.jobs && IsStale(db.jobs[j], now) && db.mappings[j].taskId in db.tasks
    requires Touches(db, kernel, db.mappings[j].taskId)
    requires kernel.tasks == db.tasks[db.mappings[j].taskId := Tasks.ExpiredRow(db.tasks[db.mappings[j].taskId], Failed, now)]
    requires db.attempts.Keys <= kernel.attempts.Keys && forall a :: a in db.attempts ==> kernel.attempts[a].taskId == db.attempts[a].taskId
    requires after == kernel.(jobs := kernel.jobs[j := StaleJob(db.jobs[j], JobDead, now)])
    ensures JobStep(db, kernel, after, j, db.mappings[j], StaleJob(db.jobs[j], JobDead, now))
  {
    ProjectionOf(db, j);
    assert after.mappings == db.mappings[j := db.mappings[j]];
  }

  lemma RecoverStaleJobKeeps(db: Db, sha: Checkpoints.Sha, stamp: Stamp, j: string, now: Time)
    requires Consistent(db, sha) && j in db.mappings && j in db.jobs && IsStale(db.jobs[j], now)
    ensures var o := RecoverStaleJob(db, stamp, j, now);
      o.Done? ==>
        && Consistent(o.db, sha) && Evolves(db, o.db, now) && o.db.mappings == db.mappings
        && o.db.jobs == db.jobs[j := StaleJob(db.jobs[j], JobDead, now)]
  {
    hide Inv, CheckpointInvariants.CheckpointInv, BindingInv, Evolves, Touches, ProjectionInv, Projected, JobStep, Tasks.Expire;
    RecoverStaleJobIsExpire(db, stamp, j, now);
    var o := RecoverStaleJob(db, stamp, j, now);
    if o.Done? {
      hide RecoverStaleJob;
      var t := db.mappings[j].taskId;
      var a := db.tasks[t].active.value;
      var kernel := Tasks.Expire(db, stamp, t, a, Failed, now).db;
      ExpireKeeps(db, stamp, t, a, Failed, now);
      ExpireTables(db, stamp, t, a, Failed, now);
      StaleProjects(db, kernel, o.db, j, now);
      JobStepKeeps(db, kernel, o.db, sha, j, db.mappings[j], StaleJob(db.jobs[j], JobDead, now), now);
    }
  }

  /** Mapped jobs that are stale, each once. */
  ghost predicate AllStale(db: Db, rows: seq<string>, now: Time) {
    && (forall i, k :: 0 <= i < k < |rows| ==> rows[i] != rows[k])
    && (forall i :: 0 <= i < |rows| ==> rows[i] in db.jobs && rows[i] in db.mappings && IsStale(db.jobs[rows[i]], now))
  }

  lemma {:induction false} RecoverStaleJobsKeep(db: Db, sha: Checkpoints.Sha, stamps: seq<Stamp>, rows: seq<string>, now: Time)
    requires Consistent(db, sha) && |stamps| == |rows| && AllStale(db, rows, now)
    ensures var after := Commit(db, RecoverStaleJobs(db, stamps, rows, now));
      Consistent(after, sha) && Evolves(db, after, now)
    decreases |rows|
  {
    hide Consistent, Evolves, RecoverStaleJob;
    ConsistentReflexive(db, sha, now);
    if rows != [] {
      RecoverStaleJobKeeps(db, sha, stamps[0], rows[0], now);
      var o := RecoverStaleJob(db, stamps[0], rows[0], now);
      if o.Done? {
        RecoverStaleJobsKeep(o.db, sha, stamps[1..], rows[1..], now);
        EvolvesTransitive(db, o.db, Commit(o.db, RecoverStaleJobs(o.db, stamps[1..], rows[1..], now)), now);
      }
    }
  }

  lemma RecoverStaleKeeps(db: Db, sha: Checkpoints.Sha, stamps: seq<Stamp>, rows: seq<string>, now: Time)
    requires Consistent(db, sha) && |stamps| == |rows| && AllStale(db, rows, now)
    ensures var after := Commit(db, RecoverStale(db, stamps, rows, now));
      Consistent(after, sha) && Evolves(db, after, now)
  {
    hide Consistent, Evolves, RecoverStaleJobs;
    ConsistentReflexive(db, sha, now);
    RecoverStaleJobsKeep(db, sha, stamps, rows, now);
    var o := RecoverStaleJobs(db, stamps, rows, now);
    if o.Done? {
      UnmappedKeeps(o.db, QuarantineStale(o.db, now), sha, now);
      EvolvesTransitive(db, o.db, QuarantineStale(o.db, now), now);
    }
  }

  // ----- deletion

  lemma DeleteJobKeeps(db: Db, sha: Checkpoints.Sha, j: string, now: Time)
    requires Consistent(db, sha)
    ensures var after := DeleteJob(db, j); Consistent(after, sha) && Evolves(db, after, now)
  {
    hide Sound, Evolves, Projected;
    JobsApart(db, DeleteJob(db, j), sha);
    EvolvesReflexive(db, DeleteJob(db, j));
  }

  // ----- submission

  lemma SubmitProjects(db: Db, kernel: Db, after: Db, j: string, m: Mapping, job: Job, r: Tasks.Request, now: Time)
    requires Inv(db) && ProjectionInv(db) && j !in db.jobs && r.taskId !in db.tasks
    requires kernel == db.(tasks := kernel.tasks, events := kernel.events, transitions := kernel.transitions,
                           references := kernel.references, inputs := kernel.inputs, jobs := kernel.jobs)
    requires kernel.tasks == db.tasks[r.taskId := Tasks.NewRow(r, now)] && kernel.jobs == db.jobs[j := job]
    requires after == kernel.(mappings := db.mappings[j := m]) && m.taskId == r.taskId && m.attemptId.None?
    requires job.status == JobQueued && job.attempt == 0 && job.maxAttempts == Max(1, r.maxAttempts) && job.nextRunAt == now
    ensures ProjectionInv(after)
  {
    hide Inv;
    forall k | k in after.mappings
      ensures k in after.jobs && Projected(after.jobs[k], after.mappings[k], after.tasks, after.attempts)
    {
      if k != j {
        ProjectionOf(db, k);
      }
    }
  }

  /** The job of a submission has an identifier no task is named after. */
  lemma SubmitJobKeeps(db: Db, sha: Checkpoints.Sha, stamp: Stamp, bound: Stamp, j: string, requestHash: string, engine: string,
                       timeout: int, maxAttempts: int, reference: Reference, now: Time)
    requires Consistent(db, sha) && TaskIdOf(j) !in db.tasks
    ensures var after := Commit(db, SubmitJob(db, stamp, bound, j, requestHash, engine, timeout, maxAttempts, reference, now));
      Consistent(after, sha) && Evolves(db, after, now)
  {
    hide Inv, CheckpointInvariants.CheckpointInv, BindingInv, Evolves, ProjectionInv, Projected, Checkpoints.CreateTask;
    ConsistentReflexive(db, sha, now);
    var o := SubmitJob(db, stamp, bound, j, requestHash, engine, timeout, maxAttempts, reference, now);
    if o.Done? {
      var job, r := NewJob(engine, timeout, maxAttempts, now), TaskRequest(j, requestHash, maxAttempts);
      var start := db.(jobs := db.jobs[j := job]);
      JobsApart(db, start, sha);
      EvolvesReflexive(db, start);
      CreateKeeps(start, sha, stamp, bound, r, reference, now);
      var created := Checkpoints.CreateTask(start, stamp, bound, r, reference, now);
      CreatedRow(start, stamp, bound, r, reference, now);
      JobsApart(created.db, o.db, sha);
      EvolvesTransitive(db, start, created.db, now);
      EvolvesApart(db, created.db, o.db, now);
      SubmitProjects(db, created.db, o.db, j, Mapping(TaskIdOf(j), reference.id, None, None, 0, now), job, r, now);
    }
  }

  lemma CreatedRow(db: Db, stamp: Stamp, bound: Stamp, r: Tasks.Request, reference: Reference, now: Time)
    requires Checkpoints.CreateTask(db, stamp, bound, r, reference, now).Done? && r.taskId !in db.tasks
    ensures Checkpoints.CreateTask(db, stamp, bound, r, reference, now).db.tasks == db.tasks[r.taskId := Tasks.NewRow(r, now)]
  {
    hide Tasks.Submit, Bind;
    CreateUnfolds(db, stamp, bound, r, reference, now);
    hide Checkpoints.CreateTask;
    SubmitRow(db, stamp, r, now);
    BindUnfolds(Tasks.Submit(db, stamp, r, now).db, bound, r, reference);
  }
}
