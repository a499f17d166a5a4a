/**
 The event log and the transition table tell the same story, and the attempt table agrees with
 both: in every run each transition has its event, with the same task, states, reason and
 attempt, and each event of the task repository but a renewal has its transition.
 */
module Chronicle {
  import opened EventLog
  import opened Inputs
  import opened JobInvariants
  import opened JobSteps
  import opened System
  import opened TaskInvariants
  import opened Tables
  import opened Wrappers
  import CheckpointInvariants
  import Checkpoints
  import Jobs
  import Json
  import Keys
  import Recovery
  import Tasks

  // ----- what an event says of a transition

  ghost predicate IsAttemptOf(attempts: map<string, Attempt>, row: TransitionRow, a: string) {
    row.attemptId == Some(a) && a in attempts && attempts[a].taskId == row.taskId
  }

  /** The event's payload against the transition and, where there is one, its attempt. */
  ghost predicate Agrees(e: Event, row: TransitionRow, attempts: map<string, Attempt>) {
    match e.payload
    case Submitted(_) =>
      e.eventType == "task.created" && row.from == None && row.to == Created && row.reason == "submitted" && row.attemptId == None
    case Moved(from, to, reason) =>
      && e.eventType == "task." + StateName(to) && row.from == Some(from) && row.to == to && row.reason == reason
      && (row.attemptId.Some? ==>
            IsAttemptOf(attempts, row, row.attemptId.value) && attempts[row.attemptId.value].state == AttemptCancelled)
    case AttemptBegun(a, number, fence, runtime, plan) =>
      && e.eventType == "task.started" && row.to == Running && row.reason == "attempt.started" && IsAttemptOf(attempts, row, a)
      && attempts[a].number == number && attempts[a].fence == fence
      && attempts[a].plan.runtimeId == runtime && attempts[a].plan.planId == plan
    case AttemptEnded(a, _, fence, success, outcomeHash, errorCode) =>
      && e.eventType == "task." + StateName(row.to) && row.from == Some(Running) && row.reason == "attempt.completed"
      && IsAttemptOf(attempts, row, a) && attempts[a].fence == fence
      && attempts[a].state == (if success then AttemptSucceeded else AttemptFailed)
      && attempts[a].outcomeHash == Some(outcomeHash) && attempts[a].errorCode == errorCode
      && (success <==> row.to == Completed)
    case LeaseExpired(a, fence, recovery) =>
      && e.eventType == "task.lease.expired" && row.from == Some(Running) && row.to == recovery && row.reason == "lease.expired"
      && IsAttemptOf(attempts, row, a) && attempts[a].fence == fence && attempts[a].state == AttemptExpired
    case _ => false
  }

  ghost predicate Tells(e: Event, row: TransitionRow, attempts: map<string, Attempt>) {
    e.id == row.eventId && e.source == Tasks.SOURCE && e.taskId == Some(row.taskId) && Agrees(e, row, attempts)
  }

  ghost predicate IsTold(events: seq<Event>, row: TransitionRow, attempts: map<string, Attempt>) {
    exists e :: e in events && Tells(e, row, attempts)
  }

  ghost predicate IsRecorded(e: Event, rows: seq<TransitionRow>, attempts: map<string, Attempt>) {
    exists row :: row in rows && Tells(e, row, attempts)
  }

  ghost predicate Chronicled(db: Db) {
    && (forall row :: row in db.transitions ==> IsTold(db.events, row, db.attempts))
    && (forall e :: e in db.events && e.source == Tasks.SOURCE ==>
          e.payload.LeaseRenewed? || IsRecorded(e, db.transitions, db.attempts))
  }

  // ----- how the two tables grow

  lemma TellsKept(e: Event, row: TransitionRow, before: map<string, Attempt>, after: map<string, Attempt>, now: Time)
    requires Tells(e, row, before) && AttemptsEvolve(before, after, now)
    ensures Tells(e, row, after)
  {
    if row.attemptId.Some? && row.attemptId.value in before {
      assert AttemptEvolves(before[row.attemptId.value], after[row.attemptId.value], now);
    }
  }

  lemma ToldKept(db: Db, after: Db, row: TransitionRow, now: Time)
    requires IsTold(db.events, row, db.attempts) && AttemptsEvolve(db.attempts, after.attempts, now) && db.events <= after.events
    ensures IsTold(after.events, row, after.attempts)
  {
    hide Tells, AttemptsEvolve;
    var e :| e in db.events && Tells(e, row, db.attempts);
    TellsKept(e, row, db.attempts, after.attempts, now);
    assert e in after.events;
  }

  lemma RecordedKept(db: Db, after: Db, e: Event, now: Time)
    requires IsRecorded(e, db.transitions, db.attempts) && AttemptsEvolve(db.attempts, after.attempts, now)
    requires db.transitions <= after.transitions
    ensures IsRecorded(e, after.transitions, after.attempts)
  {
    hide Tells, AttemptsEvolve;
    var row :| row in db.transitions && Tells(e, row, db.attempts);
    TellsKept(e, row, db.attempts, after.attempts, now);
    assert row in after.transitions;
  }

  lemma Grows(db: Db, after: Db, now: Time)
    requires Chronicled(db) && AttemptsEvolve(db.attempts, after.attempts, now)
    requires db.events <= after.events && db.transitions <= after.transitions
    requires forall i :: |db.transitions| <= i < |after.transitions| ==> IsTold(after.events, after.transitions[i], after.attempts)
    requires forall i :: |db.events| <= i < |after.events| && after.events[i].source == Tasks.SOURCE ==>
      after.events[i].payload.LeaseRenewed? || IsRecorded(after.events[i], after.transitions, after.attempts)
    ensures Chronicled(after)
  {
    hide IsTold, IsRecorded, AttemptsEvolve;
    forall row | row in after.transitions
      ensures IsTold(after.events, row, after.attempts)
    {
      var i :| 0 <= i < |after.transitions| && after.transitions[i] == row;
      if i < |db.transitions| {
        assert db.transitions[i] == row;
        ToldKept(db, after, row, now);
      }
    }
    forall e | e in after.events && e.source == Tasks.SOURCE && !e.payload.LeaseRenewed?
      ensures IsRecorded(e, after.transitions, after.attempts)
    {
      var i :| 0 <= i < |after.events| && after.events[i] == e;
      if i < |db.events| {
        assert db.events[i] == e;
        RecordedKept(db, after, e, now);
      }
    }
  }

  /** Nothing but events that need no transition is added. */
  lemma OnlyEvents(db: Db, after: Db, now: Time)
    requires Chronicled(db) && Evolves(db, after, now) && after.transitions == db.transitions
    requires forall i :: |db.events| <= i < |after.events| ==>
      after.events[i].source != Tasks.SOURCE || after.events[i].payload.LeaseRenewed?
    ensures Chronicled(after)
  {
    hide IsTold, IsRecorded, AttemptsEvolve, TaskEvolves, Chronicled;
    Grows(db, after, now);
  }

  lemma SameChronicle(db: Db, after: Db)
    requires Chronicled(db) && after.transitions == db.transitions && after.events == db.events && after.attempts == db.attempts
    ensures Chronicled(after)
  {
    hide IsTold, IsRecorded;
  }

  /** One event and one transition that it tells. */
  lemma OneMore(db: Db, after: Db, e: Event, row: TransitionRow, now: Time)
    requires Chronicled(db) && AttemptsEvolve(db.attempts, after.attempts, now)
    requires after.events in {db.events, db.events + [e]} && e in after.events && after.transitions == db.transitions + [row]
    requires Tells(e, row, after.attempts)
    ensures Chronicled(after)
  {
    hide Tells, AttemptsEvolve, Chronicled;
    assert IsTold(after.events, row, after.attempts);
    assert row in after.transitions;
    assert IsRecorded(e, after.transitions, after.attempts);
    Grows(db, after, now);
  }

  lemma AdvanceLog(db: Db, t: string, row: Task, attempts: map<string, Attempt>, e: Event, tr: TransitionRow)
    requires DistinctEvents(db.events) && Tasks.Advance(db, t, row, attempts, e, tr).Done?
    ensures var after := Tasks.Advance(db, t, row, attempts, e, tr).db;
      && after.events in {db.events, db.events + [e]} && e in after.events && after.transitions == db.transitions + [tr.(eventId := e.id)]
      && after.attempts == attempts
  {
    AppendKeeps(db.events, e);
    hide AppendTo;
  }

  lemma AdvanceTells(db: Db, t: string, row: Task, attempts: map<string, Attempt>, e: Event, tr: TransitionRow, now: Time)
    requires Inv(db) && Chronicled(db) && Tasks.Advance(db, t, row, attempts, e, tr).Done?
    requires e.id == tr.eventId && Tells(e, tr, attempts) && AttemptsEvolve(db.attempts, attempts, now)
    ensures Chronicled(Tasks.Advance(db, t, row, attempts, e, tr).db)
  {
    hide Inv, Chronicled, Tells, AttemptsEvolve, Tasks.Advance;
    EventsDistinct(db);
    AdvanceLog(db, t, row, attempts, e, tr);
    OneMore(db, Tasks.Advance(db, t, row, attempts, e, tr).db, e, tr, now);
  }

  lemma SameAttempts(attempts: map<string, Attempt>, now: Time)
    ensures AttemptsEvolve(attempts, attempts, now)
  {
  }

  // ----- the transactions of the task repository

  lemma SubmitTells(db: Db, stamp: Stamp, r: Tasks.Request, now: Time)
    requires Inv(db) && Chronicled(db)
    ensures Chronicled(Commit(db, Tasks.Submit(db, stamp, r, now)))
  {
    hide Inv, Chronicled, Tasks.Advance, AttemptsEvolve;
    if Tasks.Submit(db, stamp, r, now).Done? && r.taskId !in db.tasks {
      SameAttempts(db.attempts, now);
      AdvanceTells(db, r.taskId, Tasks.NewRow(r, now), db.attempts,
        Tasks.KernelEvent(stamp, "task.created", r.taskId, Keys.Created(r.taskId), Submitted(Tasks.SubmissionOf(r))),
        Tasks.NewTransition(stamp, r.taskId, None, None, Tasks.NewRow(r, now), "submitted", now), now);
    }
  }

  lemma MoveTells(db: Db, stamp: Stamp, t: string, to: TaskState, reason: string, causation: Option<string>, now: Time)
    requires Inv(db) && Chronicled(db)
    ensures Chronicled(Commit(db, Tasks.Transition(db, stamp, t, to, reason, causation, now)))
  {
    hide Inv, Chronicled, Tasks.Advance, AttemptsEvolve, AllowedTransitions, StateName;
    if Tasks.Transition(db, stamp, t, to, reason, causation, now).Done? {
      var task := db.tasks[t];
      var row := Tasks.MovedRow(task, to, now);
      SameAttempts(db.attempts, now);
      AdvanceTells(db, t, row, db.attempts,
        Tasks.MovedEvent(stamp, t, "task." + StateName(to), task, to, reason).(causationId := causation),
        Tasks.NewTransition(stamp, t, None, Some(task.state), row, reason, now), now);
    }
  }

  lemma RetryTells(db: Db, stamp: Stamp, t: string, now: Time)
    requires Inv(db) && Chronicled(db)
    ensures Chronicled(Commit(db, Tasks.Retry(db, stamp, t, now)))
  {
    hide Inv, Chronicled, Tasks.Advance, AttemptsEvolve;
    if Tasks.Retry(db, stamp, t, now).Done? {
      var task := db.tasks[t];
      var row := Tasks.RetriedRow(task, now);
      SameAttempts(db.attempts, now);
      AdvanceTells(db, t, row, db.attempts, Tasks.MovedEvent(stamp, t, "task.retrying", task, Retrying, "user.retry"),
        Tasks.NewTransition(stamp, t, None, Some(task.state), row, "user.retry", now), now);
    }
  }

  lemma InvActive(db: Db, t: string, a: string)
    requires Inv(db) && t in db.tasks && db.tasks[t].active == Some(a)
    ensures a in db.attempts && db.attempts[a].taskId == t && db.attempts[a].state == AttemptRunning
    ensures db.attempts[a].fence == db.tasks[t].currentFence && db.tasks[t].state == Running
  {
    hide HistoryInv, EventsInv, RowsInv;
    ActiveAttempt(db, t, a);
  }

  lemma Closing(attempts: map<string, Attempt>, a: string, state: AttemptState, outcome: Option<string>, errorCode: Option<string>, now: Time)
    requires a in attempts && attempts[a].state == AttemptRunning && state != AttemptRunning
    ensures AttemptsEvolve(attempts, Tasks.CloseAttempt(attempts, a, state, outcome, errorCode, now), now)
  {
  }

  lemma CancelTells(db: Db, stamp: Stamp, t: string, lease: Option<Lease>, now: Time)
    requires Inv(db) && Chronicled(db)
    ensures Chronicled(Commit(db, Tasks.Cancel(db, stamp, t, lease, now)))
  {
    hide Inv, Chronicled, Tasks.Advance, AttemptsEvolve, AllowedTransitions, Tasks.Authoritative;
    if Tasks.Cancel(db, stamp, t, lease, now).Done? {
      var task := db.tasks[t];
      var row := Tasks.CancelledRow(task, now);
      if task.active.Some? {
        InvActive(db, t, task.active.value);
        Closing(db.attempts, task.active.value, AttemptCancelled, None, Some("task_cancelled"), now);
      } else {
        SameAttempts(db.attempts, now);
      }
      AdvanceTells(db, t, row, Tasks.CancelledAttempts(db, task, now),
        Tasks.MovedEvent(stamp, t, "task.cancelled", task, Cancelled, "user.cancelled"),
        Tasks.NewTransition(stamp, t, task.active, Some(task.state), row, "user.cancelled", now), now);
    }
  }

  lemma ClaimTells(db: Db, stamp: Stamp, a: string, t: string, plan: Plan, owner: string, leaseSeconds: int, now: Time)
    requires Inv(db) && Chronicled(db)
    ensures Chronicled(Commit(db, Tasks.Claim(db, stamp, a, t, plan, owner, leaseSeconds, now)))
  {
    hide Inv, Chronicled, Tasks.Advance, AttemptsEvolve, Tasks.Claimable;
    if Tasks.Claim(db, stamp, a, t, plan, owner, leaseSeconds, now).Done? {
      var task := db.tasks[t];
      var attempt := Tasks.NewAttempt(t, task, plan, owner, leaseSeconds, now);
      var row := Tasks.ClaimedRow(task, a, now);
      Adding(db.attempts, a, attempt, now);
      AdvanceTells(db, t, row, db.attempts[a := attempt], Tasks.StartedEvent(stamp, t, a, attempt),
        Tasks.NewTransition(stamp, t, Some(a), Some(task.state), row, "attempt.started", now), now);
    }
  }

  lemma Adding(attempts: map<string, Attempt>, a: string, attempt: Attempt, now: Time)
    requires a !in attempts
    ensures AttemptsEvolve(attempts, attempts[a := attempt], now)
  {
  }

  lemma RenewTells(db: Db, stamp: Stamp, lease: Lease, leaseSeconds: int, now: Time)
    requires Inv(db) && Chronicled(db)
    ensures Chronicled(Commit(db, Tasks.Renew(db, stamp, lease, leaseSeconds, now)))
  {
    hide Inv, Chronicled, Evolves, Touches, AppendTo, Tasks.Authoritative;
    RenewKeeps(db, stamp, lease, leaseSeconds, now);
    if Tasks.Renew(db, stamp, lease, leaseSeconds, now).Done? {
      EventsDistinct(db);
      AppendKeeps(db.events, Tasks.RenewedEvent(stamp, lease, now));
      OnlyEvents(db, Tasks.Renew(db, stamp, lease, leaseSeconds, now).db, now);
    }
  }

  lemma CompleteTells(db: Db, stamp: Stamp, lease: Lease, success: bool, outcomeHash: string, errorCode: Option<string>,
                      retryable: bool, retryAt: Option<Time>, now: Time)
    requires Inv(db) && Chronicled(db)
    ensures Chronicled(Commit(db, Tasks.Complete(db, stamp, lease, success, outcomeHash, errorCode, retryable, retryAt, now)))
  {
    hide Inv, Chronicled, Tasks.Advance, AttemptsEvolve, StateName;
    if Tasks.Complete(db, stamp, lease, success, outcomeHash, errorCode, retryable, retryAt, now).Done? {
      var t, a := lease.taskId, lease.attemptId;
      var task, state := db.tasks[t], if success then AttemptSucceeded else AttemptFailed;
      var row := Tasks.CompletedRow(task, success, outcomeHash, errorCode, retryable, retryAt, now);
      InvActive(db, t, a);
      Closing(db.attempts, a, state, Some(outcomeHash), errorCode, now);
      AdvanceTells(db, t, row, Tasks.CloseAttempt(db.attempts, a, state, Some(outcomeHash), errorCode, now),
        Tasks.CompletedEvent(stamp, lease, row.state, success, outcomeHash, errorCode),
        Tasks.NewTransition(stamp, t, Some(a), Some(task.state), row, "attempt.completed", now), now);
    }
  }

  lemma ExpireTells(db: Db, stamp: Stamp, t: string, a: string, target: TaskState, now: Time)
    requires Inv(db) && Chronicled(db) && t in db.tasks && db.tasks[t].active == Some(a)
    ensures Chronicled(Commit(db, Tasks.Expire(db, stamp, t, a, target, now)))
  {
    hide Inv, Chronicled, Tasks.Advance, AttemptsEvolve;
    if Tasks.Expire(db, stamp, t, a, target, now).Done? {
      var task := db.tasks[t];
      var row := Tasks.ExpiredRow(task, target, now);
      InvActive(db, t, a);
      Closing(db.attempts, a, AttemptExpired, None, Some("lease_expired"), now);
      AdvanceTells(db, t, row, Tasks.CloseAttempt(db.attempts, a, AttemptExpired, None, Some("lease_expired"), now),
        Tasks.ExpiredEvent(stamp, t, a, task, target),
        Tasks.NewTransition(stamp, t, Some(a), Some(Running), row, "lease.expired", now), now);
    }
  }

  lemma {:induction false} RecoverTells(db: Db, stamps: seq<Stamp>, rows: seq<string>, now: Time)
    requires Inv(db) && Chronicled(db) && |stamps| == |rows| && Recovery.Expirable(db, rows, now)
    ensures Chronicled(Commit(db, Tasks.Recover(db, stamps, rows, now)))
    decreases |rows|
  {
    hide Inv, Chronicled, Tasks.Expire, Recovery.Swept;
    if rows != [] {
      Recovery.RecoverUnfolds(db, stamps, rows, now);
      Recovery.FirstKept(db, stamps[0], rows, now);
      hide Tasks.Recover, Recovery.Expirable;
      var t := db.attempts[rows[0]].taskId;
      ExpireTells(db, stamps[0], t, rows[0], Tasks.RecoveryState(db.tasks[t]), now);
      var o := Recovery.FirstExpired(db, stamps[0], rows[0], now);
      if o.Done? {
        RecoverTells(o.db, stamps[1..], rows[1..], now);
      }
    }
  }

  lemma PrepareStepTells(o: Outcome<Task>, from: TaskState, stamp: Stamp, t: string, to: TaskState, reason: string, now: Time)
    requires o.Done? ==> Inv(o.db) && Chronicled(o.db)
    ensures var after := Tasks.PrepareStep(o, from, stamp, t, to, reason, now); after.Done? ==> Inv(after.db) && Chronicled(after.db)
  {
    hide Inv, Chronicled, Tasks.Transition, Evolves, Touches;
    if o.Done? && o.value.state == from {
      MoveTells(o.db, stamp, t, to, reason, None, now);
      TransitionKeeps(o.db, stamp, t, to, reason, None, now);
    }
  }

  lemma PrepareTells(db: Db, first: Stamp, second: Stamp, t: string, now: Time)
    requires Inv(db) && Chronicled(db)
    ensures var o := Tasks.Prepare(db, first, second, t, now); o.Done? ==> Inv(o.db) && Chronicled(o.db)
  {
    hide Inv, Chronicled, Tasks.PrepareStep;
    if t in db.tasks {
      var planned := Tasks.PrepareStep(Done(db, db.tasks[t]), Created, first, t, Planned, "plan.created", now);
      var ready := Tasks.PrepareStep(planned, Planned, second, t, Ready, "plan.ready", now);
      PrepareStepTells(Done(db, db.tasks[t]), Created, first, t, Planned, "plan.created", now);
      PrepareStepTells(planned, Planned, second, t, Ready, "plan.ready", now);
      PrepareStepTells(ready, Blocked, first, t, Ready, "plan.recheck", now);
    }
  }

  // ----- creation and checkpoints

  lemma CreateTells(db: Db, sha: Checkpoints.Sha, stamp: Stamp, bound: Stamp, r: Tasks.Request, reference: Reference, now: Time)
    requires Sound(db, sha) && Chronicled(db)
    ensures Chronicled(Commit(db, Checkpoints.CreateTask(db, stamp, bound, r, reference, now)))
  {
    hide Inv, CheckpointInvariants.CheckpointInv, BindingInv, Chronicled, Tasks.Submit, Bind, Checkpoints.CreateTask, Evolves, AppendTo;
    CreateUnfolds(db, stamp, bound, r, reference, now);
    SubmitTells(db, stamp, r, now);
    SubmitKeeps(db, stamp, r, now);
    if Checkpoints.CreateTask(db, stamp, bound, r, reference, now).Done? {
      var submitted := Tasks.Submit(db, stamp, r, now).db;
      SubmitRow(db, stamp, r, now);
      KeptSound(db, submitted, sha, r.taskId, now);
      BindTells(submitted, sha, bound, r, reference, now);
    }
  }

  lemma BindTells(db: Db, sha: Checkpoints.Sha, bound: Stamp, r: Tasks.Request, reference: Reference, now: Time)
    requires Sound(db, sha) && Chronicled(db) && r.taskId in db.tasks && Bind(db, bound, r, reference).Done?
    ensures Chronicled(Bind(db, bound, r, reference).db)
  {
    hide Inv, CheckpointInvariants.CheckpointInv, BindingInv, Chronicled, Bind, Evolves, AppendTo;
    var e := Checkpoints.BoundEvent(bound, r.taskId, reference, r.taskType);
    BindUnfolds(db, bound, r, reference);
    BindKeeps(db, sha, bound, r, reference, now);
    EventsDistinct(db);
    AppendKeeps(db.events, e);
    OnlyEvents(db, Bind(db, bound, r, reference).db, now);
  }

  lemma CheckpointTells(db: Db, sha: Checkpoints.Sha, stamp: Stamp, lease: Lease, reference: Reference, step: string,
                        versions: map<string, Json.Json>, resumable: bool, now: Time)
    requires Sound(db, sha) && Chronicled(db)
    requires Checkpoints.Authenticates(db, reference, CheckpointOf(lease.taskId, lease.attemptId, lease.fence))
    ensures Chronicled(Commit(db, Checkpoints.MakeCheckpoint(db, sha, stamp, lease, reference, step, versions, resumable, now)))
  {
    hide Inv, CheckpointInvariants.CheckpointInv, BindingInv, Chronicled, Checkpoints.MakeCheckpoint, Evolves, AppendTo,
      Checkpoints.Authenticates, Checkpoints.InsertReference, Tasks.Authoritative, CheckpointInvariants.NextLink;
    var o := Checkpoints.MakeCheckpoint(db, sha, stamp, lease, reference, step, versions, resumable, now);
    if o.Done? {
      CheckpointInvariants.CheckpointKeeps(db, sha, stamp, lease, reference, step, versions, resumable, now);
      CheckpointInvariants.MakeUnfolds(db, sha, stamp, lease, reference, step, versions, resumable, now);
      CheckpointInvariants.InsertedReference(db, reference);
      EventsDistinct(db);
      AppendKeeps(db.events, Checkpoints.CheckpointEvent(stamp, o.value, reference.contentHash));
      OnlyEvents(db, o.db, now);
    }
  }

  lemma PublishTells(db: Db, sha: Checkpoints.Sha, e: Event, now: Time)
    requires Sound(db, sha) && Chronicled(db) && e.source !in {Tasks.SOURCE, Checkpoints.SOURCE}
    ensures Chronicled(Commit(db, Append(db, e)))
  {
    hide Inv, CheckpointInvariants.CheckpointInv, BindingInv, Chronicled, Evolves, AppendTo;
    PublishSound(db, sha, e, now);
    if Append(db, e).Done? {
      EventsDistinct(db);
      AppendKeeps(db.events, e);
      OnlyEvents(db, Append(db, e).db, now);
    }
  }

  // ----- the job queue

  lemma SubmitJobTells(db: Db, sha: Checkpoints.Sha, op: Op, now: Time)
    requires Sound(db, sha) && Chronicled(db) && op.SubmitJob?
    ensures Chronicled(After(db, sha, op, now))
  {
    hide Sound, Chronicled, Checkpoints.CreateTask;
    var start := db.(jobs := db.jobs[op.jobId := Jobs.NewJob(op.engine, op.timeout, op.maxAttempts, now)]);
    var r := Jobs.TaskRequest(op.jobId, op.requestHash, op.maxAttempts);
    JobsApart(db, start, sha);
    SameChronicle(db, start);
    CreateTells(start, sha, op.stamp, op.bound, r, op.reference, now);
    var o := Jobs.SubmitJob(db, op.stamp, op.bound, op.jobId, op.requestHash, op.engine, op.timeout, op.maxAttempts, op.reference, now);
    if o.Done? {
      SameChronicle(Checkpoints.CreateTask(start, op.stamp, op.bound, r, op.reference, now).db, o.db);
    }
  }

  lemma StaleTells(db: Db, stamp: Stamp, j: string, now: Time)
    requires Inv(db) && Chronicled(db)
    ensures var o := Jobs.RecoverStaleJob(db, stamp, j, now); o.Done? ==> Inv(o.db) && Chronicled(o.db)
  {
    hide Inv, Chronicled, Tasks.Expire, Evolves, Touches;
    var o := Jobs.RecoverStaleJob(db, stamp, j, now);
    if o.Done? && j in db.mappings && j in db.jobs {
      var t := db.mappings[j].taskId;
      var kernel := Jobs.StaleTask(db, stamp, t, now).db;
      if t in db.tasks && db.tasks[t].active.Some? {
        var a := db.tasks[t].active.value;
        InvActive(db, t, a);
        ExpireTells(db, stamp, t, a, Failed, now);
        ExpireKeeps(db, stamp, t, a, Failed, now);
      }
      SameChronicle(kernel, o.db);
      SameInv(kernel, o.db);
    }
  }

  lemma {:induction false} StaleJobsTell(db: Db, stamps: seq<Stamp>, rows: seq<string>, now: Time)
    requires Inv(db) && Chronicled(db) && |stamps| == |rows|
    ensures Chronicled(Commit(db, Jobs.RecoverStaleJobs(db, stamps, rows, now)))
    decreases |rows|
  {
    hide Inv, Chronicled, Jobs.RecoverStaleJob;
    if rows != [] {
      StaleTells(db, stamps[0], rows[0], now);
      var first := Jobs.RecoverStaleJob(db, stamps[0], rows[0], now);
      if first.Done? {
        StaleJobsTell(first.db, stamps[1..], rows[1..], now);
      }
    }
  }

  lemma RecoverStaleTells(db: Db, stamps: seq<Stamp>, rows: seq<string>, now: Time)
    requires Inv(db) && Chronicled(db) && |stamps| == |rows|
    ensures Chronicled(Commit(db, Jobs.RecoverStale(db, stamps, rows, now)))
  {
    hide Inv, Chronicled, Jobs.RecoverStaleJobs;
    StaleJobsTell(db, stamps, rows, now);
    var o := Jobs.RecoverStaleJobs(db, stamps, rows, now);
    if o.Done? {
      SameChronicle(o.db, Jobs.QuarantineStale(o.db, now));
    }
  }

  lemma ClaimJobTells(db: Db, sha: Checkpoints.Sha, ids: Jobs.ClaimIds, j: string, owner: string, leaseSeconds: int, now: Time)
    requires Sound(db, sha) && Chronicled(db) && j in db.jobs
    ensures Chronicled(Commit(db, Jobs.ClaimJob(db, ids, j, owner, leaseSeconds, now)))
  {
    hide Sound, Chronicled, Jobs.Quarantine, ClaimTask;
    SoundInv(db, sha);
    if j !in db.mappings {
      QuarantineTells(db, sha, ids.first, j, now);
    } else if db.mappings[j].taskId in db.tasks {
      ClaimJobUnfolds(db, ids, j, owner, leaseSeconds, now);
      hide Jobs.ClaimJob;
      var t, engine, seconds := db.mappings[j].taskId, Jobs.Runtime(db.jobs[j]), LeaseSeconds(db.jobs[j], leaseSeconds);
      ClaimTaskTells(db, ids, t, engine, owner, seconds, now);
      var o := ClaimTask(db, ids, t, engine, owner, seconds, now);
      if o.Done? {
        SameChronicle(o.db, Jobs.ClaimJob(db, ids, j, owner, leaseSeconds, now).db);
      }
    }
  }

  lemma ClaimTaskTells(db: Db, ids: Jobs.ClaimIds, t: string, engine: string, owner: string, leaseSeconds: int, now: Time)
    requires Inv(db) && Chronicled(db)
    ensures Chronicled(Commit(db, ClaimTask(db, ids, t, engine, owner, leaseSeconds, now)))
  {
    hide Inv, Chronicled, Tasks.Prepare, Tasks.Claim;
    PrepareTells(db, ids.first, ids.second, t, now);
    if Tasks.Prepare(db, ids.first, ids.second, t, now).Done? {
      ClaimTells(Tasks.Prepare(db, ids.first, ids.second, t, now).db, ids.started, ids.attemptId, t, Plan(ids.planId, t, engine), owner,
                 leaseSeconds, now);
    }
  }

  lemma QuarantineTells(db: Db, sha: Checkpoints.Sha, stamp: Stamp, j: string, now: Time)
    requires Sound(db, sha) && Chronicled(db) && j in db.jobs
    ensures Chronicled(Commit(db, Jobs.Quarantine(db, stamp, j, now)))
  {
    hide Sound, Chronicled, AppendTo;
    var o, e := Jobs.Quarantine(db, stamp, j, now), Jobs.QuarantineEvent(stamp, j);
    if o.Done? {
      PublishTells(db, sha, e, now);
      SameChronicle(Append(db, e).db, o.db);
    }
  }

  lemma FinishJobTells(db: Db, op: Op, now: Time)
    requires Inv(db) && Chronicled(db) && op.FinishJob?
    ensures Chronicled(Commit(db, Jobs.FinishJob(db, op.stamp, op.jobId, op.claimed, op.attempt, op.lease, op.result, now)))
  {
    hide Inv, Chronicled, Tasks.Complete;
    var o := Jobs.FinishJob(db, op.stamp, op.jobId, op.claimed, op.attempt, op.lease, op.result, now);
    if o.Done? {
      var retryable, nextRun := Jobs.AsksRetry(op.claimed, op.attempt, op.result), Jobs.NextRun(op.claimed, op.attempt, op.result, now);
      CompleteTells(db, op.stamp, op.lease, op.result.success, op.result.outcomeHash, op.result.errorCode, retryable, Some(nextRun), now);
      SameChronicle(Tasks.Complete(db, op.stamp, op.lease, op.result.success, op.result.outcomeHash, op.result.errorCode, retryable,
                                   Some(nextRun), now).db, o.db);
    }
  }

  lemma CancelJobTells(db: Db, stamp: Stamp, j: string, now: Time)
    requires Inv(db) && Chronicled(db)
    ensures Chronicled(Commit(db, Jobs.CancelJob(db, stamp, j, now)))
  {
    hide Inv, Chronicled, Tasks.Advance, AttemptsEvolve;
    var o := Jobs.CancelJob(db, stamp, j, now);
    if o.Done? && o.value {
      if j in db.mappings {
        var t := db.mappings[j].taskId;
        var task, row := db.tasks[t], Tasks.CancelledRow(db.tasks[t], now);
        var e := Tasks.MovedEvent(stamp, t, "task.cancelled", task, Cancelled, "user.cancelled");
        var tr := Tasks.NewTransition(stamp, t, None, Some(task.state), row, "user.cancelled", now);
        SameAttempts(db.attempts, now);
        AdvanceTells(db, t, row, db.attempts, e, tr, now);
        SameChronicle(Tasks.Advance(db, t, row, db.attempts, e, tr).db, o.db);
      } else {
        SameChronicle(db, o.db);
      }
    }
  }

  lemma RetryJobTells(db: Db, stamp: Stamp, j: string, now: Time, later: Time)
    requires Inv(db) && Chronicled(db)
    ensures Chronicled(Commit(db, Jobs.RetryJob(db, stamp, j, now, later)))
  {
    hide Inv, Chronicled, Tasks.Retry;
    var o := Jobs.RetryJob(db, stamp, j, now, later);
    if o.Done? {
      if j in db.mappings && Tasks.Retry(db, stamp, db.mappings[j].taskId, now).Done? {
        RetryTells(db, stamp, db.mappings[j].taskId, now);
        SameChronicle(Tasks.Retry(db, stamp, db.mappings[j].taskId, now).db, if o.value then o.db else Tasks.Retry(db, stamp, db.mappings[j].taskId, now).db);
      } else {
        SameChronicle(db, o.db);
      }
    }
  }

  // ----- every step, every run

  lemma TaskStepTells(db: Db, sha: Checkpoints.Sha, op: Op, now: Time)
    requires Inv(db) && Chronicled(db) && CanHappen(db, op, now)
    requires op.Submit? || op.Move? || op.Cancel? || op.Retry? || op.Claim? || op.Renew? || op.Complete? || op.Recover?
    ensures Chronicled(After(db, sha, op, now))
  {
    hide Inv, Chronicled, Recovery.Expirable, Tasks.Submit, Tasks.Transition, Tasks.Cancel, Tasks.Retry, Tasks.Claim, Tasks.Renew,
      Tasks.Complete, Tasks.Recover;
    match op {
      case Submit(stamp, r) => SubmitTells(db, stamp, r, now);
      case Move(stamp, t, to, reason, causation) => MoveTells(db, stamp, t, to, reason, causation, now);
      case Cancel(stamp, t, lease) => CancelTells(db, stamp, t, lease, now);
      case Retry(stamp, t) => RetryTells(db, stamp, t, now);
      case Claim(stamp, a, t, plan, owner, seconds) => ClaimTells(db, stamp, a, t, plan, owner, seconds, now);
      case Renew(stamp, lease, seconds) => RenewTells(db, stamp, lease, seconds, now);
      case Complete(stamp, lease, success, outcome, error, retryable, retryAt) =>
        CompleteTells(db, stamp, lease, success, outcome, error, retryable, retryAt, now);
      case Recover(stamps, rows) => RecoverTells(db, stamps, rows, now);
    }
  }

  lemma JobStepTells(db: Db, sha: Checkpoints.Sha, op: Op, now: Time)
    requires Sound(db, sha) && Chronicled(db) && CanHappen(db, op, now)
    requires op.RecoverStale? || op.ClaimJob? || op.FinishJob? || op.CancelJob? || op.RetryJob? || op.DeleteJob?
    ensures Chronicled(After(db, sha, op, now))
  {
    hide Sound, Chronicled, AllStale, Jobs.RecoverStale, Jobs.ClaimJob, Jobs.FinishJob, Jobs.CancelJob, Jobs.RetryJob;
    SoundInv(db, sha);
    match op {
      case RecoverStale(stamps, rows) => RecoverStaleTells(db, stamps, rows, now);
      case ClaimJob(ids, j, owner, seconds) => ClaimJobTells(db, sha, ids, j, owner, seconds, now);
      case FinishJob(_, _, _, _, _, _) => FinishJobTells(db, op, now);
      case CancelJob(stamp, j) => CancelJobTells(db, stamp, j, now);
      case RetryJob(stamp, j, later) => RetryJobTells(db, stamp, j, now, later);
      case DeleteJob(j) => SameChronicle(db, Jobs.DeleteJob(db, j));
    }
  }

  lemma OtherStepTells(db: Db, sha: Checkpoints.Sha, op: Op, now: Time)
    requires Sound(db, sha) && Chronicled(db) && CanHappen(db, op, now)
    requires op.Create? || op.Put? || op.Checkpoint? || op.Publish? || op.Acknowledge?
    ensures Chronicled(After(db, sha, op, now))
  {
    hide Sound, Chronicled, Checkpoints.CreateTask, Checkpoints.MakeCheckpoint, Checkpoints.Authenticates, Append, Ack;
    match op {
      case Create(stamp, bound, r, reference) => CreateTells(db, sha, stamp, bound, r, reference, now);
      case Put(stored) => SameChronicle(db, Commit(db, Checkpoints.Put(db, stored)));
      case Checkpoint(stamp, lease, reference, step, versions, resumable) =>
        CheckpointTells(db, sha, stamp, lease, reference, step, versions, resumable, now);
      case Publish(e) => PublishTells(db, sha, e, now);
      case Acknowledge(consumer, through) =>
        AckOnly(db, consumer, through);
        SameChronicle(db, Commit(db, Ack(db, consumer, through)));
    }
  }

  /** Every step keeps the log, the transitions and the attempts in agreement, whatever its stamps are. */
  lemma StepChronicled(db: Db, sha: Checkpoints.Sha, op: Op, now: Time)
    requires Sound(db, sha) && Chronicled(db) && CanHappen(db, op, now)
    ensures Chronicled(After(db, sha, op, now))
  {
    hide Sound, Chronicled, CanHappen, After;
    SoundInv(db, sha);
    if op.SubmitJob? {
      SubmitJobTells(db, sha, op, now);
    } else if op.RecoverStale? || op.ClaimJob? || op.FinishJob? || op.CancelJob? || op.RetryJob? || op.DeleteJob? {
      JobStepTells(db, sha, op, now);
    } else if op.Create? || op.Put? || op.Checkpoint? || op.Publish? || op.Acknowledge? {
      OtherStepTells(db, sha, op, now);
    } else {
      TaskStepTells(db, sha, op, now);
    }
  }

  /** In every run each transition has its event and each event of the task repository, but a renewal, its transition. */
  lemma {:induction false} RunChronicled(db: Db, sha: Checkpoints.Sha, start: Time, steps: seq<Step>)
    requires Sound(db, sha) && Chronicled(db) && IsRun(db, sha, start, steps)
    ensures Chronicled(Final(db, sha, start, steps))
    decreases |steps|
  {
    hide Sound, Chronicled, CanHappen, After, Evolves;
    if steps != [] {
      StepSound(db, sha, steps[0].op, steps[0].now);
      StepChronicled(db, sha, steps[0].op, steps[0].now);
      RunChronicled(After(db, sha, steps[0].op, steps[0].now), sha, steps[0].now, steps[1..]);
    }
  }

  lemma InitialChronicled(db: Db)
    requires IsInitial(db)
    ensures Chronicled(db)
  {
  }
}
