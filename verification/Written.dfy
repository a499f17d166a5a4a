/**
 What each committed transaction of the task protocol writes, table by table and column by
 column, in terms of its arguments and of the rows it found.
 */
module Written {
  import opened TaskEffects
  import opened TaskInvariants
  import opened Tables
  import opened Tasks
  import opened Text
  import opened Wrappers

  /** The database with one more event and one more transition. */
  function Logged(db: Db, e: Event, row: TransitionRow): Db {
    db.(events := db.events + [e], transitions := db.transitions + [row])
  }

  /** A new task: its request, nothing started yet, and due at once. */
  lemma SubmitWrites(db: Db, stamp: Stamp, r: Request, now: Time)
    requires Inv(db) && Fresh(db, stamp) && r.taskId !in db.tasks && Submit(db, stamp, r, now).Done?
    ensures var t := r.taskId;
      var most := if r.maxAttempts < 1 then 1 else r.maxAttempts;
      var asked := Submission(r.requestHash, r.taskType, r.source, r.reason, r.priority, r.authority, most);
      var row := Task(asked, r.idempotencyKey, Created, most, 0, 0, None, now, None, None, now, now, None, 0);
      var e := Event(stamp.eventId, "task.created", 1, "kernel.tasks", Some(t), t, None, stamp.occurredAt, Submitted(asked), "{}",
                     Some(t + ":" + "created"));
      Submit(db, stamp, r, now) == Done(
        Logged(db.(tasks := db.tasks[t := row]), e,
               TransitionRow(stamp.transitionId, t, None, None, Created, "submitted", stamp.eventId, now, 0)), row)
  {
    hide Inv, Fresh, Submit;
    SubmitExact(db, stamp, r, now);
  }

  /** A transition changes the state and the time a task ended, and nothing else but the counter of revisions. */
  lemma TransitionWrites(db: Db, stamp: Stamp, t: string, to: TaskState, reason: string, causation: Option<string>, now: Time)
    requires Inv(db) && Fresh(db, stamp) && Transition(db, stamp, t, to, reason, causation, now).Done?
    ensures t in db.tasks
    ensures var task := db.tasks[t];
      var n := task.revision + 1;
      var row := task.(state := to, updatedAt := now, revision := n,
                       terminalAt := if to in {Completed, Failed, Cancelled} then Some(now) else None);
      var e := Event(stamp.eventId, "task." + StateName(to), 1, "kernel.tasks", Some(t), t, causation, stamp.occurredAt,
                     Moved(task.state, to, reason), "{}", Some(t + ":" + "revision" + ":" + Decimal(n)));
      Transition(db, stamp, t, to, reason, causation, now) == Done(
        Logged(db.(tasks := db.tasks[t := row]), e,
               TransitionRow(stamp.transitionId, t, None, Some(task.state), to, reason, stamp.eventId, now, n)), row)
  {
    hide Inv, Fresh, Transition, AllowedTransitions;
    TransitionExact(db, stamp, t, to, reason, causation, now);
  }

  /** Which states a task can move to a state from, by a transition of its own. */
  lemma IncomingEdges(from: TaskState, to: TaskState)
    ensures to in AllowedTransitions(from) <==>
      match to
      case Planned => from == Created
      case Ready => from in {Planned, Waiting, Retrying, Recovering, Blocked}
      case Running => from in {Ready, Waiting, Retrying, Recovering}
      case Waiting => from == Running
      case Degraded => from in {Running, Verifying}
      case Recovering => from == Degraded
      case Retrying => from in {Degraded, Failed}
      case Blocked => from in {Created, Planned, Ready, Waiting}
      case Failed => from in {Retrying, Degraded, Recovering, Blocked}
      case Cancelled => from !in {Verifying, Completed, Failed, Cancelled}
      case _ => false
  {
  }

  /** The attempt that ends: when, how, and why; an outcome only from a completion. */
  function Ended(attempt: Attempt, state: AttemptState, outcome: Option<string>, errorCode: Option<string>, now: Time): Attempt {
    Attempt(attempt.taskId, attempt.number, attempt.fence, state, attempt.owner, attempt.leaseUntil, attempt.plan, attempt.startedAt,
            attempt.renewedAt, Some(now), outcome, errorCode)
  }

  lemma CancelWrites(db: Db, stamp: Stamp, t: string, lease: Option<Lease>, now: Time)
    requires Inv(db) && Fresh(db, stamp) && Cancel(db, stamp, t, lease, now).Done?
    ensures t in db.tasks && (db.tasks[t].active.Some? ==> db.tasks[t].active.value in db.attempts)
    ensures var task := db.tasks[t];
      var n := task.revision + 1;
      var row := task.(state := Cancelled, active := None, errorCode := Some("task_cancelled"), updatedAt := now,
                       terminalAt := Some(now), revision := n);
      var attempts :=
        if task.active.None? then db.attempts
        else
          var attempt := db.attempts[task.active.value];
          db.attempts[task.active.value := Ended(attempt, AttemptCancelled, attempt.outcomeHash, Some("task_cancelled"), now)];
      var e := Event(stamp.eventId, "task.cancelled", 1, "kernel.tasks", Some(t), t, None, stamp.occurredAt,
                     Moved(task.state, Cancelled, "user.cancelled"), "{}", Some(t + ":" + "revision" + ":" + Decimal(n)));
      Cancel(db, stamp, t, lease, now) == Done(
        Logged(db.(tasks := db.tasks[t := row], attempts := attempts), e,
               TransitionRow(stamp.transitionId, t, task.active, Some(task.state), Cancelled, "user.cancelled", stamp.eventId, now, n)),
        row)
  {
    hide Inv, Fresh, Cancel, Authoritative;
    CancelExact(db, stamp, t, lease, now);
    if t in db.tasks && db.tasks[t].active.Some? {
      RunningAttempt(db, t, db.tasks[t].active.value);
    }
  }

  lemma RunningAttempt(db: Db, t: string, a: string)
    requires Inv(db) && t in db.tasks && db.tasks[t].active == Some(a)
    ensures a in db.attempts && db.attempts[a].state == AttemptRunning && db.attempts[a].taskId == t && db.tasks[t].state == Running
  {
    hide HistoryInv, EventsInv, RowsInv;
    ActiveAttempt(db, t, a);
  }

  lemma RetryWrites(db: Db, stamp: Stamp, t: string, now: Time)
    requires Inv(db) && Fresh(db, stamp) && Retry(db, stamp, t, now).Done?
    ensures t in db.tasks
    ensures var task := db.tasks[t];
      var n := task.revision + 1;
      var row := task.(state := Retrying, nextRunAt := now, errorCode := None, updatedAt := now, terminalAt := None, revision := n);
      var e := Event(stamp.eventId, "task.retrying", 1, "kernel.tasks", Some(t), t, None, stamp.occurredAt,
                     Moved(Failed, Retrying, "user.retry"), "{}", Some(t + ":" + "revision" + ":" + Decimal(n)));
      Retry(db, stamp, t, now) == Done(
        Logged(db.(tasks := db.tasks[t := row]), e,
               TransitionRow(stamp.transitionId, t, None, Some(Failed), Retrying, "user.retry", stamp.eventId, now, n)), row)
  {
    hide Inv, Fresh, Retry;
    RetryExact(db, stamp, t, now);
  }

  /**
   A claim is made exactly of a due task with attempts left that is ready, retrying or
   recovering. The new attempt runs until the lease is up, and the lease tells it as it is.
   */
  lemma ClaimWrites(db: Db, stamp: Stamp, a: string, t: string, plan: Plan, owner: string, leaseSeconds: int, now: Time)
    requires Inv(db) && Fresh(db, stamp) && a !in db.attempts
    ensures Claim(db, stamp, a, t, plan, owner, leaseSeconds, now).Done? <==>
      && t in db.tasks && db.tasks[t].state in {Ready, Retrying, Recovering} && db.tasks[t].nextRunAt <= now
      && db.tasks[t].attemptsStarted < db.tasks[t].maxAttempts
    ensures Claim(db, stamp, a, t, plan, owner, leaseSeconds, now).Done? ==>
      var task := db.tasks[t];
      var number, fence, n := task.attemptsStarted + 1, task.currentFence + 1, task.revision + 1;
      var until := now + (if leaseSeconds < 1 then 1 else leaseSeconds) as real;
      var row := task.(state := Running, attemptsStarted := number, currentFence := fence, active := Some(a), updatedAt := now,
                       revision := n);
      var attempt := Attempt(t, number, fence, AttemptRunning, owner, until, plan, now, now, None, None, None);
      var e := Event(stamp.eventId, "task.started", 1, "kernel.tasks", Some(t), t, None, stamp.occurredAt,
                     AttemptBegun(a, number, fence, plan.runtimeId, plan.planId), "{}",
                     Some(t + ":" + "attempt" + ":" + Decimal(number) + ":" + "started"));
      Claim(db, stamp, a, t, plan, owner, leaseSeconds, now) == Done(
        Logged(db.(tasks := db.tasks[t := row], attempts := db.attempts[a := attempt]), e,
               TransitionRow(stamp.transitionId, t, Some(a), Some(task.state), Running, "attempt.started", stamp.eventId, now, n)),
        Lease(a, t, number, fence, owner, until, plan))
  {
    hide Inv, Fresh, Claim;
    ClaimExact(db, stamp, a, t, plan, owner, leaseSeconds, now);
  }

  /** A renewal moves the end of the lease, never back, and the time of the renewal. */
  lemma RenewWrites(db: Db, stamp: Stamp, lease: Lease, leaseSeconds: int, now: Time)
    requires Inv(db) && Fresh(db, stamp) && Renew(db, stamp, lease, leaseSeconds, now).Done?
    ensures lease.attemptId in db.attempts
    ensures var attempt, asked := db.attempts[lease.attemptId], now + (if leaseSeconds < 1 then 1 else leaseSeconds) as real;
      var until := if attempt.leaseUntil < asked then asked else attempt.leaseUntil;
      var e := Event(stamp.eventId, "task.lease.renewed", 1, "kernel.tasks", Some(lease.taskId), lease.taskId, None, stamp.occurredAt,
                     LeaseRenewed(lease.attemptId, lease.fence), "{}",
                     Some(lease.attemptId + ":" + "renew" + ":" + IntText(Truncate(now * 1000.0))));
      Renew(db, stamp, lease, leaseSeconds, now) == Done(
        db.(attempts := db.attempts[lease.attemptId := attempt.(leaseUntil := until, renewedAt := now)], events := db.events + [e]),
        lease.(leaseUntil := until))
  {
    hide Inv, Fresh, Renew;
    RenewExact(db, stamp, lease, leaseSeconds, now);
  }

  /** A completion ends attempt and lease; what the worker reports goes into attempt, task and event alike. */
  lemma CompleteWrites(db: Db, stamp: Stamp, lease: Lease, success: bool, outcomeHash: string, errorCode: Option<string>,
                       retryable: bool, retryAt: Option<Time>, now: Time)
    requires Inv(db) && Fresh(db, stamp) && Complete(db, stamp, lease, success, outcomeHash, errorCode, retryable, retryAt, now).Done?
    ensures lease.taskId in db.tasks && lease.attemptId in db.attempts
    ensures var t, a := lease.taskId, lease.attemptId;
      var task, attempt := db.tasks[t], db.attempts[a];
      var n := task.revision + 1;
      var to := if success then Completed else if retryable && task.attemptsStarted < task.maxAttempts then Retrying else Failed;
      var row := task.(state := to, active := None, nextRunAt := if retryAt.Some? then retryAt.value else now,
                       resultHash := if success then Some(outcomeHash) else None, errorCode := errorCode, updatedAt := now,
                       terminalAt := if to == Retrying then None else Some(now), revision := n);
      var ended := Ended(attempt, if success then AttemptSucceeded else AttemptFailed, Some(outcomeHash), errorCode, now);
      var e := Event(stamp.eventId, "task." + StateName(to), 1, "kernel.tasks", Some(t), t, None, stamp.occurredAt,
                     AttemptEnded(a, lease.number, lease.fence, success, outcomeHash, errorCode), "{}", Some(a + ":" + "completed"));
      Complete(db, stamp, lease, success, outcomeHash, errorCode, retryable, retryAt, now) == Done(
        Logged(db.(tasks := db.tasks[t := row], attempts := db.attempts[a := ended]), e,
               TransitionRow(stamp.transitionId, t, Some(a), Some(Running), to, "attempt.completed", stamp.eventId, now, n)), row)
  {
    hide Inv, Fresh, Complete;
    CompleteExact(db, stamp, lease, success, outcomeHash, errorCode, retryable, retryAt, now);
  }

  /** The end of an expired attempt: its task is due again at once if another attempt is left, and has failed otherwise. */
  lemma ExpireWrites(db: Db, stamp: Stamp, a: string, now: Time)
    requires Inv(db) && Fresh(db, stamp) && a in db.attempts && db.attempts[a].state == AttemptRunning && db.attempts[a].taskId in db.tasks
    ensures var t, attempt := db.attempts[a].taskId, db.attempts[a];
      var task := db.tasks[t];
      var n := task.revision + 1;
      var to := if task.attemptsStarted < task.maxAttempts then Recovering else Failed;
      var row := task.(state := to, active := None, nextRunAt := now, errorCode := Some("lease_expired"), updatedAt := now,
                       terminalAt := if to == Failed then Some(now) else None, revision := n);
      var ended := Ended(attempt, AttemptExpired, attempt.outcomeHash, Some("lease_expired"), now);
      var e := Event(stamp.eventId, "task.lease.expired", 1, "kernel.tasks", Some(t), t, None, stamp.occurredAt,
                     LeaseExpired(a, task.currentFence, to), "{}", Some(a + ":" + "expired"));
      Expire(db, stamp, t, a, RecoveryState(task), now) == Done(
        Logged(db.(tasks := db.tasks[t := row], attempts := db.attempts[a := ended]), e,
               TransitionRow(stamp.transitionId, t, Some(a), Some(Running), to, "lease.expired", stamp.eventId, now, n)), row)
  {
    hide Inv, Fresh, Expire;
    ExpireExact(db, stamp, db.attempts[a].taskId, a, RecoveryState(db.tasks[db.attempts[a].taskId]), now);
  }

  /** The row of a task moved to a state that is not an end. */
  function Onward(task: Task, to: TaskState, now: Time): Task {
    task.(state := to, updatedAt := now, terminalAt := None, revision := task.revision + 1)
  }

  /** A preparation makes one or two transitions, or none, each with its own reason. */
  lemma PrepareWrites(db: Db, first: Stamp, second: Stamp, t: string, now: Time)
    requires Inv(db) && Fresh(db, first) && Fresh(db, second) && Apart(first, second) && t in db.tasks
    ensures var task, o := db.tasks[t], Prepare(db, first, second, t, now);
      && o.Done? && o.value == (if task.state == Created then Onward(Onward(task, Planned, now), Ready, now)
                                else if task.state in {Planned, Blocked} then Onward(task, Ready, now) else task)
      && o.db == db.(tasks := db.tasks[t := o.value], events := o.db.events, transitions := o.db.transitions)
      && o.db.transitions == db.transitions
           + (match task.state
              case Created => [Prepared(first, t, task, Planned, "plan.created", now),
                               Prepared(second, t, Onward(task, Planned, now), Ready, "plan.ready", now)]
              case Planned => [Prepared(second, t, task, Ready, "plan.ready", now)]
              case Blocked => [Prepared(first, t, task, Ready, "plan.recheck", now)]
              case _ => [])
  {
    hide Inv, Fresh, PrepareStep;
    PrepareExact(db, first, second, t, now);
    var task := db.tasks[t];
    var planned := PrepareStep(Done(db, task), Created, first, t, Planned, "plan.created", now);
    var ready := PrepareStep(planned, Planned, second, t, Ready, "plan.ready", now);
    PrepareStepExact(db, Created, first, t, Planned, "plan.created", now);
    PrepareStepWrites(db, Created, first, t, Planned, "plan.created", now);
    SecondFresh(db, planned.db, t, planned.value, first, second);
    PrepareStepExact(planned.db, Planned, second, t, Ready, "plan.ready", now);
    PrepareStepWrites(planned.db, Planned, second, t, Ready, "plan.ready", now);
    if task.state == Blocked {
      BlockedExact(db, first, second, t, now);
      BlockedStep(db, first, second, t, now);
      PrepareStepWrites(db, Blocked, first, t, Ready, "plan.recheck", now);
    } else {
      NotBlocked(ready, first, t, now);
    }
  }

  lemma BlockedStep(db: Db, first: Stamp, second: Stamp, t: string, now: Time)
    requires t in db.tasks && db.tasks[t].state == Blocked
    ensures Prepare(db, first, second, t, now) == PrepareStep(Done(db, db.tasks[t]), Blocked, first, t, Ready, "plan.recheck", now)
  {
    hide Transition;
  }

  /** The transition that one step of a preparation records. */
  function Prepared(stamp: Stamp, t: string, task: Task, to: TaskState, reason: string, now: Time): TransitionRow {
    TransitionRow(stamp.transitionId, t, None, Some(task.state), to, reason, stamp.eventId, now, task.revision + 1)
  }

  lemma PrepareStepWrites(db: Db, from: TaskState, stamp: Stamp, t: string, to: TaskState, reason: string, now: Time)
    requires Inv(db) && Fresh(db, stamp) && t in db.tasks && to in AllowedTransitions(from) && from != Running && !Terminal(to)
    ensures var o := PrepareStep(Done(db, db.tasks[t]), from, stamp, t, to, reason, now);
      && o.Done?
      && o.value == (if db.tasks[t].state == from then Onward(db.tasks[t], to, now) else db.tasks[t])
      && o.db.transitions == db.transitions
           + if db.tasks[t].state == from then [Prepared(stamp, t, db.tasks[t], to, reason, now)] else []
  {
    hide Inv, Fresh, Transition;
    if db.tasks[t].state == from {
      PrepareStepExact(db, from, stamp, t, to, reason, now);
      TransitionWrites(db, stamp, t, to, reason, None, now);
    }
  }
}
