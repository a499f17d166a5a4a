/**
 What each transaction of the task protocol does when the identifiers it draws are new:
 exactly which calls are refused and why, and the whole database after the others. No
 deduplication key ever clashes, except when one attempt is renewed twice in a millisecond.
 */
module TaskEffects {
  import opened EventLog
  import opened Tables
  import opened TaskInvariants
  import opened Tasks
  import opened Wrappers
  import Keys

  ghost predicate Fresh(db: Db, stamp: Stamp) {
    && !IdUsed(db.events, stamp.eventId)
    && forall i :: 0 <= i < |db.transitions| ==> db.transitions[i].id != stamp.transitionId
  }

  /** The database with one task changed and the change recorded. */
  ghost function Advanced(db: Db, t: string, row: Task, attempts: map<string, Attempt>, e: Event, tr: TransitionRow): Db {
    db.(tasks := db.tasks[t := row], attempts := attempts, events := db.events + [e], transitions := db.transitions + [tr])
  }

  /** A key that is not accounted for has not been used. */
  lemma KeyFree(db: Db, k: Keys.Key)
    requires EventsInv(db.tasks, db.attempts, db.events) && !Accounted(db.tasks, db.attempts, k)
    ensures !KeyUsed(db.events, SOURCE, Keys.Render(k))
  {
    if KeyUsed(db.events, SOURCE, Keys.Render(k)) {
      var i :| 0 <= i < |db.events| && db.events[i].source == SOURCE && db.events[i].dedupKey == Some(Keys.Render(k));
      var j :| db.events[i].dedupKey == Some(Keys.Render(j)) && Accounted(db.tasks, db.attempts, j);
      Keys.RenderInjective(j, k);
      assert false;
    }
  }

  lemma AdvanceDone(db: Db, t: string, row: Task, attempts: map<string, Attempt>, e: Event, tr: TransitionRow,
                    stamp: Stamp, k: Keys.Key)
    requires Inv(db) && Fresh(db, stamp) && !Accounted(db.tasks, db.attempts, k)
    requires e.id == stamp.eventId == tr.eventId && tr.id == stamp.transitionId
    requires e.source == SOURCE && e.dedupKey == Some(Keys.Render(k))
    ensures Advance(db, t, row, attempts, e, tr) == Done(Advanced(db, t, row, attempts, e, tr), row)
  {
    KeyFree(db, k);
    AppendFresh(db.events, e);
    assert !TransitionClashes(db.transitions, tr.id, tr.eventId);
  }

  lemma SubmitExact(db: Db, stamp: Stamp, r: Request, now: Time)
    requires Inv(db) && Fresh(db, stamp)
    ensures Submit(db, stamp, r, now) ==
      if r.taskId in db.tasks then
        if db.tasks[r.taskId].submission == SubmissionOf(r) && db.tasks[r.taskId].idempotencyKey == r.idempotencyKey
        then Done(db, db.tasks[r.taskId]) else Raised(IdempotencyConflict)
      else if KeyTaken(db.tasks, r.idempotencyKey) then
        Raised(if r.idempotencyKey == Some("") then IntegrityError else IdempotencyConflict)
      else
        Done(Advanced(db, r.taskId, NewRow(r, now), db.attempts,
               KernelEvent(stamp, "task.created", r.taskId, Keys.Created(r.taskId), Submitted(SubmissionOf(r))),
               NewTransition(stamp, r.taskId, None, None, NewRow(r, now), "submitted", now)),
             NewRow(r, now))
  {
    hide Inv, Fresh, Advance, Advanced;
    if r.taskId !in db.tasks {
      AdvanceDone(db, r.taskId, NewRow(r, now), db.attempts,
        KernelEvent(stamp, "task.created", r.taskId, Keys.Created(r.taskId), Submitted(SubmissionOf(r))),
        NewTransition(stamp, r.taskId, None, None, NewRow(r, now), "submitted", now), stamp, Keys.Created(r.taskId));
    }
  }

  /** A resubmission with the same content answers with the existing task and changes nothing. */
  lemma SubmitTwice(db: Db, stamp: Stamp, again: Stamp, r: Request, now: Time, later: Time)
    requires Submit(db, stamp, r, now).Done?
    ensures var first := Submit(db, stamp, r, now);
      Submit(first.db, again, r, later) == Done(first.db, first.value)
  {
  }

  lemma TransitionExact(db: Db, stamp: Stamp, t: string, to: TaskState, reason: string, causation: Option<string>, now: Time)
    requires Inv(db) && Fresh(db, stamp)
    ensures Transition(db, stamp, t, to, reason, causation, now) ==
      if t !in db.tasks then Raised(UnknownTask)
      else if db.tasks[t].active.Some? || to !in AllowedTransitions(db.tasks[t].state) then Raised(InvalidTransition)
      else
        var task := db.tasks[t];
        var row := MovedRow(task, to, now);
        Done(Advanced(db, t, row, db.attempts,
               MovedEvent(stamp, t, "task." + StateName(to), task, to, reason).(causationId := causation),
               NewTransition(stamp, t, None, Some(task.state), row, reason, now)),
             row)
  {
    hide Inv, Fresh, Advance, Advanced;
    if t in db.tasks {
      var task := db.tasks[t];
      var row := MovedRow(task, to, now);
      AdvanceDone(db, t, row, db.attempts,
        MovedEvent(stamp, t, "task." + StateName(to), task, to, reason).(causationId := causation),
        NewTransition(stamp, t, None, Some(task.state), row, reason, now), stamp, Keys.Revised(t, row.revision));
    }
  }

  lemma NeverVerifying(db: Db, t: string)
    requires FencingInv(db.tasks, db.attempts) && t in db.tasks
    ensures db.tasks[t].state != Verifying
  {
    assert TaskOk(t, db.tasks[t], db.attempts);
  }

  lemma CancelExact(db: Db, stamp: Stamp, t: string, lease: Option<Lease>, now: Time)
    requires Inv(db) && Fresh(db, stamp)
    ensures Cancel(db, stamp, t, lease, now) ==
      if t !in db.tasks then Raised(UnknownTask)
      else if Terminal(db.tasks[t].state) then Raised(InvalidTransition)
      else if db.tasks[t].active.Some? && (lease.None? || !Authoritative(db, lease.value, now)) then Raised(StaleLease)
      else
        var task := db.tasks[t];
        var row := CancelledRow(task, now);
        Done(Advanced(db, t, row, CancelledAttempts(db, task, now),
               MovedEvent(stamp, t, "task.cancelled", task, Cancelled, "user.cancelled"),
               NewTransition(stamp, t, task.active, Some(task.state), row, "user.cancelled", now)),
             row)
  {
    hide FencingInv, HistoryInv, EventsInv, RowsInv, Fresh, Advance, Advanced, Authoritative;
    if t in db.tasks {
      var task := db.tasks[t];
      NeverVerifying(db, t);
      var row := CancelledRow(task, now);
      AdvanceDone(db, t, row, CancelledAttempts(db, task, now),
        MovedEvent(stamp, t, "task.cancelled", task, Cancelled, "user.cancelled"),
        NewTransition(stamp, t, task.active, Some(task.state), row, "user.cancelled", now), stamp,
        Keys.Revised(t, row.revision));
    }
  }

  lemma RetryExact(db: Db, stamp: Stamp, t: string, now: Time)
    requires Inv(db) && Fresh(db, stamp)
    ensures Retry(db, stamp, t, now) ==
      if t !in db.tasks then Raised(UnknownTask)
      else if db.tasks[t].state != Failed || db.tasks[t].attemptsStarted >= db.tasks[t].maxAttempts
      then Raised(InvalidTransition)
      else
        var task := db.tasks[t];
        var row := RetriedRow(task, now);
        Done(Advanced(db, t, row, db.attempts,
               MovedEvent(stamp, t, "task.retrying", task, Retrying, "user.retry"),
               NewTransition(stamp, t, None, Some(task.state), row, "user.retry", now)),
             row)
  {
    hide Inv, Fresh, Advance, Advanced;
    if t in db.tasks {
      var task := db.tasks[t];
      var row := RetriedRow(task, now);
      AdvanceDone(db, t, row, db.attempts,
        MovedEvent(stamp, t, "task.retrying", task, Retrying, "user.retry"),
        NewTransition(stamp, t, None, Some(task.state), row, "user.retry", now), stamp, Keys.Revised(t, row.revision));
    }
  }

  lemma NoAttemptClash(db: Db, a: string, t: string)
    requires FencingInv(db.tasks, db.attempts) && t in db.tasks && a !in db.attempts
    ensures !AttemptClashes(db.attempts, a, t, db.tasks[t].attemptsStarted + 1, db.tasks[t].currentFence + 1)
  {
    assert TaskOk(t, db.tasks[t], db.attempts);
  }

  lemma ClaimExact(db: Db, stamp: Stamp, a: string, t: string, plan: Plan, owner: string, leaseSeconds: int, now: Time)
    requires Inv(db) && Fresh(db, stamp) && a !in db.attempts
    ensures Claim(db, stamp, a, t, plan, owner, leaseSeconds, now) ==
      if t !in db.tasks then Raised(UnknownTask)
      else if !Claimable(db.tasks[t], now) then Raised(InvalidTransition)
      else
        var task := db.tasks[t];
        var attempt := NewAttempt(t, task, plan, owner, leaseSeconds, now);
        var row := ClaimedRow(task, a, now);
        Done(Advanced(db, t, row, db.attempts[a := attempt], StartedEvent(stamp, t, a, attempt),
               NewTransition(stamp, t, Some(a), Some(task.state), row, "attempt.started", now)),
             Lease(a, t, attempt.number, attempt.fence, owner, attempt.leaseUntil, plan))
  {
    hide FencingInv, HistoryInv, EventsInv, RowsInv, Fresh, Advance, Advanced, AttemptClashes;
    if t in db.tasks {
      var task := db.tasks[t];
      var attempt := NewAttempt(t, task, plan, owner, leaseSeconds, now);
      var row := ClaimedRow(task, a, now);
      NoAttemptClash(db, a, t);
      AdvanceDone(db, t, row, db.attempts[a := attempt], StartedEvent(stamp, t, a, attempt),
        NewTransition(stamp, t, Some(a), Some(task.state), row, "attempt.started", now), stamp,
        Keys.Started(t, attempt.number));
    }
  }

  lemma CompleteExact(db: Db, stamp: Stamp, lease: Lease, success: bool, outcomeHash: string,
                      errorCode: Option<string>, retryable: bool, retryAt: Option<Time>, now: Time)
    requires Inv(db) && Fresh(db, stamp)
    ensures Complete(db, stamp, lease, success, outcomeHash, errorCode, retryable, retryAt, now) ==
      if !Authoritative(db, lease, now) then Raised(StaleLease)
      else
        var t, a := lease.taskId, lease.attemptId;
        var task := db.tasks[t];
        var row := CompletedRow(task, success, outcomeHash, errorCode, retryable, retryAt, now);
        Done(Advanced(db, t, row,
               CloseAttempt(db.attempts, a, if success then AttemptSucceeded else AttemptFailed,
                            Some(outcomeHash), errorCode, now),
               CompletedEvent(stamp, lease, row.state, success, outcomeHash, errorCode),
               NewTransition(stamp, t, Some(a), Some(task.state), row, "attempt.completed", now)),
             row)
  {
    hide Inv, Fresh, Advance, Advanced, CloseAttempt;
    if Authoritative(db, lease, now) {
      var t, a := lease.taskId, lease.attemptId;
      var task := db.tasks[t];
      var row := CompletedRow(task, success, outcomeHash, errorCode, retryable, retryAt, now);
      AdvanceDone(db, t, row,
        CloseAttempt(db.attempts, a, if success then AttemptSucceeded else AttemptFailed,
                     Some(outcomeHash), errorCode, now),
        CompletedEvent(stamp, lease, row.state, success, outcomeHash, errorCode),
        NewTransition(stamp, t, Some(a), Some(task.state), row, "attempt.completed", now), stamp, Keys.Completed(a));
    }
  }

  lemma ExpireExact(db: Db, stamp: Stamp, t: string, a: string, target: TaskState, now: Time)
    requires Inv(db) && Fresh(db, stamp) && t in db.tasks && a in db.attempts && db.attempts[a].state == AttemptRunning
    ensures var task := db.tasks[t];
      var row := ExpiredRow(task, target, now);
      Expire(db, stamp, t, a, target, now) ==
        Done(Advanced(db, t, row, CloseAttempt(db.attempts, a, AttemptExpired, None, Some("lease_expired"), now),
               ExpiredEvent(stamp, t, a, task, target),
               NewTransition(stamp, t, Some(a), Some(Running), row, "lease.expired", now)),
             row)
  {
    hide Inv, Fresh, Advance, Advanced, CloseAttempt;
    var task := db.tasks[t];
    var row := ExpiredRow(task, target, now);
    AdvanceDone(db, t, row, CloseAttempt(db.attempts, a, AttemptExpired, None, Some("lease_expired"), now),
      ExpiredEvent(stamp, t, a, task, target),
      NewTransition(stamp, t, Some(a), Some(Running), row, "lease.expired", now), stamp, Keys.Expired(a));
  }

  /** A renewal under an authoritative lease conflicts exactly when the attempt was already renewed in this millisecond. */
  lemma RenewExact(db: Db, stamp: Stamp, lease: Lease, leaseSeconds: int, now: Time)
    requires Inv(db) && Fresh(db, stamp)
    ensures var o := Renew(db, stamp, lease, leaseSeconds, now);
      var attempt := if lease.attemptId in db.attempts then Some(RenewedAttempt(db.attempts[lease.attemptId], leaseSeconds, now)) else None;
      if !Authoritative(db, lease, now) then o == Raised(StaleLease)
      else if KeyUsed(db.events, SOURCE, Keys.Render(Keys.Renewed(lease.attemptId, Truncate(now * 1000.0))))
      then o == Raised(EventConflict)
      else o == Done(db.(attempts := db.attempts[lease.attemptId := attempt.value],
                         events := db.events + [RenewedEvent(stamp, lease, now)]),
                     lease.(leaseUntil := attempt.value.leaseUntil))
  {
    hide FencingInv, HistoryInv, RowsInv;
    if Authoritative(db, lease, now) {
      var e := RenewedEvent(stamp, lease, now);
      AppendKeeps(db.events, e);
    }
  }

  // ----- prepare

  /** Identifiers drawn for one step are not drawn again for another. */
  ghost predicate Apart(a: Stamp, b: Stamp) {
    a.eventId != b.eventId && a.transitionId != b.transitionId
  }

  function PreparedRow(task: Task, now: Time): Task {
    if task.state == Created then MovedRow(MovedRow(task, Planned, now), Ready, now)
    else if task.state in {Planned, Blocked} then MovedRow(task, Ready, now)
    else task
  }

  /** What a preparation does to the database: the one row, the two logs, and no identifier besides its own two. */
  ghost predicate Prepares(db: Db, after: Db, t: string, row: Task, first: Stamp, second: Stamp) {
    && after == db.(tasks := db.tasks[t := row], events := after.events, transitions := after.transitions)
    && forall s :: Fresh(db, s) && Apart(s, first) && Apart(s, second) ==> Fresh(after, s)
  }

  lemma PrepareStepExact(db: Db, from: TaskState, stamp: Stamp, t: string, to: TaskState, reason: string, now: Time)
    requires Inv(db) && Fresh(db, stamp) && t in db.tasks && to in AllowedTransitions(from) && from != Running
    ensures var o := PrepareStep(Done(db, db.tasks[t]), from, stamp, t, to, reason, now);
      && o.Done? && Inv(o.db) && t in o.db.tasks && o.db.tasks[t] == o.value
      && o.value == (if db.tasks[t].state == from then MovedRow(db.tasks[t], to, now) else db.tasks[t])
      && Prepares(db, o.db, t, o.value, stamp, stamp)
  {
    hide Inv, Fresh, Transition, Advanced, Evolves, Touches, Prepares;
    if db.tasks[t].state == from {
      NotActive(db, t);
      TransitionExact(db, stamp, t, to, reason, None, now);
      TransitionKeeps(db, stamp, t, to, reason, None, now);
      var task := db.tasks[t];
      var row := MovedRow(task, to, now);
      AdvancedPrepares(db, t, row, MovedEvent(stamp, t, "task." + StateName(to), task, to, reason).(causationId := None),
        NewTransition(stamp, t, None, Some(task.state), row, reason, now), stamp);
    } else {
      NothingPrepares(db, t, stamp);
    }
  }

  lemma NotActive(db: Db, t: string)
    requires Inv(db) && t in db.tasks && db.tasks[t].state != Running
    ensures db.tasks[t].active.None?
  {
    hide HistoryInv, EventsInv, RowsInv;
    ActiveRow(db, t);
  }

  lemma AdvancedPrepares(db: Db, t: string, row: Task, e: Event, tr: TransitionRow, stamp: Stamp)
    requires e.id == stamp.eventId && tr.id == stamp.transitionId
    ensures Prepares(db, Advanced(db, t, row, db.attempts, e, tr), t, row, stamp, stamp)
    ensures t in Advanced(db, t, row, db.attempts, e, tr).tasks && Advanced(db, t, row, db.attempts, e, tr).tasks[t] == row
  {
  }

  lemma NothingPrepares(db: Db, t: string, stamp: Stamp)
    requires t in db.tasks
    ensures Prepares(db, db, t, db.tasks[t], stamp, stamp)
  {
    assert db.tasks == db.tasks[t := db.tasks[t]];
  }

  lemma PreparesThen(a: Db, b: Db, c: Db, t: string, row: Task, next: Task, first: Stamp, second: Stamp)
    requires Prepares(a, b, t, row, first, first) && Prepares(b, c, t, next, second, second)
    ensures Prepares(a, c, t, next, first, second)
  {
    assert c.tasks == a.tasks[t := next];
  }

  /** Preparing a task never fails, and readies it when it was created, planned or blocked. */
  lemma PrepareExact(db: Db, first: Stamp, second: Stamp, t: string, now: Time)
    requires Inv(db) && Fresh(db, first) && Fresh(db, second) && Apart(first, second) && t in db.tasks
    ensures var o := Prepare(db, first, second, t, now);
      && o.Done? && Inv(o.db) && o.value == PreparedRow(db.tasks[t], now)
      && Prepares(db, o.db, t, o.value, first, second)
  {
    hide Inv, Fresh, PrepareStep, Prepares;
    var planned := PrepareStep(Done(db, db.tasks[t]), Created, first, t, Planned, "plan.created", now);
    var ready := PrepareStep(planned, Planned, second, t, Ready, "plan.ready", now);
    PrepareStepExact(db, Created, first, t, Planned, "plan.created", now);
    SecondFresh(db, planned.db, t, planned.value, first, second);
    PrepareStepExact(planned.db, Planned, second, t, Ready, "plan.ready", now);
    PreparesThen(db, planned.db, ready.db, t, planned.value, ready.value, first, second);
    if db.tasks[t].state == Blocked {
      BlockedExact(db, first, second, t, now);
    } else {
      NotBlocked(ready, first, t, now);
    }
  }

  lemma SecondFresh(db: Db, after: Db, t: string, row: Task, first: Stamp, second: Stamp)
    requires Prepares(db, after, t, row, first, first) && Fresh(db, second) && Apart(first, second)
    ensures Fresh(after, second)
  {
  }

  lemma NotBlocked(o: Outcome<Task>, stamp: Stamp, t: string, now: Time)
    requires o.Done? && o.value.state != Blocked
    ensures PrepareStep(o, Blocked, stamp, t, Ready, "plan.recheck", now) == o
  {
  }

  lemma BlockedExact(db: Db, first: Stamp, second: Stamp, t: string, now: Time)
    requires Inv(db) && Fresh(db, first) && Apart(first, second) && t in db.tasks && db.tasks[t].state == Blocked
    ensures var o := Prepare(db, first, second, t, now);
      && o.Done? && Inv(o.db) && o.value == PreparedRow(db.tasks[t], now)
      && Prepares(db, o.db, t, o.value, first, second)
  {
    hide Inv, Fresh, Prepares, Transition;
    PrepareStepExact(db, Blocked, first, t, Ready, "plan.recheck", now);
    var o := Prepare(db, first, second, t, now);
    assert o == PrepareStep(Done(db, db.tasks[t]), Blocked, first, t, Ready, "plan.recheck", now);
    WiderPrepares(db, o.db, t, o.value, first, second);
  }

  lemma WiderPrepares(db: Db, after: Db, t: string, row: Task, first: Stamp, second: Stamp)
    requires Prepares(db, after, t, row, first, first)
    ensures Prepares(db, after, t, row, first, second)
  {
  }
}
