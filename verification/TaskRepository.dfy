/**
 The task repository as it runs: every transaction changes the tables in place, row by row,
 and is proved to do to the database what its specification in Tasks says. The methods named
 Within run inside a caller's transaction, which undoes them when they fail.
 */
module Repository {
  import opened Database
  import opened Tables
  import opened Wrappers
  import EventLog
  import Keys
  import Tasks

  class TaskRepository {
    const store: Store
    const events: EventBus

    constructor (store: Store, events: EventBus)
      requires events.store == store
      ensures this.store == store && this.events == events
    {
      this.store, this.events := store, events;
    }

    predicate Valid() {
      events.store == store
    }

    method RecordTransition(row: TransitionRow) returns (r: Result<(), Error>)
      modifies store
      ensures r == Answer(Tasks.RecordTransition(old(store.Snapshot()), row))
      ensures store.Snapshot() == Commit(old(store.Snapshot()), Tasks.RecordTransition(old(store.Snapshot()), row))
    {
      if Tasks.TransitionClashes(store.transitions, row.id, row.eventId) {
        return Failure(IntegrityError);
      }
      store.transitions := store.transitions + [row];
      return Success(());
    }

    /** The row and its attempts are written; then their event and their transition. */
    method AdvanceWithin(t: string, row: Task, attempts: map<string, Attempt>, e: Event, transition: TransitionRow)
      returns (r: Result<Task, Error>)
      requires Valid()
      modifies store
      ensures r == Answer(Tasks.Advance(old(store.Snapshot()), t, row, attempts, e, transition))
      ensures r.Success? ==> store.Snapshot() == Tasks.Advance(old(store.Snapshot()), t, row, attempts, e, transition).db
    {
      hide EventLog.Append, Tasks.RecordTransition;
      store.attempts := attempts;
      store.tasks := store.tasks[t := row];
      assert store.Snapshot() == old(store.Snapshot()).(tasks := old(store.Snapshot()).tasks[t := row], attempts := attempts);
      var recorded := events.Append(e);
      if recorded.Failure? {
        return Failure(recorded.error);
      }
      var logged := RecordTransition(transition.(eventId := recorded.value.id));
      if logged.Failure? {
        return Failure(logged.error);
      }
      return Success(row);
    }

    method SubmitWithin(stamp: Stamp, q: Tasks.Request, now: Time) returns (r: Result<Task, Error>)
      requires Valid()
      modifies store
      ensures r == Answer(Tasks.Submit(old(store.Snapshot()), stamp, q, now))
      ensures r.Success? ==> store.Snapshot() == Tasks.Submit(old(store.Snapshot()), stamp, q, now).db
    {
      hide Tasks.Advance;
      if q.taskId in store.tasks {
        var value := store.tasks[q.taskId];
        if value.submission == Tasks.SubmissionOf(q) && value.idempotencyKey == q.idempotencyKey {
          return Success(value);
        }
        return Failure(IdempotencyConflict);
      }
      if q.idempotencyKey.Some? && Tasks.KeyTaken(store.tasks, q.idempotencyKey) {
        return Failure(if q.idempotencyKey.value == "" then IntegrityError else IdempotencyConflict);
      }
      var row := Tasks.NewRow(q, now);
      r := AdvanceWithin(q.taskId, row, store.attempts,
        Tasks.KernelEvent(stamp, "task.created", q.taskId, Keys.Created(q.taskId), Submitted(row.submission)),
        Tasks.NewTransition(stamp, q.taskId, None, None, row, "submitted", now));
    }

    method Submit(stamp: Stamp, q: Tasks.Request, now: Time) returns (r: Result<Task, Error>)
      requires Valid()
      modifies store
      ensures r == Answer(Tasks.Submit(old(store.Snapshot()), stamp, q, now))
      ensures store.Snapshot() == Commit(old(store.Snapshot()), Tasks.Submit(old(store.Snapshot()), stamp, q, now))
    {
      hide Tasks.Submit;
      var saved := store.Snapshot();
      r := SubmitWithin(stamp, q, now);
      if r.Failure? {
        store.Restore(saved);
      }
    }

    method TransitionWithin(stamp: Stamp, t: string, to: TaskState, reason: string, causation: Option<string>, now: Time)
      returns (r: Result<Task, Error>)
      requires Valid()
      modifies store
      ensures r == Answer(Tasks.Transition(old(store.Snapshot()), stamp, t, to, reason, causation, now))
      ensures r.Success? ==> store.Snapshot() == Tasks.Transition(old(store.Snapshot()), stamp, t, to, reason, causation, now).db
    {
      hide Tasks.Advance, AllowedTransitions, StateName;
      if t !in store.tasks {
        return Failure(UnknownTask);
      }
      var current := store.tasks[t];
      if current.active.Some? {
        return Failure(InvalidTransition);
      }
      if to !in AllowedTransitions(current.state) {
        return Failure(InvalidTransition);
      }
      var revision := current.revision + 1;
      var terminal := if Terminal(to) then Some(now) else None;
      var row := current.(state := to, updatedAt := now, terminalAt := terminal, revision := revision);
      r := AdvanceWithin(t, row, store.attempts,
        Tasks.MovedEvent(stamp, t, "task." + StateName(to), current, to, reason).(causationId := causation),
        TransitionRow(stamp.transitionId, t, None, Some(current.state), to, reason, stamp.eventId, now, revision));
    }

    method Transition(stamp: Stamp, t: string, to: TaskState, reason: string, causation: Option<string>, now: Time)
      returns (r: Result<Task, Error>)
      requires Valid()
      modifies store
      ensures r == Answer(Tasks.Transition(old(store.Snapshot()), stamp, t, to, reason, causation, now))
      ensures store.Snapshot() ==
        Commit(old(store.Snapshot()), Tasks.Transition(old(store.Snapshot()), stamp, t, to, reason, causation, now))
    {
      hide Tasks.Transition;
      var saved := store.Snapshot();
      r := TransitionWithin(stamp, t, to, reason, causation, now);
      if r.Failure? {
        store.Restore(saved);
      }
    }

    method PrepareWithin(first: Stamp, second: Stamp, t: string, now: Time) returns (r: Result<Task, Error>)
      requires Valid()
      modifies store
      ensures r == Answer(Tasks.Prepare(old(store.Snapshot()), first, second, t, now))
      ensures r.Success? ==> store.Snapshot() == Tasks.Prepare(old(store.Snapshot()), first, second, t, now).db
    {
      hide Tasks.Transition;
      if t !in store.tasks {
        return Failure(UnknownTask);
      }
      r := Success(store.tasks[t]);
      if r.value.state == Created {
        r := TransitionWithin(first, t, Planned, "plan.created", None, now);
        if r.Failure? {
          return;
        }
      }
      if r.value.state == Planned {
        r := TransitionWithin(second, t, Ready, "plan.ready", None, now);
        if r.Failure? {
          return;
        }
      }
      if r.value.state == Blocked {
        r := TransitionWithin(first, t, Ready, "plan.recheck", None, now);
      }
    }

    /** Ends an attempt that still runs. */
    method Close(a: string, state: AttemptState, outcome: Option<string>, errorCode: Option<string>, now: Time)
      modifies store`attempts
      ensures store.attempts == Tasks.CloseAttempt(old(store.attempts), a, state, outcome, errorCode, now)
    {
      if a in store.attempts && store.attempts[a].state == AttemptRunning {
        var attempt := store.attempts[a].(state := state, finishedAt := Some(now), errorCode := errorCode);
        if outcome.Some? {
          attempt := attempt.(outcomeHash := outcome);
        }
        store.attempts := store.attempts[a := attempt];
      }
    }

    method Cancel(stamp: Stamp, t: string, lease: Option<Lease>, now: Time) returns (r: Result<Task, Error>)
      requires Valid()
      modifies store
      ensures r == Answer(Tasks.Cancel(old(store.Snapshot()), stamp, t, lease, now))
      ensures store.Snapshot() == Commit(old(store.Snapshot()), Tasks.Cancel(old(store.Snapshot()), stamp, t, lease, now))
    {
      hide Tasks.Advance, Tasks.Authoritative, Tasks.CloseAttempt;
      var saved := store.Snapshot();
      if t !in store.tasks {
        return Failure(UnknownTask);
      }
      var task := store.tasks[t];
      if Terminal(task.state) || Cancelled !in AllowedTransitions(task.state) {
        return Failure(InvalidTransition);
      }
      if task.active.Some? {
        if lease.None? || !Tasks.Authoritative(store.Snapshot(), lease.value, now) {
          return Failure(StaleLease);
        }
        Close(task.active.value, AttemptCancelled, None, Some("task_cancelled"), now);
      }
      var row := task.(state := Cancelled, active := None, errorCode := Some("task_cancelled"), updatedAt := now,
                       terminalAt := Some(now), revision := task.revision + 1);
      ghost var between := store.Snapshot();
      assert row == Tasks.CancelledRow(task, now) && between == saved.(attempts := Tasks.CancelledAttempts(saved, task, now));
      AttemptsFirst(saved, between, t, row, Tasks.MovedEvent(stamp, t, "task.cancelled", task, Cancelled, "user.cancelled"),
                    Tasks.NewTransition(stamp, t, task.active, Some(task.state), row, "user.cancelled", now));
      r := AdvanceWithin(t, row, store.attempts, Tasks.MovedEvent(stamp, t, "task.cancelled", task, Cancelled, "user.cancelled"),
        Tasks.NewTransition(stamp, t, task.active, Some(task.state), row, "user.cancelled", now));
      if r.Failure? {
        store.Restore(saved);
      }
    }

    method Retry(stamp: Stamp, t: string, now: Time) returns (r: Result<Task, Error>)
      requires Valid()
      modifies store
      ensures r == Answer(Tasks.Retry(old(store.Snapshot()), stamp, t, now))
      ensures store.Snapshot() == Commit(old(store.Snapshot()), Tasks.Retry(old(store.Snapshot()), stamp, t, now))
    {
      hide Tasks.Advance;
      var saved := store.Snapshot();
      if t !in store.tasks {
        return Failure(UnknownTask);
      }
      var task := store.tasks[t];
      if task.state != Failed {
        return Failure(InvalidTransition);
      }
      if task.attemptsStarted >= task.maxAttempts {
        return Failure(InvalidTransition);
      }
      var row := task.(state := Retrying, nextRunAt := now, errorCode := None, updatedAt := now, terminalAt := None,
                       revision := task.revision + 1);
      r := AdvanceWithin(t, row, store.attempts, Tasks.MovedEvent(stamp, t, "task.retrying", task, Retrying, "user.retry"),
        TransitionRow(stamp.transitionId, t, None, Some(task.state), Retrying, "user.retry", stamp.eventId, now, row.revision));
      if r.Failure? {
        store.Restore(saved);
      }
    }

    method ClaimWithin(stamp: Stamp, attemptId: string, t: string, plan: Plan, owner: string, leaseSeconds: int, now: Time)
      returns (r: Result<Lease, Error>)
      requires Valid()
      modifies store
      ensures r == Answer(Tasks.Claim(old(store.Snapshot()), stamp, attemptId, t, plan, owner, leaseSeconds, now))
      ensures r.Success? ==>
        store.Snapshot() == Tasks.Claim(old(store.Snapshot()), stamp, attemptId, t, plan, owner, leaseSeconds, now).db
    {
      hide Tasks.Advance, Tasks.AttemptClashes;
      if t !in store.tasks {
        return Failure(UnknownTask);
      }
      var task := store.tasks[t];
      if task.state !in {Ready, Retrying, Recovering} {
        return Failure(InvalidTransition);
      }
      if task.nextRunAt > now {
        return Failure(InvalidTransition);
      }
      if task.attemptsStarted >= task.maxAttempts {
        return Failure(InvalidTransition);
      }
      var number, fence := task.attemptsStarted + 1, task.currentFence + 1;
      var leaseUntil := now + Max(1, leaseSeconds) as real;
      if Tasks.AttemptClashes(store.attempts, attemptId, t, number, fence) {
        return Failure(IntegrityError);
      }
      var attempt := Attempt(t, number, fence, AttemptRunning, owner, leaseUntil, plan, now, now, None, None, None);
      var row := task.(state := Running, attemptsStarted := number, currentFence := fence, active := Some(attemptId),
                       updatedAt := now, revision := task.revision + 1);
      var advanced := AdvanceWithin(t, row, store.attempts[attemptId := attempt], Tasks.StartedEvent(stamp, t, attemptId, attempt),
        Tasks.NewTransition(stamp, t, Some(attemptId), Some(task.state), row, "attempt.started", now));
      if advanced.Failure? {
        return Failure(advanced.error);
      }
      return Success(Lease(attemptId, t, number, fence, owner, leaseUntil, plan));
    }

    method Claim(stamp: Stamp, attemptId: string, t: string, plan: Plan, owner: string, leaseSeconds: int, now: Time)
      returns (r: Result<Lease, Error>)
      requires Valid()
      modifies store
      ensures r == Answer(Tasks.Claim(old(store.Snapshot()), stamp, attemptId, t, plan, owner, leaseSeconds, now))
      ensures store.Snapshot() ==
        Commit(old(store.Snapshot()), Tasks.Claim(old(store.Snapshot()), stamp, attemptId, t, plan, owner, leaseSeconds, now))
    {
      hide Tasks.Claim;
      var saved := store.Snapshot();
      r := ClaimWithin(stamp, attemptId, t, plan, owner, leaseSeconds, now);
      if r.Failure? {
        store.Restore(saved);
      }
    }

    method Renew(stamp: Stamp, lease: Lease, leaseSeconds: int, now: Time) returns (r: Result<Lease, Error>)
      requires Valid()
      modifies store
      ensures r == Answer(Tasks.Renew(old(store.Snapshot()), stamp, lease, leaseSeconds, now))
      ensures store.Snapshot() == Commit(old(store.Snapshot()), Tasks.Renew(old(store.Snapshot()), stamp, lease, leaseSeconds, now))
    {
      hide EventLog.Append;
      var saved := store.Snapshot();
      if !Tasks.Authoritative(store.Snapshot(), lease, now) {
        return Failure(StaleLease);
      }
      var attempt := store.attempts[lease.attemptId];
      var leaseUntil := LaterOf(attempt.leaseUntil, now + Max(1, leaseSeconds) as real);
      store.attempts := store.attempts[lease.attemptId := attempt.(leaseUntil := leaseUntil, renewedAt := now)];
      assert store.Snapshot() == saved.(attempts := store.attempts);
      var recorded := events.Append(Tasks.RenewedEvent(stamp, lease, now));
      if recorded.Failure? {
        store.Restore(saved);
        return Failure(recorded.error);
      }
      return Success(lease.(leaseUntil := leaseUntil));
    }

    method CompleteWithin(stamp: Stamp, lease: Lease, success: bool, outcomeHash: string, errorCode: Option<string>, retryable: bool,
                          retryAt: Option<Time>, now: Time) returns (r: Result<Task, Error>)
      requires Valid()
      modifies store
      ensures r == Answer(Tasks.Complete(old(store.Snapshot()), stamp, lease, success, outcomeHash, errorCode, retryable, retryAt, now))
      ensures r.Success? ==>
        store.Snapshot() == Tasks.Complete(old(store.Snapshot()), stamp, lease, success, outcomeHash, errorCode, retryable, retryAt, now).db
    {
      hide Tasks.Advance, Tasks.CloseAttempt;
      if !Tasks.Authoritative(store.Snapshot(), lease, now) {
        return Failure(StaleLease);
      }
      ghost var before := store.Snapshot();
      var t := lease.taskId;
      var task := store.tasks[t];
      var target, attemptState := Completed, AttemptSucceeded;
      if !success {
        attemptState := AttemptFailed;
        if retryable && task.attemptsStarted < task.maxAttempts {
          target := Retrying;
        } else {
          target := Failed;
        }
      }
      Close(lease.attemptId, attemptState, Some(outcomeHash), errorCode, now);
      var row := task.(state := target, active := None, nextRunAt := if retryAt.Some? then retryAt.value else now,
                       resultHash := if success then Some(outcomeHash) else None, errorCode := errorCode, updatedAt := now,
                       terminalAt := if Terminal(target) then Some(now) else None, revision := task.revision + 1);
      assert row == Tasks.CompletedRow(task, success, outcomeHash, errorCode, retryable, retryAt, now);
      AttemptsFirst(before, store.Snapshot(), t, row, Tasks.CompletedEvent(stamp, lease, target, success, outcomeHash, errorCode),
                    Tasks.NewTransition(stamp, t, Some(lease.attemptId), Some(task.state), row, "attempt.completed", now));
      r := AdvanceWithin(t, row, store.attempts, Tasks.CompletedEvent(stamp, lease, target, success, outcomeHash, errorCode),
        Tasks.NewTransition(stamp, t, Some(lease.attemptId), Some(task.state), row, "attempt.completed", now));
    }

    method Complete(stamp: Stamp, lease: Lease, success: bool, outcomeHash: string, errorCode: Option<string>, retryable: bool,
                    retryAt: Option<Time>, now: Time) returns (r: Result<Task, Error>)
      requires Valid()
      modifies store
      ensures r == Answer(Tasks.Complete(old(store.Snapshot()), stamp, lease, success, outcomeHash, errorCode, retryable, retryAt, now))
      ensures store.Snapshot() == Commit(old(store.Snapshot()),
        Tasks.Complete(old(store.Snapshot()), stamp, lease, success, outcomeHash, errorCode, retryable, retryAt, now))
    {
      hide Tasks.Complete;
      var saved := store.Snapshot();
      r := CompleteWithin(stamp, lease, success, outcomeHash, errorCode, retryable, retryAt, now);
      if r.Failure? {
        store.Restore(saved);
      }
    }

    method ExpireWithin(stamp: Stamp, t: string, a: string, target: TaskState, now: Time) returns (r: Result<Task, Error>)
      requires Valid() && t in store.tasks
      modifies store
      ensures r == Answer(Tasks.Expire(old(store.Snapshot()), stamp, t, a, target, now))
      ensures r.Success? ==> store.Snapshot() == Tasks.Expire(old(store.Snapshot()), stamp, t, a, target, now).db
    {
      hide Tasks.Advance, Tasks.CloseAttempt;
      ghost var before := store.Snapshot();
      var task := store.tasks[t];
      Close(a, AttemptExpired, None, Some("lease_expired"), now);
      var row := task.(state := target, active := None, errorCode := Some("lease_expired"), nextRunAt := now, updatedAt := now,
                       terminalAt := if Terminal(target) then Some(now) else None, revision := task.revision + 1);
      AttemptsFirst(before, store.Snapshot(), t, row, Tasks.ExpiredEvent(stamp, t, a, task, target),
                    Tasks.NewTransition(stamp, t, Some(a), Some(Running), row, "lease.expired", now));
      r := AdvanceWithin(t, row, store.attempts, Tasks.ExpiredEvent(stamp, t, a, task, target),
        Tasks.NewTransition(stamp, t, Some(a), Some(Running), row, "lease.expired", now));
    }

    /** The rows are those that the query for expired leases answered with. */
    method RecoverExpired(stamps: seq<Stamp>, rows: seq<string>, now: Time) returns (r: Result<nat, Error>)
      requires Valid() && |stamps| == |rows|
      modifies store
      ensures r == Answer(Tasks.Recover(old(store.Snapshot()), stamps, rows, now))
      ensures store.Snapshot() == Commit(old(store.Snapshot()), Tasks.Recover(old(store.Snapshot()), stamps, rows, now))
    {
      hide Tasks.Expire;
      var saved := store.Snapshot();
      var recovered := 0;
      for i := 0 to |rows|
        invariant Tasks.Recover(saved, stamps, rows, now) ==
          Plus(Tasks.Recover(store.Snapshot(), stamps[i..], rows[i..], now), recovered)
      {
        assert stamps[i..][1..] == stamps[i + 1..] && rows[i..][1..] == rows[i + 1..];
        var a := rows[i];
        if a in store.attempts && store.attempts[a].taskId in store.tasks {
          var t := store.attempts[a].taskId;
          var target := if store.tasks[t].attemptsStarted < store.tasks[t].maxAttempts then Recovering else Failed;
          var expired := ExpireWithin(stamps[i], t, a, target, now);
          if expired.Failure? {
            store.Restore(saved);
            return Failure(expired.error);
          }
          recovered := recovered + 1;
        }
      }
      return Success(recovered);
    }
  }

  /** An outcome that has counted n more. */
  ghost function Plus(o: Outcome<nat>, n: nat): Outcome<nat> {
    match o
    case Raised(e) => Raised(e)
    case Done(db, m) => Done(db, m + n)
  }

  /** It makes no difference whether the attempts are written before the task row. */
  lemma AttemptsFirst(before: Db, between: Db, t: string, row: Task, e: Event, transition: TransitionRow)
    requires between == before.(attempts := between.attempts)
    ensures Tasks.Advance(between, t, row, between.attempts, e, transition)
      == Tasks.Advance(before, t, row, between.attempts, e, transition)
  {
    hide EventLog.Append;
  }
}
