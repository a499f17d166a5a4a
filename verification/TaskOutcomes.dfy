/** What a committed transaction of the task protocol means for what can be done next. */
module TaskOutcomes {
  import opened JobSteps
  import opened TaskEffects
  import opened TaskInvariants
  import opened Tables
  import opened Tasks
  import opened Wrappers
  import EventLog

  /** A renewed lease is in force for at least the time asked for, and never shorter than it was. */
  lemma RenewExtends(db: Db, stamp: Stamp, lease: Lease, leaseSeconds: int, now: Time, at: Time)
    requires Renew(db, stamp, lease, leaseSeconds, now).Done?
    ensures var o := Renew(db, stamp, lease, leaseSeconds, now);
      && (Authoritative(o.db, o.value, at) <==> at <= o.value.leaseUntil)
      && o.value.leaseUntil >= now + Max(1, leaseSeconds) as real
      && (Authoritative(db, lease, at) ==> Authoritative(o.db, o.value, at))
      && o.value == lease.(leaseUntil := o.value.leaseUntil)
  {
    hide EventLog.AppendTo;
    EventLog.AppendOnly(db.(attempts := db.attempts[lease.attemptId := RenewedAttempt(db.attempts[lease.attemptId], leaseSeconds, now)]),
                        RenewedEvent(stamp, lease, now));
  }

  /** A completion ends the lease for good, and settles the task by the verdict and the budget. */
  lemma CompleteSettles(db: Db, stamp: Stamp, lease: Lease, success: bool, outcomeHash: string, errorCode: Option<string>,
                        retryable: bool, retryAt: Option<Time>, now: Time)
    requires Complete(db, stamp, lease, success, outcomeHash, errorCode, retryable, retryAt, now).Done?
    ensures var o := Complete(db, stamp, lease, success, outcomeHash, errorCode, retryable, retryAt, now);
      && (forall at :: !Authoritative(o.db, lease, at))
      && (success <==> o.value.state == Completed) && o.value.resultHash == (if success then Some(outcomeHash) else None)
      && (!success ==> if retryable && o.value.attemptsStarted < o.value.maxAttempts
            then forall at :: Claimable(o.value, at) <==> (if retryAt.Some? then retryAt.value else now) <= at
            else o.value.state == Failed)
      && lease.attemptId in o.db.attempts && o.db.attempts[lease.attemptId].outcomeHash == Some(outcomeHash)
      && o.db.attempts[lease.attemptId].state == if success then AttemptSucceeded else AttemptFailed
  {
    hide Complete;
    CompleteTables(db, stamp, lease, success, outcomeHash, errorCode, retryable, retryAt, now);
  }

  /** A cancellation ends the task and whatever attempt it had. */
  lemma CancelSettles(db: Db, stamp: Stamp, t: string, lease: Option<Lease>, now: Time)
    requires Inv(db) && Cancel(db, stamp, t, lease, now).Done?
    ensures var o := Cancel(db, stamp, t, lease, now);
      && o.value.state == Cancelled && t in o.db.tasks && o.db.tasks[t] == o.value
      && (forall l: Lease, at :: l.taskId == t ==> !Authoritative(o.db, l, at))
      && t in db.tasks
      && (forall a :: db.tasks[t].active == Some(a) ==> a in o.db.attempts && o.db.attempts[a].state == AttemptCancelled)
  {
    hide Inv, Advance, Authoritative, AllowedTransitions;
    CancelDone(db, stamp, t, lease, now);
    CancelledRunning(db, t, now);
    hide Cancel;
    CancelledForce(Cancel(db, stamp, t, lease, now).db, t);
  }

  lemma CancelDone(db: Db, stamp: Stamp, t: string, lease: Option<Lease>, now: Time)
    requires Cancel(db, stamp, t, lease, now).Done?
    ensures t in db.tasks
    ensures var o := Cancel(db, stamp, t, lease, now);
      && o.value == CancelledRow(db.tasks[t], now)
      && o.db.tasks == db.tasks[t := o.value] && o.db.attempts == CancelledAttempts(db, db.tasks[t], now)
  {
    hide Advance, Authoritative, AllowedTransitions;
    var task := db.tasks[t];
    var row := CancelledRow(task, now);
    AdvanceTables(db, t, row, CancelledAttempts(db, task, now),
      MovedEvent(stamp, t, "task.cancelled", task, Cancelled, "user.cancelled"),
      NewTransition(stamp, t, task.active, Some(task.state), row, "user.cancelled", now));
  }

  lemma CancelledRunning(db: Db, t: string, now: Time)
    requires Inv(db) && t in db.tasks
    ensures forall a :: db.tasks[t].active == Some(a) ==>
      a in CancelledAttempts(db, db.tasks[t], now) && CancelledAttempts(db, db.tasks[t], now)[a].state == AttemptCancelled
  {
    hide HistoryInv, EventsInv, RowsInv;
    if db.tasks[t].active.Some? {
      ActiveAttempt(db, t, db.tasks[t].active.value);
    }
  }

  lemma CancelledForce(db: Db, t: string)
    requires t in db.tasks && db.tasks[t].state == Cancelled
    ensures forall l: Lease, at :: l.taskId == t ==> !Authoritative(db, l, at)
  {
  }

  // ----- what a plain transition allows

  /** A transition can put a task into the running state that no attempt runs: then no lease is in force for it. */
  lemma RunningWithoutAttempt(db: Db, stamp: Stamp, t: string, reason: string, now: Time)
    requires Inv(db) && Fresh(db, stamp) && t in db.tasks && db.tasks[t].active.None?
    requires db.tasks[t].state in {Ready, Waiting, Retrying, Recovering}
    ensures var o := Transition(db, stamp, t, Running, reason, None, now);
      && o.Done? && o.value.state == Running && o.value.active == None
      && forall l: Lease, at :: l.taskId == t ==> !Authoritative(o.db, l, at)
  {
    hide Inv, Fresh, Transition;
    TransitionExact(db, stamp, t, Running, reason, None, now);
  }

  /** A transition can put a task whose budget is spent back into the retrying state, where it can never be claimed. */
  lemma RetryingBeyondBudget(db: Db, stamp: Stamp, t: string, reason: string, now: Time)
    requires Inv(db) && Fresh(db, stamp) && t in db.tasks && db.tasks[t].active.None?
    requires db.tasks[t].state in {Failed, Degraded} && db.tasks[t].attemptsStarted == db.tasks[t].maxAttempts
    ensures var o := Transition(db, stamp, t, Retrying, reason, None, now);
      && o.Done? && o.value.state == Retrying
      && forall at :: !Claimable(o.value, at)
  {
    hide Inv, Fresh, Transition;
    TransitionExact(db, stamp, t, Retrying, reason, None, now);
  }
}
