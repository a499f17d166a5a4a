/** What a lease is worth: at most one is in force for a task, and one that lapses never comes back. */
module Leases {
  import opened TaskEffects
  import opened TaskInvariants
  import opened Tables
  import opened Tasks
  import opened Wrappers
  import Checkpoints
  import Jobs

  /** The lease of an attempt as `claim` hands it out. */
  predicate Issued(db: Db, lease: Lease) {
    && lease.attemptId in db.attempts
    && var attempt := db.attempts[lease.attemptId];
    && attempt.taskId == lease.taskId && attempt.number == lease.number && attempt.fence == lease.fence
    && attempt.owner == lease.owner && attempt.plan == lease.plan
  }

  /** A claim hands out a lease that is in force. */
  lemma ClaimIssues(db: Db, stamp: Stamp, a: string, t: string, plan: Plan, owner: string, leaseSeconds: int, now: Time)
    requires Inv(db) && Claim(db, stamp, a, t, plan, owner, leaseSeconds, now).Done?
    ensures var o := Claim(db, stamp, a, t, plan, owner, leaseSeconds, now);
      Issued(o.db, o.value) && Authoritative(o.db, o.value, now)
  {
    hide Inv;
  }

  /** For an issued lease the many checks come down to two: the attempt runs, and its time is not up. */
  lemma AuthorityExact(db: Db, lease: Lease, now: Time)
    requires Inv(db) && Issued(db, lease)
    ensures Authoritative(db, lease, now) <==>
      db.attempts[lease.attemptId].state == AttemptRunning && now <= db.attempts[lease.attemptId].leaseUntil
  {
    hide HistoryInv, EventsInv, RowsInv;
    var attempt := db.attempts[lease.attemptId];
    assert AttemptOk(lease.attemptId, attempt, db.tasks[lease.taskId]);
    if attempt.state == AttemptRunning {
      ActiveAttempt(db, lease.taskId, lease.attemptId);
    }
  }

  /** Any lease, also one that was made up, is in force exactly if it names a running attempt with its task, owner and fence. */
  lemma AuthorityOfAny(db: Db, lease: Lease, now: Time)
    requires Inv(db)
    ensures Authoritative(db, lease, now) <==>
      && lease.attemptId in db.attempts
      && var attempt := db.attempts[lease.attemptId];
      && attempt.state == AttemptRunning && now <= attempt.leaseUntil
      && attempt.taskId == lease.taskId && attempt.owner == lease.owner && attempt.fence == lease.fence
  {
    hide HistoryInv, EventsInv, RowsInv;
    if lease.attemptId in db.attempts {
      var attempt := db.attempts[lease.attemptId];
      assert AttemptOk(lease.attemptId, attempt, db.tasks[attempt.taskId]);
      if attempt.state == AttemptRunning {
        ActiveAttempt(db, attempt.taskId, lease.attemptId);
      }
      if Authoritative(db, lease, now) {
        ActiveAttempt(db, lease.taskId, lease.attemptId);
      }
    }
  }

  /** The lease of a claim is in force for the time that was asked for, at least a second, and no longer. */
  lemma ClaimLasts(db: Db, stamp: Stamp, a: string, t: string, plan: Plan, owner: string, leaseSeconds: int, now: Time, at: Time)
    requires Inv(db) && Claim(db, stamp, a, t, plan, owner, leaseSeconds, now).Done?
    ensures var o, until := Claim(db, stamp, a, t, plan, owner, leaseSeconds, now), now + Max(1, leaseSeconds) as real;
      && o.value.leaseUntil == until && a in o.db.attempts && o.db.attempts[a].leaseUntil == until
      && (Authoritative(o.db, o.value, at) <==> at <= until)
  {
    hide Inv;
  }

  /** A lease that is not in force is not in force after any step, at any later time. */
  lemma DeadStaysDead(db: Db, after: Db, lease: Lease, now: Time, at: Time, later: Time)
    requires Inv(db) && Inv(after) && Evolves(db, after, at) && now <= at <= later
    requires lease.attemptId in db.attempts && !Authoritative(db, lease, now)
    ensures lease.attemptId in after.attempts && !Authoritative(after, lease, later)
  {
    hide HistoryInv, EventsInv, RowsInv;
    var a := lease.attemptId;
    assert AttemptEvolves(db.attempts[a], after.attempts[a], at);
    if Authoritative(after, lease, later) {
      ActiveAttempt(after, lease.taskId, a);
      var attempt := db.attempts[a];
      assert attempt.state == AttemptRunning && attempt.leaseUntil >= now;
      assert AttemptOk(a, attempt, db.tasks[attempt.taskId]);
      ActiveAttempt(db, attempt.taskId, a);
    }
  }

  /** Nothing can be done under a lease that is not in force, and nothing changes by trying. */
  lemma DeadLeaseRejected(db: Db, lease: Lease, now: Time)
    requires !Authoritative(db, lease, now)
    ensures forall stamp, success, outcomeHash, errorCode, retryable, retryAt ::
      Complete(db, stamp, lease, success, outcomeHash, errorCode, retryable, retryAt, now) == Raised(StaleLease)
    ensures forall stamp, leaseSeconds :: Renew(db, stamp, lease, leaseSeconds, now) == Raised(StaleLease)
    ensures forall sha, stamp, reference, step, versions, resumable ::
      Checkpoints.MakeCheckpoint(db, sha, stamp, lease, reference, step, versions, resumable, now) ==
        Raised(if step == "" || |step| > 256 then InvalidPayload else StaleLease)
    ensures forall stamp, j, claimed, attempt, result ::
      Jobs.FinishJob(db, stamp, j, claimed, attempt, lease, result, now) == Raised(StaleLease)
  {
    hide Authoritative;
  }

  // ----- cancellation under a lease

  /** The lease that a cancellation is given need not be the lease of the task it cancels. */
  lemma CancelForeign(db: Db, stamp: Stamp, t: string, a: string, lease: Lease, now: Time)
    requires Inv(db) && Fresh(db, stamp) && t in db.tasks && db.tasks[t].active == Some(a)
    requires Authoritative(db, lease, now) && lease.taskId != t
    ensures var o := Cancel(db, stamp, t, Some(lease), now);
      && o.Done? && o.value.state == Cancelled
      && a in o.db.attempts && o.db.attempts[a].state == AttemptCancelled && lease.attemptId != a
  {
    hide Fresh, HistoryInv, EventsInv, RowsInv, Cancel;
    ActiveAttempt(db, t, a);
    ActiveAttempt(db, lease.taskId, lease.attemptId);
    hide FencingInv;
    CancelExact(db, stamp, t, Some(lease), now);
  }

  /** A running task is cancelled by its own lease exactly when the lease names that task. */
  lemma CancelOwn(db: Db, stamp: Stamp, t: string, lease: Lease, now: Time)
    requires Inv(db) && t in db.tasks && db.tasks[t].active.Some? && Cancel(db, stamp, t, Some(lease), now).Done?
    ensures db.tasks[t].active == Some(lease.attemptId) && db.tasks[t].currentFence == lease.fence <==> lease.taskId == t
  {
    hide HistoryInv, EventsInv, RowsInv, Advance;
    ActiveAttempt(db, lease.taskId, lease.attemptId);
    ActiveAttempt(db, t, db.tasks[t].active.value);
  }
}
