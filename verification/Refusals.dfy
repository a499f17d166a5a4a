/**
 Why a step of the task repository can fail, in any state a run reaches, when the
 identifiers it draws are new: never because of an event, with one exception.
 */
module Refusals {
  import opened EventLog
  import opened System
  import opened TaskEffects
  import opened TaskInvariants
  import opened Tables
  import opened Wrappers
  import Keys
  import Recovery
  import Tasks

  predicate IsTaskOp(op: Op) {
    op.Submit? || op.Move? || op.Cancel? || op.Retry? || op.Claim? || op.Renew? || op.Complete? || op.Recover?
  }

  function ErrorOf<V>(o: Outcome<V>): Option<Error> {
    match o
    case Done(_, _) => None
    case Raised(e) => Some(e)
  }

  function Refusal(db: Db, op: Op, now: Time): Option<Error>
    requires IsTaskOp(op) && (op.Recover? ==> |op.stamps| == |op.rows|)
  {
    match op
    case Submit(stamp, r) => ErrorOf(Tasks.Submit(db, stamp, r, now))
    case Move(stamp, t, to, reason, causation) => ErrorOf(Tasks.Transition(db, stamp, t, to, reason, causation, now))
    case Cancel(stamp, t, lease) => ErrorOf(Tasks.Cancel(db, stamp, t, lease, now))
    case Retry(stamp, t) => ErrorOf(Tasks.Retry(db, stamp, t, now))
    case Claim(stamp, a, t, plan, owner, seconds) => ErrorOf(Tasks.Claim(db, stamp, a, t, plan, owner, seconds, now))
    case Renew(stamp, lease, seconds) => ErrorOf(Tasks.Renew(db, stamp, lease, seconds, now))
    case Complete(stamp, lease, success, outcome, error, retryable, retryAt) =>
      ErrorOf(Tasks.Complete(db, stamp, lease, success, outcome, error, retryable, retryAt, now))
    case Recover(stamps, rows) => ErrorOf(Tasks.Recover(db, stamps, rows, now))
  }

  /** The identifiers drawn for the step occur nowhere yet. */
  ghost predicate DrawsNew(db: Db, op: Op)
    requires IsTaskOp(op)
  {
    match op
    case Recover(stamps, _) => Recovery.AllFresh(db, stamps)
    case Claim(stamp, a, _, _, _, _) => Fresh(db, stamp) && a !in db.attempts
    case _ => Fresh(db, op.stamp)
  }

  /** The key of a renewal at this time is in the log. */
  ghost predicate RenewedAt(db: Db, a: string, now: Time) {
    KeyUsed(db.events, Tasks.SOURCE, Keys.Render(Keys.Renewed(a, Truncate(now * 1000.0))))
  }

  /** A refusal comes from the guards that the operation documents. */
  ghost predicate IsGuard(db: Db, op: Op, e: Error, now: Time)
    requires IsTaskOp(op)
  {
    match op
    case Submit(_, r) =>
      e == IdempotencyConflict || (e == IntegrityError && r.idempotencyKey == Some("") && Tasks.KeyTaken(db.tasks, Some("")))
    case Move(_, _, _, _, _) => e in {UnknownTask, InvalidTransition}
    case Cancel(_, _, _) => e in {UnknownTask, InvalidTransition, StaleLease}
    case Retry(_, _) => e in {UnknownTask, InvalidTransition}
    case Claim(_, _, _, _, _, _) => e in {UnknownTask, InvalidTransition}
    case Renew(_, lease, _) => e == StaleLease || (e == EventConflict && RenewedAt(db, lease.attemptId, now))
    case Complete(_, _, _, _, _, _, _) => e == StaleLease
    case Recover(_, _) => false
  }

  /** Whatever has happened before, a step fails only by its own guards; only a renewal can meet an event in its way. */
  lemma OnlyGuards(db: Db, op: Op, now: Time)
    requires Inv(db) && IsTaskOp(op) && CanHappen(db, op, now) && DrawsNew(db, op)
    ensures Refusal(db, op, now).Some? ==> IsGuard(db, op, Refusal(db, op, now).value, now)
    ensures Refusal(db, op, now) == Some(EventConflict) <==>
      op.Renew? && Tasks.Authoritative(db, op.lease, now) && RenewedAt(db, op.lease.attemptId, now)
  {
    hide Inv, Fresh, Advanced, Tasks.Submit, Tasks.Transition, Tasks.Cancel, Tasks.Retry, Tasks.Claim, Tasks.Renew, Tasks.Complete,
      Tasks.Recover, Tasks.Authoritative, Tasks.KeyTaken, Recovery.AllFresh, Recovery.Expirable, Recovery.SweptTasks,
      Recovery.SweptAttempts, KeyUsed;
    match op {
      case Submit(stamp, r) => SubmitExact(db, stamp, r, now);
      case Move(stamp, t, to, reason, causation) => TransitionExact(db, stamp, t, to, reason, causation, now);
      case Cancel(stamp, t, lease) => CancelExact(db, stamp, t, lease, now);
      case Retry(stamp, t) => RetryExact(db, stamp, t, now);
      case Claim(stamp, a, t, plan, owner, seconds) => ClaimExact(db, stamp, a, t, plan, owner, seconds, now);
      case Renew(stamp, lease, seconds) => RenewExact(db, stamp, lease, seconds, now);
      case Complete(stamp, lease, success, outcome, error, retryable, retryAt) =>
        CompleteExact(db, stamp, lease, success, outcome, error, retryable, retryAt, now);
      case Recover(stamps, rows) => Recovery.RecoverExact(db, stamps, rows, now);
    }
  }

  /** A second renewal of an attempt within one millisecond conflicts with the first, whatever happens in between. */
  lemma RenewTwice(db: Db, stamp: Stamp, lease: Lease, leaseSeconds: int, at: Time, later: Db, again: Stamp, other: Lease,
                   seconds: int, now: Time)
    requires Inv(db) && Fresh(db, stamp) && Tasks.Renew(db, stamp, lease, leaseSeconds, at).Done?
    requires Inv(later) && Tasks.Renew(db, stamp, lease, leaseSeconds, at).db.events <= later.events && Fresh(later, again)
    requires other.attemptId == lease.attemptId && Tasks.Authoritative(later, other, now)
    requires Truncate(now * 1000.0) == Truncate(at * 1000.0)
    ensures Tasks.Renew(later, again, other, seconds, now) == Raised(EventConflict)
  {
    hide Inv, Fresh, Tasks.Authoritative, Tasks.Renew;
    RenewExact(db, stamp, lease, leaseSeconds, at);
    RenewExact(later, again, other, seconds, now);
    var i := |db.events|;
    assert later.events[i] == Tasks.RenewedEvent(stamp, lease, at);
  }
}
