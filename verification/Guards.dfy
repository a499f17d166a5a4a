/**
 The same results for callers that draw new identifiers: what a step breaks can then be told
 before it is made, from the rows it would find.
 */
module Guards {
  import opened Inputs
  import opened JobInvariants
  import opened PlainMoves
  import opened QueueRuns
  import opened System
  import opened TaskEffects
  import opened TaskInvariants
  import opened Tables
  import opened Wrappers
  import Checkpoints
  import EventLog
  import JobProgress
  import Jobs
  import Refusals
  import Tasks

  /** The identifiers that a step of the task repository or a job's submission draws occur nowhere yet. */
  ghost predicate StampsNew(db: Db, op: Op) {
    match op
    case Move(stamp, _, _, _, _) => Fresh(db, stamp)
    case Cancel(stamp, _, _) => Fresh(db, stamp)
    case Retry(stamp, _) => Fresh(db, stamp)
    case Claim(stamp, a, _, _, _, _) => Fresh(db, stamp) && a !in db.attempts
    case Renew(stamp, _, _) => Fresh(db, stamp)
    case Complete(stamp, _, _, _, _, _, _) => Fresh(db, stamp)
    case SubmitJob(stamp, bound, _, _, _, _, _, _) => Fresh(db, stamp) && Fresh(db, bound) && Apart(stamp, bound)
    case _ => true
  }

  ghost predicate AllStampsNew(db: Db, sha: Checkpoints.Sha, start: Time, steps: seq<Step>)
    requires IsRun(db, sha, start, steps)
    decreases |steps|
  {
    steps == [] ||
    (StampsNew(db, steps[0].op)
     && AllStampsNew(After(db, sha, steps[0].op, steps[0].now), sha, steps[0].now, steps[1..]))
  }

  // ----- running without an attempt, retrying without budget

  predicate MayMove(db: Db, t: string, to: TaskState) {
    t in db.tasks && db.tasks[t].active.None? && to in AllowedTransitions(db.tasks[t].state)
  }

  predicate MovesBadly(db: Db, op: Op, p: Promise) {
    op.Move? && MayMove(db, op.taskId, op.to) && IsBad(db.tasks[op.taskId], op.to, p)
  }

  lemma BreaksExact(db: Db, op: Op, now: Time, p: Promise)
    requires Inv(db) && StampsNew(db, op)
    ensures Breaks(db, op, now, p) <==> MovesBadly(db, op, p)
  {
    hide Inv, Fresh, Tasks.Transition, IsBad;
    if op.Move? {
      TransitionExact(db, op.stamp, op.taskId, op.to, op.reason, op.causation, now);
    }
  }

  ghost predicate NeverMovesBadly(db: Db, sha: Checkpoints.Sha, start: Time, steps: seq<Step>, p: Promise)
    requires IsRun(db, sha, start, steps)
    decreases |steps|
  {
    steps == [] ||
    (!MovesBadly(db, steps[0].op, p)
     && NeverMovesBadly(After(db, sha, steps[0].op, steps[0].now), sha, steps[0].now, steps[1..], p))
  }

  /** A promise holds throughout a run exactly when no transition of it that may be made is a bad one. */
  lemma {:induction false} RunHoldsByGuards(db: Db, sha: Checkpoints.Sha, start: Time, steps: seq<Step>, p: Promise)
    requires Sound(db, sha) && Holds(db, p) && IsRun(db, sha, start, steps) && AllStampsNew(db, sha, start, steps)
    ensures HoldsThroughout(db, sha, start, steps, p) <==> NeverMovesBadly(db, sha, start, steps, p)
    decreases |steps|
  {
    hide Sound, Holds, CanHappen, After, Breaks, MovesBadly, StampsNew, Evolves;
    if steps != [] {
      var next := After(db, sha, steps[0].op, steps[0].now);
      SoundInv(db, sha);
      BreaksExact(db, steps[0].op, steps[0].now, p);
      StepHolds(db, sha, steps[0].op, steps[0].now, p);
      StepSound(db, sha, steps[0].op, steps[0].now);
      if Holds(next, p) {
        RunHoldsByGuards(next, sha, steps[0].now, steps[1..], p);
      } else {
        NotThroughout(next, sha, steps[0].now, steps[1..], p);
      }
    }
  }

  lemma NotThroughout(db: Db, sha: Checkpoints.Sha, start: Time, steps: seq<Step>, p: Promise)
    requires IsRun(db, sha, start, steps) && !Holds(db, p)
    ensures !HoldsThroughout(db, sha, start, steps, p)
  {
    hide Holds, CanHappen, After;
  }

  // ----- the agreement of job table and tasks

  predicate MayCancel(db: Db, t: string, lease: Option<Lease>, now: Time) {
    && t in db.tasks && !Terminal(db.tasks[t].state)
    && (db.tasks[t].active.Some? ==> lease.Some? && Tasks.Authoritative(db, lease.value, now))
  }

  predicate MayRetry(db: Db, t: string) {
    t in db.tasks && db.tasks[t].state == Failed && db.tasks[t].attemptsStarted < db.tasks[t].maxAttempts
  }

  /** The job is new, and its task was submitted before by the same request, without an input, and is no other job's. */
  predicate MayQueueAgain(db: Db, j: string, requestHash: string, maxAttempts: int, reference: Reference) {
    var t := Jobs.TaskIdOf(j);
    && j !in db.jobs && t in db.tasks && t !in db.inputs && !Tasks.IsMapped(db, t)
    && SameRequest(db.tasks[t], Jobs.TaskRequest(j, requestHash, maxAttempts))
    && Checkpoints.InsertReference(db, reference).Done?
  }

  /** The steps that may be made and break the agreement. */
  ghost predicate Disturbs(db: Db, op: Op, now: Time) {
    match op
    case Move(_, t, to, _, _) => Tasks.IsMapped(db, t) && MayMove(db, t, to)
    case Cancel(_, t, lease) => Tasks.IsMapped(db, t) && MayCancel(db, t, lease, now)
    case Retry(_, t) => Tasks.IsMapped(db, t) && MayRetry(db, t)
    case Claim(_, _, t, _, _, _) => Tasks.IsMapped(db, t) && t in db.tasks && Tasks.Claimable(db.tasks[t], now)
    case Renew(_, lease, seconds) =>
      && Tasks.IsMapped(db, lease.taskId) && Tasks.Authoritative(db, lease, now) && Lengthens(db, lease, seconds, now)
      && !Refusals.RenewedAt(db, lease.attemptId, now)
    case Complete(_, lease, _, _, _, _, _) => Tasks.IsMapped(db, lease.taskId) && Tasks.Authoritative(db, lease, now)
    case SubmitJob(_, _, j, hash, _, _, most, reference) =>
      MayQueueAgain(db, j, hash, most, reference) && !Queueable(db.tasks[Jobs.TaskIdOf(j)], now)
    case _ => false
  }

  lemma SubmitAgainExact(db: Db, sha: Checkpoints.Sha, stamp: Stamp, bound: Stamp, j: string, requestHash: string, engine: string,
                         timeout: int, maxAttempts: int, reference: Reference, now: Time)
    requires Consistent(db, sha) && Fresh(db, stamp) && Fresh(db, bound) && Apart(stamp, bound) && Jobs.TaskIdOf(j) in db.tasks
    ensures Jobs.SubmitJob(db, stamp, bound, j, requestHash, engine, timeout, maxAttempts, reference, now).Done?
      <==> MayQueueAgain(db, j, requestHash, maxAttempts, reference)
  {
    hide Sound, Fresh, Projected, Checkpoints.CreateTask, Checkpoints.InsertReference, Tasks.IsMapped, SameRequest, Jobs.TaskIdOf, Evolves;
    var start := db.(jobs := db.jobs[j := Jobs.NewJob(engine, timeout, maxAttempts, now)]);
    var r := Jobs.TaskRequest(j, requestHash, maxAttempts);
    JobsApart(db, start, sha);
    JobProgress.SameFresh(db, start);
    SameInsertion(db, start, reference);
    CreateSucceeds(start, sha, stamp, bound, r, reference, now);
    CreateKeeps(start, sha, stamp, bound, r, reference, now);
    var created := Commit(start, Checkpoints.CreateTask(start, stamp, bound, r, reference, now));
    SameMapped(db, created, Jobs.TaskIdOf(j));
    if j in db.mappings {
      ProjectionOf(db, j);
    }
  }

  lemma SameMapped(db: Db, after: Db, t: string)
    requires after.mappings == db.mappings
    ensures Tasks.IsMapped(after, t) <==> Tasks.IsMapped(db, t)
  {
  }

  lemma TaskRespectsExact(db: Db, op: Op, now: Time)
    requires Inv(db) && StampsNew(db, op)
    requires op.Move? || op.Cancel? || op.Retry? || op.Claim? || op.Renew? || op.Complete?
    ensures Respects(db, op, now) <==> !Disturbs(db, op, now)
  {
    hide Inv, Fresh, Tasks.IsMapped, Tasks.Transition, Tasks.Cancel, Tasks.Retry, Tasks.Claim, Tasks.Renew, Tasks.Complete,
      Tasks.Authoritative, Tasks.Claimable, AllowedTransitions, Terminal, Lengthens, Advanced, EventLog.KeyUsed;
    match op {
      case Move(stamp, t, to, reason, causation) => TransitionExact(db, stamp, t, to, reason, causation, now);
      case Cancel(stamp, t, lease) => CancelExact(db, stamp, t, lease, now);
      case Retry(stamp, t) => RetryExact(db, stamp, t, now);
      case Claim(stamp, a, t, plan, owner, seconds) => ClaimExact(db, stamp, a, t, plan, owner, seconds, now);
      case Renew(stamp, lease, seconds) => RenewExact(db, stamp, lease, seconds, now);
      case Complete(stamp, lease, success, outcome, error, retryable, retryAt) =>
        CompleteExact(db, stamp, lease, success, outcome, error, retryable, retryAt, now);
    }
  }

  lemma SubmitJobRespectsExact(db: Db, sha: Checkpoints.Sha, op: Op, now: Time)
    requires Consistent(db, sha) && StampsNew(db, op) && op.SubmitJob?
    ensures Respects(db, op, now) <==> !Disturbs(db, op, now)
  {
    hide Consistent, Fresh, Apart, Jobs.SubmitJob, Jobs.TaskIdOf, Queueable, MayQueueAgain;
    var j := op.jobId;
    if Jobs.TaskIdOf(j) in db.tasks {
      SubmitAgainExact(db, sha, op.stamp, op.bound, j, op.requestHash, op.engine, op.timeout, op.maxAttempts, op.reference, now);
    } else {
      NotAgain(db, j, op.requestHash, op.maxAttempts, op.reference);
    }
  }

  /** With new identifiers, the steps that break the agreement are told by the rows they find. */
  lemma RespectsExact(db: Db, sha: Checkpoints.Sha, op: Op, now: Time)
    requires Consistent(db, sha) && StampsNew(db, op)
    ensures Respects(db, op, now) <==> !Disturbs(db, op, now)
  {
    if op.Move? || op.Cancel? || op.Retry? || op.Claim? || op.Renew? || op.Complete? {
      hide Sound, ProjectionInv, StampsNew, Respects, Disturbs;
      SoundInv(db, sha);
      TaskRespectsExact(db, op, now);
    } else if op.SubmitJob? {
      hide Consistent, StampsNew, Respects, Disturbs;
      SubmitJobRespectsExact(db, sha, op, now);
    }
  }

  lemma NotAgain(db: Db, j: string, requestHash: string, maxAttempts: int, reference: Reference)
    requires Jobs.TaskIdOf(j) !in db.tasks
    ensures !MayQueueAgain(db, j, requestHash, maxAttempts, reference)
  {
  }

  ghost predicate NeverDisturbs(db: Db, sha: Checkpoints.Sha, start: Time, steps: seq<Step>)
    requires IsRun(db, sha, start, steps)
    decreases |steps|
  {
    steps == [] ||
    (!Disturbs(db, steps[0].op, steps[0].now)
     && NeverDisturbs(After(db, sha, steps[0].op, steps[0].now), sha, steps[0].now, steps[1..]))
  }

  /** The job table matches the tasks throughout a run exactly when the run never makes a step that disturbs them. */
  lemma {:induction false} RunConsistentByGuards(db: Db, sha: Checkpoints.Sha, start: Time, steps: seq<Step>)
    requires Consistent(db, sha) && IsRun(db, sha, start, steps) && AllStampsNew(db, sha, start, steps)
    ensures ConsistentThroughout(db, sha, start, steps) <==> NeverDisturbs(db, sha, start, steps)
    decreases |steps|
  {
    hide Consistent, CanHappen, After, Respects, Disturbs, StampsNew;
    if steps != [] {
      var next := After(db, sha, steps[0].op, steps[0].now);
      RespectsExact(db, sha, steps[0].op, steps[0].now);
      StepConsistent(db, sha, steps[0].op, steps[0].now);
      if Consistent(next, sha) {
        RunConsistentByGuards(next, sha, steps[0].now, steps[1..]);
      } else {
        NotConsistent(next, sha, steps[0].now, steps[1..]);
      }
    }
  }

  lemma NotConsistent(db: Db, sha: Checkpoints.Sha, start: Time, steps: seq<Step>)
    requires IsRun(db, sha, start, steps) && !Consistent(db, sha)
    ensures !ConsistentThroughout(db, sha, start, steps)
  {
    hide Consistent, CanHappen, After;
  }
}
