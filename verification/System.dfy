/**
 Whole runs: any number of workers, operators and publishers, each of whose transactions is
 one step, interleaved in any order and crashing between any two steps, under a clock that
 does not go back.
 */
module System {
  import opened Inputs
  import opened JobInvariants
  import opened TaskInvariants
  import opened Tables
  import opened Wrappers
  import CheckpointInvariants
  import Checkpoints
  import EventLog
  import JobSoundness
  import JobSteps
  import Jobs
  import Json
  import Leases
  import Recovery
  import Replay
  import Tasks

  datatype Op =
    | Submit(stamp: Stamp, request: Tasks.Request)
    | Move(stamp: Stamp, taskId: string, to: TaskState, reason: string, causation: Option<string>)
    | Cancel(stamp: Stamp, taskId: string, given: Option<Lease>)
    | Retry(stamp: Stamp, taskId: string)
    | Claim(stamp: Stamp, attemptId: string, taskId: string, plan: Plan, owner: string, leaseSeconds: int)
    | Renew(stamp: Stamp, lease: Lease, leaseSeconds: int)
    | Complete(stamp: Stamp, lease: Lease, success: bool, outcomeHash: string, errorCode: Option<string>,
               retryable: bool, retryAt: Option<Time>)
    | Recover(stamps: seq<Stamp>, rows: seq<string>)
    | Create(stamp: Stamp, bound: Stamp, request: Tasks.Request, reference: Reference)
    | Put(stored: StoredObject)
    | Checkpoint(stamp: Stamp, lease: Lease, reference: Reference, step: string, versions: map<string, Json.Json>, resumable: bool)
    | SubmitJob(stamp: Stamp, bound: Stamp, jobId: string, requestHash: string, engine: string, timeout: int,
                maxAttempts: int, reference: Reference)
    | RecoverStale(stamps: seq<Stamp>, rows: seq<string>)
    | ClaimJob(ids: Jobs.ClaimIds, jobId: string, owner: string, leaseSeconds: int)
    | FinishJob(stamp: Stamp, jobId: string, claimed: Job, attempt: nat, lease: Lease, result: Jobs.WorkResult)
    | CancelJob(stamp: Stamp, jobId: string)
    | RetryJob(stamp: Stamp, jobId: string, later: Time)
    | DeleteJob(jobId: string)
    | Publish(event: Event)
    | Acknowledge(consumer: string, through: int)

  /**
   What the program itself guarantees of a step: its queries answer from the database, a
   checkpoint's object is stored before its transaction, and no other publisher signs with
   the name of one of the repositories.
   */
  ghost predicate CanHappen(db: Db, op: Op, now: Time) {
    match op
    case Recover(stamps, rows) => |stamps| == |rows| && Recovery.Expirable(db, rows, now)
    case RecoverStale(stamps, rows) => |stamps| == |rows| && JobSteps.AllStale(db, rows, now)
    case Checkpoint(_, lease, reference, _, _, _) =>
      Checkpoints.Authenticates(db, reference, CheckpointOf(lease.taskId, lease.attemptId, lease.fence))
    case ClaimJob(_, j, _, _) => Jobs.IsNextJob(db, Some(j), now)
    case RetryJob(_, _, later) => now <= later
    case Publish(e) => e.source !in {Tasks.SOURCE, Checkpoints.SOURCE, Jobs.SOURCE}
    case _ => true
  }

  ghost function After(db: Db, sha: Checkpoints.Sha, op: Op, now: Time): Db
    requires CanHappen(db, op, now)
  {
    match op
    case Submit(stamp, r) => Commit(db, Tasks.Submit(db, stamp, r, now))
    case Move(stamp, t, to, reason, causation) => Commit(db, Tasks.Transition(db, stamp, t, to, reason, causation, now))
    case Cancel(stamp, t, lease) => Commit(db, Tasks.Cancel(db, stamp, t, lease, now))
    case Retry(stamp, t) => Commit(db, Tasks.Retry(db, stamp, t, now))
    case Claim(stamp, a, t, plan, owner, seconds) => Commit(db, Tasks.Claim(db, stamp, a, t, plan, owner, seconds, now))
    case Renew(stamp, lease, seconds) => Commit(db, Tasks.Renew(db, stamp, lease, seconds, now))
    case Complete(stamp, lease, success, outcome, error, retryable, retryAt) =>
      Commit(db, Tasks.Complete(db, stamp, lease, success, outcome, error, retryable, retryAt, now))
    case Recover(stamps, rows) => Commit(db, Tasks.Recover(db, stamps, rows, now))
    case Create(stamp, bound, r, reference) => Commit(db, Checkpoints.CreateTask(db, stamp, bound, r, reference, now))
    case Put(stored) => Commit(db, Checkpoints.Put(db, stored))
    case Checkpoint(stamp, lease, reference, step, versions, resumable) =>
      Commit(db, Checkpoints.MakeCheckpoint(db, sha, stamp, lease, reference, step, versions, resumable, now))
    case SubmitJob(stamp, bound, j, hash, engine, timeout, most, reference) =>
      Commit(db, Jobs.SubmitJob(db, stamp, bound, j, hash, engine, timeout, most, reference, now))
    case RecoverStale(stamps, rows) => Commit(db, Jobs.RecoverStale(db, stamps, rows, now))
    case ClaimJob(ids, j, owner, seconds) => Commit(db, Jobs.ClaimJob(db, ids, j, owner, seconds, now))
    case FinishJob(stamp, j, claimed, attempt, lease, result) =>
      Commit(db, Jobs.FinishJob(db, stamp, j, claimed, attempt, lease, result, now))
    case CancelJob(stamp, j) => Commit(db, Jobs.CancelJob(db, stamp, j, now))
    case RetryJob(stamp, j, later) => Commit(db, Jobs.RetryJob(db, stamp, j, now, later))
    case DeleteJob(j) => Jobs.DeleteJob(db, j)
    case Publish(e) => Commit(db, EventLog.Append(db, e))
    case Acknowledge(consumer, through) => Commit(db, EventLog.Ack(db, consumer, through))
  }

  // ----- every step keeps the kernel's invariants

  lemma PutSound(db: Db, sha: Checkpoints.Sha, stored: StoredObject, now: Time)
    requires Sound(db, sha)
    ensures var after := Commit(db, Checkpoints.Put(db, stored)); Sound(after, sha) && Evolves(db, after, now)
  {
    hide Inv, CheckpointInvariants.CheckpointInv, BindingInv, Evolves;
    PutEvolves(db, stored, now);
    SameInv(db, Commit(db, Checkpoints.Put(db, stored)));
    SoundFrame(db, Commit(db, Checkpoints.Put(db, stored)), sha, now);
  }

  lemma PutEvolves(db: Db, stored: StoredObject, now: Time)
    ensures Evolves(db, Commit(db, Checkpoints.Put(db, stored)), now)
  {
  }

  lemma SameInv(db: Db, after: Db)
    requires Inv(db) && after.tasks == db.tasks && after.attempts == db.attempts
    requires after.transitions == db.transitions && after.events == db.events
    ensures Inv(after)
  {
    hide FencingInv, HistoryInv, EventsInv, RowsInv;
  }

  lemma AckSound(db: Db, sha: Checkpoints.Sha, consumer: string, through: int, now: Time)
    requires Sound(db, sha)
    ensures var after := Commit(db, EventLog.Ack(db, consumer, through)); Sound(after, sha) && Evolves(db, after, now)
  {
    hide Inv, CheckpointInvariants.CheckpointInv, BindingInv, Evolves, EventLog.Ack;
    AckEvolves(db, consumer, through, now);
    AckOnly(db, consumer, through);
    SameInv(db, Commit(db, EventLog.Ack(db, consumer, through)));
    SoundFrame(db, Commit(db, EventLog.Ack(db, consumer, through)), sha, now);
  }

  lemma AckOnly(db: Db, consumer: string, through: int)
    ensures var after := Commit(db, EventLog.Ack(db, consumer, through)); after == db.(cursors := after.cursors)
  {
    hide EventLog.Blank;
  }

  lemma AckEvolves(db: Db, consumer: string, through: int, now: Time)
    ensures Evolves(db, Commit(db, EventLog.Ack(db, consumer, through)), now)
  {
    hide EventLog.Blank;
    BindEvolves(db, db, "", now);
  }

  lemma PublishSound(db: Db, sha: Checkpoints.Sha, e: Event, now: Time)
    requires Sound(db, sha) && e.source !in {Tasks.SOURCE, Checkpoints.SOURCE}
    ensures var after := Commit(db, EventLog.Append(db, e)); Sound(after, sha) && Evolves(db, after, now)
  {
    hide Sound, Evolves, EventLog.AppendTo;
    JobSoundness.JobsOnly(db, db, sha, now);
    if EventLog.Append(db, e).Done? {
      JobSteps.LogSound(db, EventLog.Append(db, e).db, sha, e, now);
    }
  }

  lemma RecoverSound(db: Db, sha: Checkpoints.Sha, stamps: seq<Stamp>, rows: seq<string>, now: Time)
    requires Sound(db, sha) && |stamps| == |rows| && Recovery.Expirable(db, rows, now)
    ensures var after := Commit(db, Tasks.Recover(db, stamps, rows, now)); Sound(after, sha) && Evolves(db, after, now)
  {
    hide Inv, CheckpointInvariants.CheckpointInv, BindingInv, Evolves, Tasks.Recover, Recovery.Expirable;
    Recovery.RecoverKeeps(db, stamps, rows, now);
    SoundFrame(db, Commit(db, Tasks.Recover(db, stamps, rows, now)), sha, now);
  }

  lemma CheckpointSound(db: Db, sha: Checkpoints.Sha, stamp: Stamp, lease: Lease, reference: Reference, step: string,
                        versions: map<string, Json.Json>, resumable: bool, now: Time)
    requires Sound(db, sha)
    requires Checkpoints.Authenticates(db, reference, CheckpointOf(lease.taskId, lease.attemptId, lease.fence))
    ensures var after := Commit(db, Checkpoints.MakeCheckpoint(db, sha, stamp, lease, reference, step, versions, resumable, now));
      Sound(after, sha) && Evolves(db, after, now)
  {
    hide Inv, CheckpointInvariants.CheckpointInv, BindingInv, Evolves, Checkpoints.MakeCheckpoint, Checkpoints.Authenticates;
    CheckpointInvariants.CheckpointKeeps(db, sha, stamp, lease, reference, step, versions, resumable, now);
    BindingFrame(db, Commit(db, Checkpoints.MakeCheckpoint(db, sha, stamp, lease, reference, step, versions, resumable, now)), now);
  }

  /** The steps of the task repository. */
  lemma TaskStepSound(db: Db, sha: Checkpoints.Sha, op: Op, now: Time)
    requires Sound(db, sha) && CanHappen(db, op, now)
    requires op.Submit? || op.Move? || op.Cancel? || op.Retry? || op.Claim? || op.Renew? || op.Complete?
    ensures Sound(After(db, sha, op, now), sha) && Evolves(db, After(db, sha, op, now), now)
  {
    hide Sound, Evolves, Kept, Tasks.Submit, Tasks.Transition, Tasks.Cancel, Tasks.Retry, Tasks.Claim, Tasks.Renew, Tasks.Complete;
    SoundInv(db, sha);
    match op {
      case Submit(stamp, r) =>
        SubmitKeeps(db, stamp, r, now);
        KeptSound(db, After(db, sha, op, now), sha, r.taskId, now);
      case Move(stamp, t, to, reason, causation) =>
        TransitionKeeps(db, stamp, t, to, reason, causation, now);
        KeptSound(db, After(db, sha, op, now), sha, t, now);
      case Cancel(stamp, t, lease) =>
        CancelKeeps(db, stamp, t, lease, now);
        KeptSound(db, After(db, sha, op, now), sha, t, now);
      case Retry(stamp, t) =>
        RetryKeeps(db, stamp, t, now);
        KeptSound(db, After(db, sha, op, now), sha, t, now);
      case Claim(stamp, a, t, plan, owner, seconds) =>
        ClaimKeeps(db, stamp, a, t, plan, owner, seconds, now);
        KeptSound(db, After(db, sha, op, now), sha, t, now);
      case Renew(stamp, lease, seconds) =>
        RenewKeeps(db, stamp, lease, seconds, now);
        KeptSound(db, After(db, sha, op, now), sha, lease.taskId, now);
      case Complete(stamp, lease, success, outcome, error, retryable, retryAt) =>
        CompleteKeeps(db, stamp, lease, success, outcome, error, retryable, retryAt, now);
        KeptSound(db, After(db, sha, op, now), sha, lease.taskId, now);
    }
  }

  lemma SoundInv(db: Db, sha: Checkpoints.Sha)
    requires Sound(db, sha)
    ensures Inv(db)
  {
    hide Inv, CheckpointInvariants.CheckpointInv, BindingInv;
  }

  /** Every step keeps every invariant of the kernel, also steps that go round the job queue. */
  lemma StepSound(db: Db, sha: Checkpoints.Sha, op: Op, now: Time)
    requires Sound(db, sha) && CanHappen(db, op, now)
    ensures Sound(After(db, sha, op, now), sha) && Evolves(db, After(db, sha, op, now), now)
  {
    hide Sound, Evolves, Tasks.Recover, Checkpoints.Put, Checkpoints.CreateTask, Checkpoints.MakeCheckpoint, Jobs.SubmitJob, Jobs.RecoverStale,
      Jobs.ClaimJob, Jobs.FinishJob, Jobs.CancelJob, Jobs.RetryJob, Jobs.DeleteJob, EventLog.Append, EventLog.Ack,
      Recovery.Expirable, JobSteps.AllStale, Tasks.Submit, Tasks.Transition, Tasks.Cancel, Tasks.Retry, Tasks.Claim, Tasks.Renew,
      Tasks.Complete, Checkpoints.Authenticates;
    match op {
      case Recover(stamps, rows) => RecoverSound(db, sha, stamps, rows, now);
      case Create(stamp, bound, r, reference) => CreateKeeps(db, sha, stamp, bound, r, reference, now);
      case Put(stored) => PutSound(db, sha, stored, now);
      case Checkpoint(stamp, lease, reference, step, versions, resumable) =>
        CheckpointSound(db, sha, stamp, lease, reference, step, versions, resumable, now);
      case SubmitJob(stamp, bound, j, hash, engine, timeout, most, reference) =>
        JobSoundness.SubmitJobSound(db, sha, stamp, bound, j, hash, engine, timeout, most, reference, now);
      case RecoverStale(stamps, rows) => JobSoundness.RecoverStaleSound(db, sha, stamps, rows, now);
      case ClaimJob(ids, j, owner, seconds) => JobSoundness.ClaimJobSound(db, sha, ids, j, owner, seconds, now);
      case FinishJob(stamp, j, claimed, attempt, lease, result) =>
        JobSoundness.FinishJobSound(db, sha, stamp, j, claimed, attempt, lease, result, now);
      case CancelJob(stamp, j) => JobSoundness.CancelJobSound(db, sha, stamp, j, now);
      case RetryJob(stamp, j, later) => JobSoundness.RetryJobSound(db, sha, stamp, j, now, later);
      case DeleteJob(j) => DeleteSound(db, sha, j, now);
      case Publish(e) => PublishSound(db, sha, e, now);
      case Acknowledge(consumer, through) => AckSound(db, sha, consumer, through, now);
      case _ => TaskStepSound(db, sha, op, now);
    }
  }

  lemma DeleteSound(db: Db, sha: Checkpoints.Sha, j: string, now: Time)
    requires Sound(db, sha)
    ensures Sound(Jobs.DeleteJob(db, j), sha) && Evolves(db, Jobs.DeleteJob(db, j), now)
  {
    hide Sound, Evolves;
    JobSoundness.JobsOnly(db, Jobs.DeleteJob(db, j), sha, now);
  }

  // ----- runs

  datatype Step = Step(op: Op, now: Time)

  /** The steps can happen one after the other from this database, at times that do not go back. */
  ghost predicate IsRun(db: Db, sha: Checkpoints.Sha, start: Time, steps: seq<Step>)
    decreases |steps|
  {
    steps == [] ||
    (start <= steps[0].now && CanHappen(db, steps[0].op, steps[0].now)
     && IsRun(After(db, sha, steps[0].op, steps[0].now), sha, steps[0].now, steps[1..]))
  }

  ghost function Final(db: Db, sha: Checkpoints.Sha, start: Time, steps: seq<Step>): Db
    requires IsRun(db, sha, start, steps)
    decreases |steps|
  {
    if steps == [] then db
    else Final(After(db, sha, steps[0].op, steps[0].now), sha, steps[0].now, steps[1..])
  }

  function EndTime(start: Time, steps: seq<Step>): Time {
    if steps == [] then start else steps[|steps| - 1].now
  }

  /** A database in which nothing has happened yet, but for jobs of an earlier version of the program. */
  predicate IsInitial(db: Db) {
    db == EMPTY.(jobs := db.jobs)
  }

  lemma InitialConsistent(db: Db, sha: Checkpoints.Sha)
    requires IsInitial(db)
    ensures Consistent(db, sha) && Replay.CursorInv(db)
  {
  }

  /** A step and a run from where it leads are a run. */
  lemma RunStarts(db: Db, sha: Checkpoints.Sha, start: Time, step: Step, rest: seq<Step>)
    requires start <= step.now && CanHappen(db, step.op, step.now)
    requires IsRun(After(db, sha, step.op, step.now), sha, step.now, rest)
    ensures IsRun(db, sha, start, [step] + rest)
    ensures Final(db, sha, start, [step] + rest) == Final(After(db, sha, step.op, step.now), sha, step.now, rest)
  {
    hide CanHappen, After;
    assert ([step] + rest)[1..] == rest;
  }

  /** Every database that a run reaches keeps every invariant of the kernel. */
  lemma {:induction false} RunSound(db: Db, sha: Checkpoints.Sha, start: Time, steps: seq<Step>)
    requires Sound(db, sha) && IsRun(db, sha, start, steps)
    ensures Sound(Final(db, sha, start, steps), sha)
    decreases |steps|
  {
    hide Sound, CanHappen, After;
    if steps != [] {
      StepSound(db, sha, steps[0].op, steps[0].now);
      RunSound(After(db, sha, steps[0].op, steps[0].now), sha, steps[0].now, steps[1..]);
    }
  }

  // ----- what no run undoes

  /** What stays of a database, whatever happens after. */
  ghost predicate Persists(db: Db, after: Db) {
    && (forall a :: a in db.attempts ==> a in after.attempts && AttemptPersists(db.attempts[a], after.attempts[a]))
    && (forall t :: t in db.tasks ==> t in after.tasks && TaskPersists(db.tasks[t], after.tasks[t]))
    && db.events <= after.events && db.transitions <= after.transitions && db.checkpoints <= after.checkpoints
    && (forall r :: r in db.references ==> r in after.references && after.references[r] == db.references[r])
    && (forall o :: o in db.objects ==> o in after.objects && after.objects[o] == db.objects[o])
    && (forall t :: t in db.inputs ==> t in after.inputs && after.inputs[t] == db.inputs[t])
    && CursorsAdvance(db.cursors, after.cursors, |after.events|)
  }

  ghost predicate AttemptPersists(before: Attempt, after: Attempt) {
    && after.taskId == before.taskId && after.number == before.number && after.fence == before.fence
    && after.owner == before.owner && after.plan == before.plan && after.startedAt == before.startedAt
    && (before.state != AttemptRunning ==> after == before)
  }

  ghost predicate TaskPersists(before: Task, after: Task) {
    && after.submission == before.submission && after.idempotencyKey == before.idempotencyKey
    && after.attemptsStarted >= before.attemptsStarted && after.revision >= before.revision
    && (before.state in {Completed, Cancelled} ==> after == before)
  }

  lemma EvolvesPersists(db: Db, after: Db, now: Time)
    requires Evolves(db, after, now)
    ensures Persists(db, after)
  {
    assert forall a :: a in db.attempts ==> AttemptEvolves(db.attempts[a], after.attempts[a], now);
    assert forall t :: t in db.tasks ==> TaskEvolves(db.attempts, db.tasks[t], after.tasks[t]);
  }

  lemma PersistsTransitive(a: Db, b: Db, c: Db)
    requires Persists(a, b) && Persists(b, c)
    ensures Persists(a, c)
  {
    forall x | x in a.attempts
      ensures x in c.attempts && AttemptPersists(a.attempts[x], c.attempts[x])
    {
      assert AttemptPersists(a.attempts[x], b.attempts[x]) && AttemptPersists(b.attempts[x], c.attempts[x]);
    }
    forall t | t in a.tasks
      ensures t in c.tasks && TaskPersists(a.tasks[t], c.tasks[t])
    {
      assert TaskPersists(a.tasks[t], b.tasks[t]) && TaskPersists(b.tasks[t], c.tasks[t]);
    }
  }

  /** No run changes a completed or cancelled task, an ended attempt, or anything recorded. */
  lemma {:induction false} RunPersists(db: Db, sha: Checkpoints.Sha, start: Time, steps: seq<Step>)
    requires Sound(db, sha) && IsRun(db, sha, start, steps)
    ensures Persists(db, Final(db, sha, start, steps))
    decreases |steps|
  {
    hide Sound, CanHappen, After, Persists, Evolves;
    if steps != [] {
      var next := After(db, sha, steps[0].op, steps[0].now);
      StepSound(db, sha, steps[0].op, steps[0].now);
      EvolvesPersists(db, next, steps[0].now);
      RunPersists(next, sha, steps[0].now, steps[1..]);
      PersistsTransitive(db, next, Final(next, sha, steps[0].now, steps[1..]));
    } else {
      assert Persists(db, db) by {
        SamePersists(db);
      }
    }
  }

  lemma SamePersists(db: Db)
    ensures Persists(db, db)
  {
  }

  /** In every run the cursors of consumers only move forward, and stay within the log. */
  lemma RunCursors(db: Db, sha: Checkpoints.Sha, start: Time, steps: seq<Step>)
    requires Sound(db, sha) && Replay.CursorInv(db) && IsRun(db, sha, start, steps)
    ensures var end := Final(db, sha, start, steps);
      && Replay.CursorInv(end)
      && forall c :: EventLog.Cursor(db, c) <= EventLog.Cursor(end, c) <= |end.events|
  {
    hide Sound, IsRun, Final, AttemptPersists, TaskPersists, CursorsAdvance;
    RunPersists(db, sha, start, steps);
    CursorsForward(db, Final(db, sha, start, steps));
  }

  lemma CursorsForward(db: Db, after: Db)
    requires Replay.CursorInv(db) && CursorsAdvance(db.cursors, after.cursors, |after.events|) && |db.events| <= |after.events|
    ensures Replay.CursorInv(after)
    ensures forall c :: EventLog.Cursor(db, c) <= EventLog.Cursor(after, c) <= |after.events|
  {
  }

  /** A lease once rejected is rejected for ever: whatever runs after, at any later time. */
  lemma {:induction false} RunKeepsDead(db: Db, sha: Checkpoints.Sha, start: Time, steps: seq<Step>, lease: Lease, later: Time)
    requires Sound(db, sha) && IsRun(db, sha, start, steps) && EndTime(start, steps) <= later
    requires lease.attemptId in db.attempts && !Tasks.Authoritative(db, lease, start)
    ensures var end := Final(db, sha, start, steps);
      lease.attemptId in end.attempts && !Tasks.Authoritative(end, lease, later)
    decreases |steps|
  {
    hide Sound, Inv, CanHappen, After, Evolves, Tasks.Authoritative;
    SoundInv(db, sha);
    if steps == [] {
      EvolvesItself(db, start);
      Leases.DeadStaysDead(db, db, lease, start, start, later);
    } else {
      var next := After(db, sha, steps[0].op, steps[0].now);
      StepSound(db, sha, steps[0].op, steps[0].now);
      SoundInv(next, sha);
      Leases.DeadStaysDead(db, next, lease, start, steps[0].now, steps[0].now);
      RunKeepsDead(next, sha, steps[0].now, steps[1..], lease, later);
    }
  }

  predicate IsUnder(op: Op, lease: Lease) {
    (op.Renew? || op.Complete? || op.Checkpoint? || op.FinishJob?) && op.lease == lease
  }

  /** Whatever is tried under a rejected lease, after whatever run, changes nothing at all. */
  lemma DeadLeaseIsHarmless(db: Db, sha: Checkpoints.Sha, start: Time, steps: seq<Step>, lease: Lease, op: Op, later: Time)
    requires Sound(db, sha) && IsRun(db, sha, start, steps) && EndTime(start, steps) <= later
    requires lease.attemptId in db.attempts && !Tasks.Authoritative(db, lease, start)
    requires IsUnder(op, lease) && CanHappen(Final(db, sha, start, steps), op, later)
    ensures After(Final(db, sha, start, steps), sha, op, later) == Final(db, sha, start, steps)
  {
    hide Sound, CanHappen, Tasks.Authoritative, IsRun, Final;
    RunKeepsDead(db, sha, start, steps, lease, later);
    Leases.DeadLeaseRejected(Final(db, sha, start, steps), lease, later);
    hide Tasks.Complete, Tasks.Renew, Checkpoints.MakeCheckpoint, Jobs.FinishJob;
  }
}
