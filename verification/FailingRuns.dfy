/**
 Three short runs that end where a call fails although its caller did nothing wrong: a second
 renewal, a second creation, and a claim after a quarantine.
 */
module FailingRuns {
  import opened ForeignCancel
  import opened Inputs
  import opened JobProgress
  import opened PlainMoves
  import opened QueueRuns
  import opened System
  import opened TaskEffects
  import opened TaskInvariants
  import opened Tables
  import opened Wrappers
  import Checkpoints
  import EventLog
  import JobInvariants
  import Jobs
  import Keys
  import Refusals
  import Tasks

  // ----- a second renewal in one millisecond

  const FIRST_RENEWAL: seq<Step> := [
    Step(Claim(Numbered("4"), "attempt", T, Plan("p", T, "r"), "owner", 600), 0.0),
    Step(Renew(Numbered("5"), LEASE, 60), 0.0)]

  const RENEWAL: Keys.Key := Keys.Renewed("attempt", 0)

  ghost predicate KeyIsFree(db: Db) {
    !EventLog.KeyUsed(db.events, Tasks.SOURCE, Keys.Render(RENEWAL))
  }

  /** An event of another kind leaves the renewal's key free. */
  lemma StaysFree(db: Db, row: Task, attempts: map<string, Attempt>, e: Event, tr: TransitionRow, used: Keys.Key)
    requires KeyIsFree(db) && e.dedupKey == Some(Keys.Render(used)) && used != RENEWAL
    ensures KeyIsFree(Advanced(db, T, row, attempts, e, tr))
  {
    if Keys.Render(used) == Keys.Render(RENEWAL) {
      Keys.RenderInjective(used, RENEWAL);
    }
  }

  lemma SubmitFree()
    ensures Tasks.Submit(EMPTY, Numbered("1"), RequestFor(T), 0.0).Done? && KeyIsFree(Tasks.Submit(EMPTY, Numbered("1"), RequestFor(T), 0.0).db)
  {
    hide Inv, Fresh, Tasks.Submit, Numbered, KeyIsFree;
    EmptyInv();
    EmptyFree();
    var r, row := RequestFor(T), Tasks.NewRow(RequestFor(T), 0.0);
    SubmitExact(EMPTY, Numbered("1"), r, 0.0);
    StaysFree(EMPTY, row, map[],
      Tasks.KernelEvent(Numbered("1"), "task.created", T, Keys.Created(T), Submitted(Tasks.SubmissionOf(r))),
      Tasks.NewTransition(Numbered("1"), T, None, None, row, "submitted", 0.0), Keys.Created(T));
  }

  lemma EmptyFree()
    ensures KeyIsFree(EMPTY)
  {
  }

  lemma MoveFree(db: Db, n: string, row: Task, used: set<string>, to: TaskState, reason: string)
    requires Stands(db, row, used) && n !in used && row.active.None? && to in AllowedTransitions(row.state) && KeyIsFree(db)
    ensures KeyIsFree(Commit(db, Tasks.Transition(db, Numbered(n), T, to, reason, None, 0.0)))
  {
    hide Inv, Fresh, Tasks.Transition, Numbered, KeyIsFree;
    TransitionExact(db, Numbered(n), T, to, reason, None, 0.0);
    var next := Tasks.MovedRow(row, to, 0.0);
    StaysFree(db, next, db.attempts,
      Tasks.MovedEvent(Numbered(n), T, "task." + StateName(to), row, to, reason).(causationId := None),
      Tasks.NewTransition(Numbered(n), T, None, Some(row.state), next, reason, 0.0), Keys.Revised(T, row.revision + 1));
  }

  lemma PreparedFree(sha: Checkpoints.Sha)
    ensures KeyIsFree(Prepared(sha))
  {
    hide Stands, Tasks.Submit, Tasks.Transition, Numbered, KeyIsFree;
    SubmitStands();
    SubmitFree();
    var one := Tasks.Submit(EMPTY, Numbered("1"), RequestFor(T), 0.0).db;
    MoveStands(one, "2", Tasks.NewRow(RequestFor(T), 0.0), {"1"}, Planned, "plan.created");
    MoveFree(one, "2", Tasks.NewRow(RequestFor(T), 0.0), {"1"}, Planned, "plan.created");
    var two := Tasks.Transition(one, Numbered("2"), T, Planned, "plan.created", None, 0.0).db;
    MoveFree(two, "3", Tasks.MovedRow(Tasks.NewRow(RequestFor(T), 0.0), Planned, 0.0), {"1"} + {"2"}, Ready, "plan.ready");
  }

  lemma ClaimFree(db: Db)
    requires Stands(db, ReadyRow(), {"1", "2", "3"}) && db.attempts == map[] && KeyIsFree(db)
    ensures KeyIsFree(Commit(db, Tasks.Claim(db, Numbered("4"), "attempt", T, Plan("p", T, "r"), "owner", 600, 0.0)))
  {
    hide Inv, Fresh, Tasks.Claim, Numbered, KeyIsFree;
    var plan, row := Plan("p", T, "r"), Tasks.ClaimedRow(ReadyRow(), "attempt", 0.0);
    ClaimExact(db, Numbered("4"), "attempt", T, plan, "owner", 600, 0.0);
    var attempt := Tasks.NewAttempt(T, ReadyRow(), plan, "owner", 600, 0.0);
    StaysFree(db, row, db.attempts["attempt" := attempt], Tasks.StartedEvent(Numbered("4"), T, "attempt", attempt),
      Tasks.NewTransition(Numbered("4"), T, Some("attempt"), Some(Ready), row, "attempt.started", 0.0), Keys.Started(T, 1));
  }

  /** A renewal succeeds, and a second one under the same lease, still in force, does not. */
  lemma RenewsOnce(db: Db, row: Task)
    requires Stands(db, row, {"1", "2", "3", "4"}) && Tasks.Authoritative(db, LEASE, 0.0) && KeyIsFree(db)
    ensures var o := Tasks.Renew(db, Numbered("5"), LEASE, 60, 0.0);
      && o.Done? && Tasks.Authoritative(o.db, LEASE, 0.0) && Fresh(o.db, Numbered("6"))
      && Tasks.Renew(o.db, Numbered("6"), LEASE, 60, 0.0) == Raised(EventConflict)
  {
    hide Inv, Fresh, Apart, Tasks.Renew, Numbered, Evolves, Touches, EventLog.KeyUsed;
    StampsDiffer();
    Millisecond();
    RenewExact(db, Numbered("5"), LEASE, 60, 0.0);
    RenewKeeps(db, Numbered("5"), LEASE, 60, 0.0);
    var after := Tasks.Renew(db, Numbered("5"), LEASE, 60, 0.0).db;
    RenewedFresh(db, after, Numbered("5"), Numbered("6"));
    Refusals.RenewTwice(db, Numbered("5"), LEASE, 60, 0.0, after, Numbered("6"), LEASE, 60, 0.0);
  }

  lemma Millisecond()
    ensures Truncate(0.0 * 1000.0) == 0
  {
  }

  lemma RenewedFresh(db: Db, after: Db, stamp: Stamp, s: Stamp)
    requires Fresh(db, s) && Apart(s, stamp)
    requires after.events == db.events + [Tasks.RenewedEvent(stamp, LEASE, 0.0)] && after.transitions == db.transitions
    ensures Fresh(after, s)
  {
  }

  lemma RenewalStands(sha: Checkpoints.Sha)
    ensures var end := After(Claimed(sha), sha, FIRST_RENEWAL[1].op, 0.0);
      && Tasks.Authoritative(end, LEASE, 0.0) && Fresh(end, Numbered("6"))
      && Tasks.Renew(end, Numbered("6"), LEASE, 60, 0.0) == Raised(EventConflict)
  {
    hide Tasks.Claim, Tasks.Renew, Tasks.Authoritative, Numbered, Stands, KeyIsFree, Fresh, Prepared;
    PreparationStands(sha);
    PreparedFree(sha);
    ClaimStands(Prepared(sha));
    ClaimFree(Prepared(sha));
    RenewsOnce(Claimed(sha), Tasks.ClaimedRow(ReadyRow(), "attempt", 0.0));
  }

  lemma RenewalRuns(sha: Checkpoints.Sha)
    ensures IsRun(Prepared(sha), sha, 0.0, FIRST_RENEWAL)
    ensures Final(Prepared(sha), sha, 0.0, FIRST_RENEWAL) == After(Claimed(sha), sha, FIRST_RENEWAL[1].op, 0.0)
  {
    hide Tasks.Claim, Tasks.Renew, Numbered, Prepared;
    RunStarts(Claimed(sha), sha, 0.0, FIRST_RENEWAL[1], []);
    RunStarts(Prepared(sha), sha, 0.0, FIRST_RENEWAL[0], [FIRST_RENEWAL[1]] + []);
    assert FIRST_RENEWAL == [FIRST_RENEWAL[0]] + ([FIRST_RENEWAL[1]] + []);
  }

  /** The owner of a running attempt renews its lease, and again in the same millisecond: the second call raises. */
  lemma RenewTwiceReached(sha: Checkpoints.Sha)
    ensures IsRun(EMPTY, sha, 0.0, PREPARATION + FIRST_RENEWAL)
    ensures var end := Final(EMPTY, sha, 0.0, PREPARATION + FIRST_RENEWAL);
      && Tasks.Authoritative(end, LEASE, 0.0) && Fresh(end, Numbered("6"))
      && Tasks.Renew(end, Numbered("6"), LEASE, 60, 0.0) == Raised(EventConflict)
  {
    hide IsRun, Final, After, CanHappen, Prepared, Claimed, Tasks.Authoritative, Fresh, Tasks.Renew;
    RenewalStands(sha);
    RenewalRuns(sha);
    PreparationRuns(sha, FIRST_RENEWAL);
  }

  // ----- a second creation

  const CREATION: Step := Step(Create(Numbered("1"), Numbered("2"), RequestFor(T), INPUT), 0.0)

  /** The created task has its row and its input, and two more stamps are unused. */
  lemma CreationStands(sha: Checkpoints.Sha)
    ensures var o := Checkpoints.CreateTask(EMPTY, Numbered("1"), Numbered("2"), RequestFor(T), INPUT, 0.0);
      && o.Done? && Sound(o.db, sha) && Fresh(o.db, Numbered("3")) && Fresh(o.db, Numbered("4"))
      && o.db.tasks == map[T := Tasks.NewRow(RequestFor(T), 0.0)] && o.db.inputs == map[T := INPUT.id]
      && o.db.references == map[INPUT.id := INPUT]
  {
    hide Sound, Fresh, Apart, Numbered, Checkpoints.CreateTask, JobInvariants.ProjectionInv, Evolves, Tasks.NewRow;
    StampsDiffer();
    EmptyInv();
    InitialConsistent(EMPTY, sha);
    var r := RequestFor(T);
    CreateExact(EMPTY, sha, Numbered("1"), Numbered("2"), r, INPUT, 0.0);
    CreateKeeps(EMPTY, sha, Numbered("1"), Numbered("2"), r, INPUT, 0.0);
    CreatedFresh(EMPTY, Numbered("1"), Numbered("2"), r, INPUT, 0.0, Numbered("3"));
    CreatedFresh(EMPTY, Numbered("1"), Numbered("2"), r, INPUT, 0.0, Numbered("4"));
  }

  lemma CreationRefused(db: Db, sha: Checkpoints.Sha)
    requires Sound(db, sha) && Fresh(db, Numbered("3")) && Fresh(db, Numbered("4"))
    requires db.tasks == map[T := Tasks.NewRow(RequestFor(T), 0.0)] && db.inputs == map[T := INPUT.id]
    requires db.references == map[INPUT.id := INPUT]
    ensures Checkpoints.CreateTask(db, Numbered("3"), Numbered("4"), RequestFor(T), INPUT, 0.0) == Raised(EventConflict)
  {
    hide Sound, Fresh, Numbered, Checkpoints.CreateTask;
    CreateAgain(db, sha, Numbered("3"), Numbered("4"), RequestFor(T), INPUT, 0.0);
  }

  /** A task is created with its input, and created again with the identical request and input: the second call raises. */
  lemma CreateAgainReached(sha: Checkpoints.Sha)
    ensures IsRun(EMPTY, sha, 0.0, [CREATION])
    ensures var end := Final(EMPTY, sha, 0.0, [CREATION]);
      && T in end.inputs && Fresh(end, Numbered("3")) && Fresh(end, Numbered("4"))
      && Checkpoints.CreateTask(end, Numbered("3"), Numbered("4"), RequestFor(T), INPUT, 0.0) == Raised(EventConflict)
  {
    hide Sound, Fresh, Numbered, Checkpoints.CreateTask;
    CreationStands(sha);
    CreationRefused(After(EMPTY, sha, CREATION.op, 0.0), sha);
    RunStarts(EMPTY, sha, 0.0, CREATION, []);
    assert [CREATION] == [CREATION] + [];
  }

  // ----- a claim after a quarantine

  /** A job of an earlier version of the program, which has no task. */
  const OLD_JOB: Job := Job(0.0, 0.0, JobQueued, "auto", 600, 0, 1, 0.0, None, None, None, None)
  const OLD: Db := EMPTY.(jobs := map[JOB := OLD_JOB])

  function IdsFrom(n: string): Jobs.ClaimIds {
    Jobs.ClaimIds(Numbered(n), Numbered(n), Numbered(n), "attempt", "p", 1)
  }

  const QUARANTINE: Step := Step(ClaimJob(IdsFrom("1"), JOB, "owner", 600), 0.0)
  const RETRIAL: Step := Step(RetryJob(Numbered("2"), JOB, 0.0), 0.0)

  lemma OldStands(sha: Checkpoints.Sha)
    ensures Sound(OLD, sha) && IsInitial(OLD) && Jobs.IsNextJob(OLD, Some(JOB), 0.0)
    ensures forall s :: Fresh(OLD, s)
  {
    hide Sound, JobInvariants.ProjectionInv;
    InitialConsistent(OLD, sha);
  }

  /** The claim quarantines the job. */
  lemma OldQuarantined()
    ensures var o := Jobs.ClaimJob(OLD, IdsFrom("1"), JOB, "owner", 600, 0.0);
      && o.Done? && JOB in o.db.jobs && o.db.jobs.Keys == {JOB} && o.db.jobs[JOB].status == JobDead && JOB !in o.db.mappings
      && o.db.events == [Jobs.QuarantineEvent(Numbered("1"), JOB)] && o.db.transitions == []
  {
    hide Numbered, EventLog.KeyUsed, EventLog.IdUsed, EventLog.AppendTo;
    var e := Jobs.QuarantineEvent(Numbered("1"), JOB);
    EmptyLog(e);
    EventLog.AppendFresh([], e);
  }

  lemma EmptyLog(e: Event)
    ensures !EventLog.Clashes([], e)
  {
  }

  lemma OldFresh(db: Db)
    requires db.events == [Jobs.QuarantineEvent(Numbered("1"), JOB)] && db.transitions == []
    ensures Fresh(db, Numbered("3"))
  {
    StampsDiffer();
  }

  /** The retry makes it wait again. */
  lemma QuarantineStands(sha: Checkpoints.Sha)
    ensures CanHappen(OLD, QUARANTINE.op, 0.0)
    ensures var end := After(After(OLD, sha, QUARANTINE.op, 0.0), sha, RETRIAL.op, 0.0);
      && JOB in end.jobs && end.jobs.Keys == {JOB} && Jobs.IsDue(end.jobs[JOB], 0.0) && JOB !in end.mappings && Fresh(end, Numbered("3"))
      && Jobs.ClaimJob(OLD, IdsFrom("1"), JOB, "owner", 600, 0.0).Done?
      && end.events == Jobs.ClaimJob(OLD, IdsFrom("1"), JOB, "owner", 600, 0.0).db.events
  {
    hide Sound, Fresh, Numbered, Jobs.ClaimJob;
    OldStands(sha);
    OldQuarantined();
    OldFresh(After(After(OLD, sha, QUARANTINE.op, 0.0), sha, RETRIAL.op, 0.0));
  }

  lemma OldRuns(sha: Checkpoints.Sha)
    ensures IsRun(OLD, sha, 0.0, [QUARANTINE, RETRIAL])
    ensures Final(OLD, sha, 0.0, [QUARANTINE, RETRIAL]) == After(After(OLD, sha, QUARANTINE.op, 0.0), sha, RETRIAL.op, 0.0)
  {
    hide Numbered, Jobs.ClaimJob, Jobs.RetryJob;
    QuarantineStands(sha);
    RunStarts(After(OLD, sha, QUARANTINE.op, 0.0), sha, 0.0, RETRIAL, []);
    RunStarts(OLD, sha, 0.0, QUARANTINE, [RETRIAL] + []);
    assert [QUARANTINE, RETRIAL] == [QUARANTINE] + ([RETRIAL] + []);
  }

  /** An old job is quarantined, and retried by an operator: it is the next to be claimed, and claiming it raises. */
  lemma QuarantinedReached(sha: Checkpoints.Sha)
    ensures IsInitial(OLD) && IsRun(OLD, sha, 0.0, [QUARANTINE, RETRIAL])
    ensures var end := Final(OLD, sha, 0.0, [QUARANTINE, RETRIAL]);
      && Jobs.IsNextJob(end, Some(JOB), 0.0) && Fresh(end, Numbered("3"))
      && Jobs.ClaimJob(end, IdsFrom("3"), JOB, "owner", 600, 0.0) == Raised(EventConflict)
  {
    hide Sound, Fresh, Numbered, Jobs.ClaimJob, IsRun, Final, CanHappen, After;
    OldStands(sha);
    QuarantineStands(sha);
    OldRuns(sha);
    RunSound(OLD, sha, 0.0, [QUARANTINE, RETRIAL]);
    var end := Final(OLD, sha, 0.0, [QUARANTINE, RETRIAL]);
    SoundInv(OLD, sha);
    SoundInv(end, sha);
    hide Inv;
    QuarantinedForEver(OLD, IdsFrom("1"), JOB, end, 0.0, IdsFrom("3"), "owner", 600, 0.0);
  }
}
