/**
 A running task can be cancelled under the lease of another one: two tasks are submitted,
 prepared and claimed, and the second one's lease cancels the first.
 */
module ForeignCancel {
  import opened Leases
  import opened TaskEffects
  import opened TaskInvariants
  import opened Tables
  import opened Wrappers
  import Keys
  import Tasks

  /** The identifiers that starting a task draws. */
  datatype Draws = Draws(submitted: Stamp, first: Stamp, second: Stamp, started: Stamp, attemptId: string)

  /** A task is submitted, prepared and claimed. */
  function Start(db: Db, d: Draws, r: Tasks.Request, plan: Plan, now: Time): Outcome<Lease> {
    match Tasks.Submit(db, d.submitted, r, now)
    case Raised(e) => Raised(e)
    case Done(db1, _) =>
      match Tasks.Prepare(db1, d.first, d.second, r.taskId, now)
      case Raised(e) => Raised(e)
      case Done(db2, _) => Tasks.Claim(db2, d.started, d.attemptId, r.taskId, plan, "owner", 600, now)
  }

  ghost predicate New(db: Db, d: Draws) {
    && Fresh(db, d.submitted) && Fresh(db, d.first) && Fresh(db, d.second) && Fresh(db, d.started)
    && Apart(d.submitted, d.first) && Apart(d.submitted, d.second) && Apart(d.submitted, d.started)
    && Apart(d.first, d.second) && Apart(d.started, d.first) && Apart(d.started, d.second)
    && d.attemptId !in db.attempts
  }

  /** A recorded change uses up one stamp. */
  lemma AdvancedFresh(db: Db, t: string, row: Task, attempts: map<string, Attempt>, e: Event, tr: TransitionRow, stamp: Stamp, s: Stamp)
    requires Fresh(db, s) && Apart(s, stamp) && e.id == stamp.eventId && tr.id == stamp.transitionId
    ensures Fresh(Advanced(db, t, row, attempts, e, tr), s)
  {
  }

  lemma SubmitStarts(db: Db, d: Draws, r: Tasks.Request, now: Time)
    requires Inv(db) && New(db, d) && r.taskId !in db.tasks && r.idempotencyKey == None
    ensures var o := Tasks.Submit(db, d.submitted, r, now);
      && o.Done? && Kept(db, o.db, r.taskId, now) && o.db.attempts == db.attempts
      && o.db.tasks == db.tasks[r.taskId := Tasks.NewRow(r, now)]
      && forall s :: Fresh(db, s) && Apart(s, d.submitted) ==> Fresh(o.db, s)
  {
    hide Inv, Kept, Fresh, Tasks.Submit;
    SubmitExact(db, d.submitted, r, now);
    SubmitKeeps(db, d.submitted, r, now);
    forall s | Fresh(db, s) && Apart(s, d.submitted)
      ensures Fresh(Tasks.Submit(db, d.submitted, r, now).db, s)
    {
      AdvancedFresh(db, r.taskId, Tasks.NewRow(r, now), db.attempts,
        Tasks.KernelEvent(d.submitted, "task.created", r.taskId, Keys.Created(r.taskId), Submitted(Tasks.SubmissionOf(r))),
        Tasks.NewTransition(d.submitted, r.taskId, None, None, Tasks.NewRow(r, now), "submitted", now), d.submitted, s);
    }
  }

  /** A new task, once prepared, is claimed. */
  lemma ClaimStarts(db: Db, d: Draws, r: Tasks.Request, plan: Plan, now: Time)
    requires Inv(db) && Fresh(db, d.started) && d.attemptId !in db.attempts
    requires r.taskId in db.tasks && db.tasks[r.taskId] == PreparedRow(Tasks.NewRow(r, now), now)
    ensures var o := Tasks.Claim(db, d.started, d.attemptId, r.taskId, plan, "owner", 600, now);
      && o.Done? && Kept(db, o.db, r.taskId, now)
      && Tasks.Authoritative(o.db, o.value, now) && o.value.taskId == r.taskId && o.value.attemptId == d.attemptId
      && r.taskId in o.db.tasks && o.db.tasks[r.taskId].active == Some(d.attemptId)
      && o.db.attempts.Keys == db.attempts.Keys + {d.attemptId}
      && forall s :: Fresh(db, s) && Apart(s, d.started) ==> Fresh(o.db, s)
  {
    hide Inv, Kept, Fresh, Tasks.Claim, Tasks.Authoritative;
    ClaimExact(db, d.started, d.attemptId, r.taskId, plan, "owner", 600, now);
    ClaimKeeps(db, d.started, d.attemptId, r.taskId, plan, "owner", 600, now);
    ClaimIssues(db, d.started, d.attemptId, r.taskId, plan, "owner", 600, now);
    var task := db.tasks[r.taskId];
    var attempt := Tasks.NewAttempt(r.taskId, task, plan, "owner", 600, now);
    forall s | Fresh(db, s) && Apart(s, d.started)
      ensures Fresh(Tasks.Claim(db, d.started, d.attemptId, r.taskId, plan, "owner", 600, now).db, s)
    {
      AdvancedFresh(db, r.taskId, Tasks.ClaimedRow(task, d.attemptId, now), db.attempts[d.attemptId := attempt],
        Tasks.StartedEvent(d.started, r.taskId, d.attemptId, attempt),
        Tasks.NewTransition(d.started, r.taskId, Some(d.attemptId), Some(task.state), Tasks.ClaimedRow(task, d.attemptId, now),
                            "attempt.started", now), d.started, s);
    }
  }

  ghost predicate ApartFrom(s: Stamp, d: Draws) {
    Apart(s, d.submitted) && Apart(s, d.first) && Apart(s, d.second) && Apart(s, d.started)
  }

  /** Starting a new task with new identifiers succeeds, and touches no other task. */
  lemma StartDone(db: Db, d: Draws, r: Tasks.Request, plan: Plan, now: Time)
    requires Inv(db) && New(db, d) && r.taskId !in db.tasks && r.idempotencyKey == None
    ensures var o := Start(db, d, r, plan, now);
      && o.Done? && Kept(db, o.db, r.taskId, now)
      && Tasks.Authoritative(o.db, o.value, now) && o.value.taskId == r.taskId && o.value.attemptId == d.attemptId
      && r.taskId in o.db.tasks && o.db.tasks[r.taskId].active == Some(d.attemptId)
      && o.db.attempts.Keys == db.attempts.Keys + {d.attemptId}
      && forall s :: Fresh(db, s) && ApartFrom(s, d) ==> Fresh(o.db, s)
  {
    hide Inv, Kept, Fresh, Tasks.Submit, Tasks.Prepare, Tasks.Claim, Tasks.Authoritative, PreparedRow;
    SubmitStarts(db, d, r, now);
    var db1 := Tasks.Submit(db, d.submitted, r, now).db;
    KeptInv(db, db1, r.taskId, now);
    PrepareExact(db1, d.first, d.second, r.taskId, now);
    PrepareKeeps(db1, d.first, d.second, r.taskId, now);
    var db2 := Tasks.Prepare(db1, d.first, d.second, r.taskId, now).db;
    KeptTransitive(db, db1, db2, r.taskId, now);
    ClaimStarts(db2, d, r, plan, now);
    KeptTransitive(db, db2, Tasks.Claim(db2, d.started, d.attemptId, r.taskId, plan, "owner", 600, now).db, r.taskId, now);
  }

  lemma KeptInv(db: Db, after: Db, t: string, now: Time)
    requires Kept(db, after, t, now)
    ensures Inv(after) && Touches(db, after, t)
  {
    hide Inv, Evolves, Touches;
  }

  function Numbered(n: string): Stamp {
    Stamp("event-" + n, "transition-" + n, 0.0)
  }

  const FIRST: Draws := Draws(Numbered("1"), Numbered("2"), Numbered("3"), Numbered("4"), "attempt-1")
  const SECOND: Draws := Draws(Numbered("5"), Numbered("6"), Numbered("7"), Numbered("8"), "attempt-2")

  function RequestFor(t: string): Tasks.Request {
    Tasks.Request(t, "", "kernel.execution/v1", "user", "explicit execution", 0, "user", None, 1)
  }

  /** The database in which both tasks run. */
  function Both(): Db {
    var one := Commit(EMPTY, Start(EMPTY, FIRST, RequestFor("first"), Plan("p", "first", "r"), 0.0));
    Commit(one, Start(one, SECOND, RequestFor("second"), Plan("q", "second", "r"), 0.0))
  }

  lemma StampsDiffer()
    ensures Numbered("1") != Numbered("2")
    ensures forall m, n :: Numbered(m) == Numbered(n) || Apart(Numbered(m), Numbered(n))
    ensures forall m, n :: Numbered(m) == Numbered(n) ==> m == n
  {
    forall m, n
      ensures Numbered(m) == Numbered(n) || Apart(Numbered(m), Numbered(n))
      ensures Numbered(m) == Numbered(n) ==> m == n
    {
      var x, y := Numbered(m), Numbered(n);
      assert x.eventId[6..] == m && y.eventId[6..] == n;
      assert x.transitionId[11..] == m && y.transitionId[11..] == n;
    }
  }

  lemma EmptyNew()
    ensures Inv(EMPTY) && New(EMPTY, FIRST) && New(EMPTY, SECOND)
    ensures ApartFrom(Numbered("5"), FIRST) && ApartFrom(Numbered("6"), FIRST)
    ensures ApartFrom(Numbered("7"), FIRST) && ApartFrom(Numbered("8"), FIRST)
  {
    hide Numbered, Apart, Inv;
    StampsDiffer();
    EmptyInv();
  }

  lemma EmptyInv()
    ensures Inv(EMPTY) && forall s :: Fresh(EMPTY, s)
  {
  }

  lemma FirstRuns()
    ensures var o := Start(EMPTY, FIRST, RequestFor("first"), Plan("p", "first", "r"), 0.0);
      && o.Done? && Inv(o.db) && "first" in o.db.tasks && "second" !in o.db.tasks
      && o.db.tasks["first"].active == Some("attempt-1") && New(o.db, SECOND)
  {
    hide Inv, Fresh, Apart, Start, Tasks.Authoritative, Numbered, Evolves;
    EmptyNew();
    StartDone(EMPTY, FIRST, RequestFor("first"), Plan("p", "first", "r"), 0.0);
  }

  /** A lease in force for the second task, with which the first task is cancelled. */
  ghost predicate CancelsFirst(stamp: Stamp, lease: Lease) {
    && lease.taskId == "second" && Tasks.Authoritative(Both(), lease, 0.0)
    && Tasks.Cancel(Both(), stamp, "first", Some(lease), 0.0).Done?
  }

  /** The second task's lease cancels the first task, although it is not its lease. */
  lemma ForeignCancelHappens(stamp: Stamp)
    requires Fresh(Both(), stamp)
    ensures Inv(Both()) && "first" in Both().tasks && Both().tasks["first"].active == Some("attempt-1")
    ensures exists lease :: CancelsFirst(stamp, lease)
  {
    hide Inv, Fresh, Apart, Start, Tasks.Authoritative, Evolves, Numbered, Tasks.Cancel;
    FirstRuns();
    var one := Start(EMPTY, FIRST, RequestFor("first"), Plan("p", "first", "r"), 0.0).db;
    StartDone(one, SECOND, RequestFor("second"), Plan("q", "second", "r"), 0.0);
    var lease := Start(one, SECOND, RequestFor("second"), Plan("q", "second", "r"), 0.0).value;
    CancelForeign(Both(), stamp, "first", "attempt-1", lease, 0.0);
    assert CancelsFirst(stamp, lease);
  }
}
