/**
 Creation of a task with its immutable input (harness2/kernel/execution_state.py): what it
 keeps, exactly when it is refused, and that it cannot be repeated.
 */
module Inputs {
  import opened CheckpointInvariants
  import opened Checkpoints
  import opened EventLog
  import opened TaskEffects
  import opened TaskInvariants
  import opened Tables
  import opened Wrappers
  import Keys
  import Tasks

  /** A bound input belongs to a task, and its binding was announced. */
  ghost predicate BindingInv(db: Db) {
    forall t :: t in db.inputs ==> t in db.tasks && KeyUsed(db.events, SOURCE, Keys.Render(Keys.Bound(t)))
  }

  lemma KeyStays(before: seq<Event>, after: seq<Event>, source: string, key: string)
    requires before <= after && KeyUsed(before, source, key)
    ensures KeyUsed(after, source, key)
  {
    var i :| 0 <= i < |before| && before[i].source == source && before[i].dedupKey == Some(key);
    assert after[i] == before[i];
  }

  lemma BindingFrame(db: Db, after: Db, now: Time)
    requires BindingInv(db) && Evolves(db, after, now) && after.inputs == db.inputs
    ensures BindingInv(after)
  {
    hide AttemptsEvolve, TaskEvolves, KeyUsed;
    forall t | t in after.inputs
      ensures t in after.tasks && KeyUsed(after.events, SOURCE, Keys.Render(Keys.Bound(t)))
    {
      KeyStays(db.events, after.events, SOURCE, Keys.Render(Keys.Bound(t)));
    }
  }

  /** Binding an input to an existing task: the second half of a creation. */
  function Bind(db: Db, bound: Stamp, r: Tasks.Request, reference: Reference): Outcome<()> {
    match InsertReference(db, reference)
    case Raised(e) => Raised(e)
    case Done(db1, _) =>
      if r.taskId in db.inputs && db.inputs[r.taskId] != reference.id then Raised(PayloadIntegrity)
      else
        match EventLog.Append(db1.(inputs := db.inputs[r.taskId := reference.id]),
                              BoundEvent(bound, r.taskId, reference, r.taskType))
        case Raised(e) => Raised(e)
        case Done(db2, _) => Done(db2, ())
  }

  lemma CreateUnfolds(db: Db, stamp: Stamp, bound: Stamp, r: Tasks.Request, reference: Reference, now: Time)
    ensures CreateTask(db, stamp, bound, r, reference, now) ==
      match Tasks.Submit(db, stamp, r, now)
      case Raised(e) => Raised(e)
      case Done(db1, task) =>
        match Bind(db1, bound, r, reference)
        case Raised(e) => Raised(e)
        case Done(db2, _) => Done(db2, task)
  {
    hide Tasks.Submit;
    if Tasks.Submit(db, stamp, r, now).Done? {
      var db1 := Tasks.Submit(db, stamp, r, now).db;
      if InsertReference(db1, reference).Done? {
        assert InsertReference(db1, reference).db.inputs == db1.inputs;
      }
    }
  }

  lemma BindUnfolds(db: Db, bound: Stamp, r: Tasks.Request, reference: Reference)
    requires Bind(db, bound, r, reference).Done?
    ensures var after := Bind(db, bound, r, reference).db;
      && after == db.(references := after.references, inputs := db.inputs[r.taskId := reference.id],
                      events := AppendTo(db.events, BoundEvent(bound, r.taskId, reference, r.taskType)).value.0)
      && AppendTo(db.events, BoundEvent(bound, r.taskId, reference, r.taskType)).Success?
      && (r.taskId in db.inputs ==> db.inputs[r.taskId] == reference.id)
      && forall id :: id in db.references ==> id in after.references && after.references[id] == db.references[id]
  {
    hide AppendTo;
  }

  lemma BindEvolves(db: Db, after: Db, t: string, now: Time)
    requires after == db.(references := after.references, inputs := after.inputs, events := after.events)
    requires forall id :: id in db.references ==> id in after.references && after.references[id] == db.references[id]
    requires forall s :: s in db.inputs ==> s in after.inputs && after.inputs[s] == db.inputs[s]
    requires db.events <= after.events
    ensures Evolves(db, after, now)
  {
  }

  lemma BindKeeps(db: Db, sha: Sha, bound: Stamp, r: Tasks.Request, reference: Reference, now: Time)
    requires Inv(db) && CheckpointInv(db, sha) && BindingInv(db) && r.taskId in db.tasks
    requires Bind(db, bound, r, reference).Done?
    ensures var after := Bind(db, bound, r, reference).db;
      && Inv(after) && CheckpointInv(after, sha) && BindingInv(after) && Evolves(db, after, now)
      && after == db.(references := after.references, inputs := after.inputs, events := after.events)
  {
    hide Inv, CheckpointInv, Evolves, AppendTo, BindingInv, Bind;
    var after, e := Bind(db, bound, r, reference).db, BoundEvent(bound, r.taskId, reference, r.taskType);
    BindUnfolds(db, bound, r, reference);
    AppendedEvents(db, after, e);
    BindEvolves(db, after, r.taskId, now);
    BoundAccounted(db, after, e, r.taskId);
    CheckpointFrame(db, after, sha, now);
    BoundInv(db, after, e, r.taskId);
  }

  lemma BoundAccounted(db: Db, after: Db, e: Event, t: string)
    requires after.events in {db.events, db.events + [e]} && e.dedupKey == Some(Keys.Render(Keys.Bound(t))) && t in after.inputs
    ensures forall i :: |db.events| <= i < |after.events| ==> ExecAccounted(after, after.events[i].dedupKey)
  {
  }

  lemma BoundInv(db: Db, after: Db, e: Event, t: string)
    requires Inv(db) && BindingInv(db) && t in after.tasks && after.tasks == db.tasks
    requires forall s :: s in after.inputs ==> s in db.inputs || s == t
    requires AppendTo(db.events, e).Success? && after.events == AppendTo(db.events, e).value.0
    requires e.source == SOURCE && e.dedupKey == Some(Keys.Render(Keys.Bound(t)))
    ensures BindingInv(after)
  {
    hide FencingInv, HistoryInv, EventsInv, RowsInv, AppendTo, KeyUsed;
    EventsDistinct(db);
    AppendKeeps(db.events, e);
    forall s | s in after.inputs
      ensures s in after.tasks && KeyUsed(after.events, SOURCE, Keys.Render(Keys.Bound(s)))
    {
      if s == t {
        MemberUses(after.events, e, Keys.Render(Keys.Bound(t)));
      } else {
        KeyStays(db.events, after.events, SOURCE, Keys.Render(Keys.Bound(s)));
      }
    }
  }

  lemma MemberUses(events: seq<Event>, e: Event, key: string)
    requires e in events && e.source == SOURCE && e.dedupKey == Some(key)
    ensures KeyUsed(events, SOURCE, key)
  {
    var i :| 0 <= i < |events| && events[i] == e;
  }

  // ----- all invariants of the kernel together

  ghost predicate Sound(db: Db, sha: Sha) {
    Inv(db) && CheckpointInv(db, sha) && BindingInv(db)
  }

  /** Steps on tasks and attempts alone keep the invariants of checkpoints and inputs. */
  lemma SoundFrame(db: Db, after: Db, sha: Sha, now: Time)
    requires Sound(db, sha) && Inv(after) && Evolves(db, after, now)
    requires after.checkpoints == db.checkpoints && after.inputs == db.inputs
    requires forall i :: |db.events| <= i < |after.events| ==> after.events[i].source != SOURCE
    ensures Sound(after, sha)
  {
    hide Inv, CheckpointInv, Evolves, BindingInv;
    CheckpointFrame(db, after, sha, now);
    BindingFrame(db, after, now);
  }

  lemma SoundKept(db: Db, after: Db, sha: Sha, t: string, now: Time)
    requires Sound(db, sha) && Kept(db, after, t, now)
    ensures Sound(after, sha)
  {
    hide Inv, CheckpointInv, Evolves, BindingInv;
    SoundFrame(db, after, sha, now);
  }

  lemma SubmitRow(db: Db, stamp: Stamp, r: Tasks.Request, now: Time)
    requires Tasks.Submit(db, stamp, r, now).Done?
    ensures var o := Tasks.Submit(db, stamp, r, now);
      && r.taskId in o.db.tasks && o.db.attempts == db.attempts
      && o.db.tasks == (if r.taskId in db.tasks then db.tasks else db.tasks[r.taskId := Tasks.NewRow(r, now)])
  {
    hide AppendTo;
  }

  lemma KeptSound(db: Db, after: Db, sha: Sha, t: string, now: Time)
    requires Sound(db, sha) && Kept(db, after, t, now)
    ensures Sound(after, sha) && Evolves(db, after, now)
    ensures after == db.(tasks := after.tasks, attempts := after.attempts, events := after.events, transitions := after.transitions)
  {
    hide Sound, Inv, Evolves;
    assert Evolves(db, after, now) && Touches(db, after, t);
    SoundKept(db, after, sha, t, now);
  }

  /** Creating a task keeps every invariant, and adds at most the one task. */
  lemma CreateKeeps(db: Db, sha: Sha, stamp: Stamp, bound: Stamp, r: Tasks.Request, reference: Reference, now: Time)
    requires Sound(db, sha)
    ensures var after := Commit(db, CreateTask(db, stamp, bound, r, reference, now));
      && Sound(after, sha) && Evolves(db, after, now)
      && (after.tasks == db.tasks || (r.taskId !in db.tasks && after.tasks == db.tasks[r.taskId := Tasks.NewRow(r, now)]))
      && after == db.(tasks := after.tasks, events := after.events, transitions := after.transitions,
                      references := after.references, inputs := after.inputs)
  {
    hide Inv, CheckpointInv, Evolves, BindingInv, Kept, Bind, Tasks.Submit, CreateTask;
    CreateUnfolds(db, stamp, bound, r, reference, now);
    KeptReflexive(db, r.taskId, now);
    KeptSound(db, db, sha, r.taskId, now);
    SubmitKeeps(db, stamp, r, now);
    var o := Tasks.Submit(db, stamp, r, now);
    if o.Done? && Bind(o.db, bound, r, reference).Done? {
      KeptSound(db, o.db, sha, r.taskId, now);
      SubmitRow(db, stamp, r, now);
      BindKeeps(o.db, sha, bound, r, reference, now);
      EvolvesTransitive(db, o.db, Bind(o.db, bound, r, reference).db, now);
    }
  }

  // ----- exactly when a creation is refused

  /** A new task is created, with its input, unless another submission or object is in its place. */
  lemma CreateExact(db: Db, sha: Sha, stamp: Stamp, bound: Stamp, r: Tasks.Request, reference: Reference, now: Time)
    requires Sound(db, sha) && Fresh(db, stamp) && Fresh(db, bound) && Apart(stamp, bound) && r.taskId !in db.tasks
    ensures var o := CreateTask(db, stamp, bound, r, reference, now);
      if Tasks.KeyTaken(db.tasks, r.idempotencyKey) then
        o == Raised(if r.idempotencyKey == Some("") then IntegrityError else IdempotencyConflict)
      else if InsertReference(db, reference).Raised? then o == Raised(PayloadIntegrity)
      else
        && o.Done? && o.value == Tasks.NewRow(r, now)
        && o.db.tasks == db.tasks[r.taskId := Tasks.NewRow(r, now)] && o.db.inputs == db.inputs[r.taskId := reference.id]
        && o.db.references == InsertReference(db, reference).db.references
  {
    hide Inv, CheckpointInv, BindingInv, Fresh, AppendTo, CreateTask, Tasks.Submit;
    CreateUnfolds(db, stamp, bound, r, reference, now);
    SubmitExact(db, stamp, r, now);
    if !Tasks.KeyTaken(db.tasks, r.idempotencyKey) {
      var e := Tasks.KernelEvent(stamp, "task.created", r.taskId, Keys.Created(r.taskId), Submitted(Tasks.SubmissionOf(r)));
      NewBinding(db, sha, Tasks.Submit(db, stamp, r, now).db, e, bound, r, reference);
    }
  }

  lemma NewBinding(db: Db, sha: Sha, after: Db, submitted: Event, bound: Stamp, r: Tasks.Request, reference: Reference)
    requires CheckpointInv(db, sha) && BindingInv(db) && r.taskId !in db.tasks && Fresh(db, bound)
    requires submitted.source == Tasks.SOURCE && submitted.id != bound.eventId
    requires after == db.(tasks := after.tasks, events := db.events + [submitted], transitions := after.transitions)
    ensures var o := Bind(after, bound, r, reference);
      if InsertReference(db, reference).Raised? then o == Raised(PayloadIntegrity)
      else
        && o.Done? && o.db.tasks == after.tasks && o.db.inputs == db.inputs[r.taskId := reference.id]
        && o.db.references == InsertReference(db, reference).db.references
  {
    hide CheckpointInv, AppendTo, Clashes, InsertReference, KeyUsed, IdUsed;
    assert r.taskId !in db.inputs;
    var e := BoundEvent(bound, r.taskId, reference, r.taskType);
    BoundKeyFree(db, sha, r.taskId);
    BoundNew(db.events, submitted, bound, e, r.taskId);
    AppendFresh(after.events, e);
    SameInsertion(db, after, reference);
  }

  lemma BoundNew(events: seq<Event>, submitted: Event, bound: Stamp, e: Event, t: string)
    requires !KeyUsed(events, SOURCE, Keys.Render(Keys.Bound(t))) && !IdUsed(events, bound.eventId)
    requires submitted.source != SOURCE && submitted.id != bound.eventId
    requires e.id == bound.eventId && e.source == SOURCE && e.dedupKey == Some(Keys.Render(Keys.Bound(t)))
    ensures !Clashes(events + [submitted], e)
  {
  }

  /** Inserting a reference looks at the references only. */
  lemma SameInsertion(db: Db, after: Db, reference: Reference)
    requires after.references == db.references
    ensures InsertReference(after, reference).Raised? <==> InsertReference(db, reference).Raised?
    ensures InsertReference(after, reference).Raised? ==> InsertReference(after, reference) == Raised(PayloadIntegrity)
    ensures InsertReference(after, reference).Done? ==>
      InsertReference(after, reference).db == after.(references := InsertReference(db, reference).db.references)
  {
  }

  lemma BoundKeyFree(db: Db, sha: Sha, t: string)
    requires CheckpointInv(db, sha) && t !in db.inputs
    ensures !KeyUsed(db.events, SOURCE, Keys.Render(Keys.Bound(t)))
  {
    if KeyUsed(db.events, SOURCE, Keys.Render(Keys.Bound(t))) {
      var i :| 0 <= i < |db.events| && db.events[i].source == SOURCE && db.events[i].dedupKey == Some(Keys.Render(Keys.Bound(t)));
      assert ExecAccounted(db, db.events[i].dedupKey);
      var k :| db.events[i].dedupKey == Some(Keys.Render(k))
        && match k
           case Checkpointed(b, n) => IsLink(db.checkpoints, b, n)
           case Bound(s) => s in db.inputs
           case _ => false;
      Keys.RenderInjective(k, Keys.Bound(t));
    }
  }

  /**
   Creating a task again never succeeds, not even with the identical request and input: the
   announcement of the binding has a new event identifier and the old deduplication key.
   */
  lemma CreateAgain(db: Db, sha: Sha, stamp: Stamp, bound: Stamp, r: Tasks.Request, reference: Reference, now: Time)
    requires Sound(db, sha) && Fresh(db, stamp) && Fresh(db, bound) && r.taskId in db.inputs
    ensures var o := CreateTask(db, stamp, bound, r, reference, now);
      && o.Raised?
      && (db.tasks[r.taskId].submission == Tasks.SubmissionOf(r) && db.tasks[r.taskId].idempotencyKey == r.idempotencyKey
          && InsertReference(db, reference).Done? && db.inputs[r.taskId] == reference.id
          ==> o.error == EventConflict)
  {
    hide Inv, CheckpointInv, AppendTo, CreateTask, Tasks.Submit;
    CreateUnfolds(db, stamp, bound, r, reference, now);
    SubmitExact(db, stamp, r, now);
    EventsDistinct(db);
    var e := BoundEvent(bound, r.taskId, reference, r.taskType);
    AppendKeeps(db.events, e);
    assert e !in db.events;
  }

  predicate SameRequest(task: Task, r: Tasks.Request) {
    task.submission == Tasks.SubmissionOf(r) && task.idempotencyKey == r.idempotencyKey
  }

  lemma LateBinding(db: Db, sha: Sha, bound: Stamp, r: Tasks.Request, reference: Reference)
    requires CheckpointInv(db, sha) && Fresh(db, bound) && r.taskId !in db.inputs
    ensures Bind(db, bound, r, reference).Done? <==> InsertReference(db, reference).Done?
  {
    hide CheckpointInv, AppendTo, InsertReference, KeyUsed, IdUsed;
    var e := BoundEvent(bound, r.taskId, reference, r.taskType);
    BoundKeyFree(db, sha, r.taskId);
    NewToLog(db.events, e);
    AppendFresh(db.events, e);
    SameInsertion(db, db, reference);
  }

  lemma NewToLog(events: seq<Event>, e: Event)
    requires e.dedupKey.Some? && !KeyUsed(events, e.source, e.dedupKey.value) && !IdUsed(events, e.id)
    ensures !Clashes(events, e)
  {
  }

  /**
   When a creation succeeds: the reference's place is free, and either the task is new and
   its idempotency key free, or the same request was submitted before and no input was ever
   bound to it. An identical creation that succeeded once is the case that this leaves out.
   */
  lemma CreateSucceeds(db: Db, sha: Sha, stamp: Stamp, bound: Stamp, r: Tasks.Request, reference: Reference, now: Time)
    requires Sound(db, sha) && Fresh(db, stamp) && Fresh(db, bound) && Apart(stamp, bound)
    ensures CreateTask(db, stamp, bound, r, reference, now).Done? <==>
      (InsertReference(db, reference).Done?
       && if r.taskId in db.tasks then SameRequest(db.tasks[r.taskId], r) && r.taskId !in db.inputs
          else !Tasks.KeyTaken(db.tasks, r.idempotencyKey))
  {
    hide Inv, CheckpointInv, Fresh, AppendTo, CreateTask, Tasks.Submit, Tasks.KeyTaken, InsertReference, Bind;
    if r.taskId !in db.tasks {
      CreateExact(db, sha, stamp, bound, r, reference, now);
    } else if r.taskId in db.inputs {
      CreateAgain(db, sha, stamp, bound, r, reference, now);
    } else {
      CreateUnfolds(db, stamp, bound, r, reference, now);
      SubmitExact(db, stamp, r, now);
      LateBinding(db, sha, bound, r, reference);
    }
  }
}
