/**
 Checkpoints and task inputs as they are written and read: the tables change in place, and
 each method is proved to do what its specification in Checkpoints says.
 */
module ExecutionState {
  import opened CheckpointInvariants
  import opened Checkpoints
  import opened Database
  import opened Repository
  import opened Tables
  import opened Wrappers
  import CheckpointEffects
  import EventLog
  import Json
  import Tasks

  class ExecutionStateRepository {
    const store: Store
    const events: EventBus
    const tasks: TaskRepository
    const sha: Sha

    constructor (store: Store, events: EventBus, tasks: TaskRepository, sha: Sha)
      requires events.store == store && tasks.store == store && tasks.Valid()
      ensures this.store == store && this.events == events && this.tasks == tasks && this.sha == sha && Valid()
    {
      this.store, this.events, this.tasks, this.sha := store, events, tasks, sha;
    }

    predicate Valid() {
      events.store == store && tasks.store == store && tasks.Valid()
    }

    /** INSERT OR IGNORE, then compare what is there with what was to be inserted. */
    method InsertReference(r: Reference) returns (done: Result<(), Error>)
      modifies store`references
      ensures done == Answer(Checkpoints.InsertReference(old(store.Snapshot()), r))
      ensures store.Snapshot() == Commit(old(store.Snapshot()), Checkpoints.InsertReference(old(store.Snapshot()), r))
    {
      if r.id !in store.references && !LocationTaken(store.references, r) {
        store.references := store.references[r.id := r];
      }
      if r.id !in store.references || store.references[r.id] != r {
        return Failure(PayloadIntegrity);
      }
      return Success(());
    }

    method CreateTaskWithin(stamp: Stamp, bound: Stamp, q: Tasks.Request, reference: Reference, now: Time)
      returns (r: Result<Task, Error>)
      requires Valid()
      modifies store
      ensures r == Answer(CreateTask(old(store.Snapshot()), stamp, bound, q, reference, now))
      ensures r.Success? ==> store.Snapshot() == CreateTask(old(store.Snapshot()), stamp, bound, q, reference, now).db
    {
      hide Tasks.Submit, Checkpoints.InsertReference, EventLog.Append;
      r := tasks.SubmitWithin(stamp, q, now);
      if r.Failure? {
        return;
      }
      var inserted := InsertReference(reference);
      if inserted.Failure? {
        return Failure(inserted.error);
      }
      if q.taskId in store.inputs && store.inputs[q.taskId] != reference.id {
        return Failure(PayloadIntegrity);
      }
      ghost var between := store.Snapshot();
      store.inputs := store.inputs[q.taskId := reference.id];
      assert store.Snapshot() == between.(inputs := between.inputs[q.taskId := reference.id]);
      var announced := events.Append(BoundEvent(bound, q.taskId, reference, q.taskType));
      if announced.Failure? {
        return Failure(announced.error);
      }
    }

    method Create(stamp: Stamp, bound: Stamp, q: Tasks.Request, reference: Reference, now: Time) returns (r: Result<Task, Error>)
      requires Valid()
      modifies store
      ensures r == Answer(CreateTask(old(store.Snapshot()), stamp, bound, q, reference, now))
      ensures store.Snapshot() == Commit(old(store.Snapshot()), CreateTask(old(store.Snapshot()), stamp, bound, q, reference, now))
    {
      hide CreateTask;
      var saved := store.Snapshot();
      r := CreateTaskWithin(stamp, bound, q, reference, now);
      if r.Failure? {
        store.Restore(saved);
      }
    }

    method CheckpointWithin(stamp: Stamp, lease: Lease, reference: Reference, step: string, versions: map<string, Json.Json>,
                            resumable: bool, now: Time) returns (r: Result<Checkpoint, Error>)
      requires Valid()
      modifies store
      ensures r == Answer(MakeCheckpoint(old(store.Snapshot()), sha, stamp, lease, reference, step, versions, resumable, now))
      ensures r.Success? ==>
        store.Snapshot() == MakeCheckpoint(old(store.Snapshot()), sha, stamp, lease, reference, step, versions, resumable, now).db
    {
      hide Tasks.Authoritative, Checkpoints.InsertReference, VersionsText, IdentifierOf, IntegrityOf, Chain, LastLink, EventLog.Append,
        CheckpointClashes, Body;
      if step == "" || |step| > 256 {
        return Failure(InvalidPayload);
      }
      if !Tasks.Authoritative(store.Snapshot(), lease, now) {
        return Failure(StaleLease);
      }
      var (last, parent) := LastLink(Chain(store.checkpoints, lease.taskId));
      var inserted := InsertReference(reference);
      if inserted.Failure? {
        return Failure(inserted.error);
      }
      var text := VersionsText(versions);
      if text.None? {
        return Failure(InvalidPayload);
      }
      var draft := Draft(stamp, lease, reference, step, text.value, resumable, last + 1, parent, now);
      var id := IdentifierOf(sha, Body(draft, versions, reference.contentHash));
      if id.None? {
        return Failure(InvalidPayload);
      }
      var c := draft.(id := id.value, integrityHash := IntegrityOf(sha, id.value, parent));
      var announced := events.Append(CheckpointEvent(stamp, c, reference.contentHash));
      if announced.Failure? {
        return Failure(announced.error);
      }
      if CheckpointClashes(store.checkpoints, c) {
        return Failure(IntegrityError);
      }
      store.checkpoints := store.checkpoints + [c];
      return Success(c);
    }

    method Make(stamp: Stamp, lease: Lease, reference: Reference, step: string, versions: map<string, Json.Json>,
                resumable: bool, now: Time) returns (r: Result<Checkpoint, Error>)
      requires Valid()
      modifies store
      ensures r == Answer(MakeCheckpoint(old(store.Snapshot()), sha, stamp, lease, reference, step, versions, resumable, now))
      ensures store.Snapshot() == Commit(old(store.Snapshot()),
        MakeCheckpoint(old(store.Snapshot()), sha, stamp, lease, reference, step, versions, resumable, now))
    {
      hide MakeCheckpoint;
      var saved := store.Snapshot();
      r := CheckpointWithin(stamp, lease, reference, step, versions, resumable, now);
      if r.Failure? {
        store.Restore(saved);
      }
    }

    /** In a database that keeps its invariants, the latest checkpoint is the last one written for the task. */
    method Latest(t: string) returns (r: Result<Option<Checkpoint>, Error>)
      requires CheckpointInv(store.Snapshot(), sha)
      ensures var chain := Chain(store.checkpoints, t);
        r == Success(if chain == [] then None else Some(chain[|chain| - 1]))
    {
      hide CheckpointInv, ChainOk;
      r := LatestCheckpoint(store.Snapshot(), sha, t);
      CheckpointEffects.ChainReadable(store.Snapshot(), sha, t);
    }
  }
}
