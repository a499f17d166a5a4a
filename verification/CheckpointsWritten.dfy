/**
 What a committed checkpoint and a committed creation write, column by column, and the texts
 that the hashes of a checkpoint are taken of.
 */
module CheckpointsWritten {
  import opened CheckpointInvariants
  import opened Checkpoints
  import opened EventLog
  import opened Inputs
  import opened Json
  import opened TaskInvariants
  import opened Tables
  import opened Text
  import opened Wrappers
  import Keys
  import Payloads
  import TaskEffects
  import Tasks
  import Utf8

  /** The record that a checkpoint's identifier is the hash of. */
  function RecordOf(t: string, a: string, fence: nat, number: nat, step: string, versions: map<string, Json>, referenceId: string,
                    payloadHash: string, parent: string, resumable: bool, schema: int): Json
  {
    Obj(map["task_id" := Str(t), "attempt_id" := Str(a), "fence_token" := Int(fence), "sequence" := Int(number),
            "workflow_step" := Str(step), "resource_versions" := Obj(versions), "reference_id" := Str(referenceId),
            "payload_hash" := Str(payloadHash), "parent_checkpoint_hash" := Str(parent), "resumable" := Bool(resumable),
            "schema_version" := Int(schema)])
  }

  /** A text in canonical bytes is printed as it is. */
  lemma CanonicalPrint(v: Json, maxBytes: nat)
    requires Payloads.CanonicalBytes(Payloads.Lift(v), maxBytes).Some?
    ensures Payloads.CanonicalBytes(Payloads.Lift(v), maxBytes) == Some(Utf8.Encode(Dumps(v)))
    ensures |Utf8.Encode(Dumps(v))| <= maxBytes
  {
    Payloads.ValidateLift(v, 0);
  }

  /** The next link: under the lease, after the last link, with the identifier and hash of its record. */
  ghost predicate IsNextLink(db: Db, sha: Sha, c: Checkpoint, stamp: Stamp, lease: Lease, reference: Reference, step: string,
                             versions: map<string, Json>, resumable: bool, now: Time)
  {
    var chain := Chain(db.checkpoints, lease.taskId);
    var parent := if chain == [] then GENESIS else chain[|chain| - 1].integrityHash;
    var number := if chain == [] then 1 else chain[|chain| - 1].number + 1;
    var record := RecordOf(lease.taskId, lease.attemptId, lease.fence, number, step, versions, reference.id, reference.contentHash,
                           parent, resumable, 1);
    && c == Checkpoint(c.id, lease.taskId, lease.attemptId, lease.fence, number, step, Dumps(Obj(versions)), reference.id, parent,
                       c.integrityHash, resumable, 1, now, stamp.eventId)
    && c.id == "checkpoint-" + sha(Utf8.Encode(Dumps(record)))
    && c.integrityHash == sha(Utf8.Encode("harness.checkpoint/v1" + "\U{0}" + c.id + "\U{0}" + parent))
    && |Utf8.Encode(Dumps(record))| <= 65536 && |Utf8.Encode(Dumps(Obj(versions)))| <= 16384 && 0 < |step| <= 256
  }

  /** A committed checkpoint is the next link; its event tells it, and its reference is known. */
  lemma CheckpointWrites(db: Db, sha: Sha, stamp: Stamp, lease: Lease, reference: Reference, step: string, versions: map<string, Json>,
                         resumable: bool, now: Time)
    requires Inv(db) && CheckpointInv(db, sha) && !IdUsed(db.events, stamp.eventId)
    requires MakeCheckpoint(db, sha, stamp, lease, reference, step, versions, resumable, now).Done?
    ensures var o := MakeCheckpoint(db, sha, stamp, lease, reference, step, versions, resumable, now);
      var c := o.value;
      var e := Event(stamp.eventId, "task.checkpoint.created", 1, "kernel.execution-state", Some(lease.taskId), lease.taskId, None,
                     stamp.occurredAt, CheckpointMade(lease.attemptId, lease.fence, c.id, c.number, reference.contentHash, step), "{}",
                     Some(lease.attemptId + ":" + "checkpoint" + ":" + Decimal(c.number)));
      && IsNextLink(db, sha, c, stamp, lease, reference, step, versions, resumable, now)
      && o.db == db.(references := db.references[reference.id := reference], events := db.events + [e],
                     checkpoints := db.checkpoints + [c])
  {
    hide Inv, CheckpointInv, Tasks.Authoritative, AppendTo, MakeCheckpoint, IsNextLink, NextLink, InsertReference;
    MakeUnfolds(db, sha, stamp, lease, reference, step, versions, resumable, now);
    StepFits(db, sha, stamp, lease, reference, step, versions, resumable, now);
    Inserted(db, reference);
    EventsDistinct(db);
    NewAppended(db.events,
      CheckpointEvent(stamp, MakeCheckpoint(db, sha, stamp, lease, reference, step, versions, resumable, now).value, reference.contentHash));
    LinkWrites(db, sha, stamp, lease, reference, step, versions, resumable, now);
  }

  lemma StepFits(db: Db, sha: Sha, stamp: Stamp, lease: Lease, reference: Reference, step: string, versions: map<string, Json>,
                 resumable: bool, now: Time)
    requires MakeCheckpoint(db, sha, stamp, lease, reference, step, versions, resumable, now).Done?
    ensures 0 < |step| <= 256
  {
    hide Tasks.Authoritative, InsertReference, AppendTo, CheckpointClashes;
  }

  lemma NewAppended(events: seq<Event>, e: Event)
    requires DistinctEvents(events) && AppendTo(events, e).Success? && !IdUsed(events, e.id)
    ensures AppendTo(events, e).value.0 == events + [e]
  {
    AppendKeeps(events, e);
    hide AppendTo;
  }

  lemma LinkWrites(db: Db, sha: Sha, stamp: Stamp, lease: Lease, reference: Reference, step: string, versions: map<string, Json>,
                   resumable: bool, now: Time)
    requires 0 < |step| <= 256 && NextLink(db, sha, stamp, lease, reference, step, versions, resumable, now).Some?
    ensures var c := NextLink(db, sha, stamp, lease, reference, step, versions, resumable, now).value;
      && IsNextLink(db, sha, c, stamp, lease, reference, step, versions, resumable, now)
      && c.taskId == lease.taskId && c.attemptId == lease.attemptId && c.fence == lease.fence && c.workflowStep == step
  {
    hide Chain, Payloads.CanonicalBytes, Payloads.Lift, Dumps, Utf8.Encode;
    var c := NextLink(db, sha, stamp, lease, reference, step, versions, resumable, now).value;
    CanonicalPrint(Body(c, versions, reference.contentHash), MAX_BODY);
  }

  // ----- reading

  /** The row holds these versions, and its identifier is the hash of its record. */
  ghost predicate IsOfRecord(sha: Sha, c: Checkpoint, versions: map<string, Json>, payloadHash: string) {
    var record := RecordOf(c.taskId, c.attemptId, c.fence, c.number, c.workflowStep, versions, c.referenceId, payloadHash,
                           c.parentHash, c.resumable, c.schemaVersion);
    && c.resourceVersions == Dumps(Obj(versions)) && |Utf8.Encode(c.resourceVersions)| <= 16384
    && Payloads.Fits(record, 0) && |Utf8.Encode(Dumps(record))| <= 65536
    && c.id == "checkpoint-" + sha(Utf8.Encode(Dumps(record)))
  }

  lemma VersionsRead(text: string, versions: map<string, Json>)
    ensures ReadVersions(text) == Some(versions) <==> text == Dumps(Obj(versions)) && |Utf8.Encode(text)| <= 16384
  {
    LoadsDumps(Obj(versions));
    hide Loads, Dumps, Utf8.Encode;
  }

  lemma RecordExact(sha: Sha, c: Checkpoint, versions: map<string, Json>, payloadHash: string)
    ensures ReadVersions(c.resourceVersions) == Some(versions) && IdentifierOf(sha, Body(c, versions, payloadHash)) == Some(c.id)
      <==> IsOfRecord(sha, c, versions, payloadHash)
  {
    hide ReadVersions, Dumps, Utf8.Encode, Payloads.Fits, Payloads.ValidateJson, Payloads.Lift;
    VersionsRead(c.resourceVersions, versions);
    var body := Body(c, versions, payloadHash);
    Payloads.ValidateLift(body, 0);
    LiftedObject(body);
  }

  lemma LiftedObject(v: Json)
    requires v.Obj?
    ensures Payloads.Lift(v).PMapping?
  {
  }

  /**
   A stored row is accepted as a link exactly if it stands at its number after its parent, its
   identifier and hash are those of its record, and its reference and its object are stored for
   its task, attempt and fence.
   */
  lemma LinkExact(db: Db, sha: Sha, c: Checkpoint, number: nat, parent: string)
    ensures LinkOk(db, sha, c, number, parent) <==>
      && c.number == number && c.parentHash == parent && c.referenceId in db.references
      && var reference := db.references[c.referenceId];
      && (exists versions :: IsOfRecord(sha, c, versions, reference.contentHash))
      && c.integrityHash == sha(Utf8.Encode("harness.checkpoint/v1" + "\U{0}" + c.id + "\U{0}" + c.parentHash))
      && reference.objectKey in db.objects
      && db.objects[reference.objectKey] == StoredObject(reference, CheckpointOf(c.taskId, c.attemptId, c.fence))
  {
    hide ReadVersions, IdentifierOf, Body, IsOfRecord, Utf8.Encode;
    if c.referenceId in db.references {
      forall versions
        ensures ReadVersions(c.resourceVersions) == Some(versions)
            && IdentifierOf(sha, Body(c, versions, db.references[c.referenceId].contentHash)) == Some(c.id)
          <==> IsOfRecord(sha, c, versions, db.references[c.referenceId].contentHash)
      {
        RecordExact(sha, c, versions, db.references[c.referenceId].contentHash);
      }
    }
  }

  // ----- creation

  /** A committed creation: the task as its submission makes it, the input it is bound to, and the announcement. */
  lemma CreateWrites(db: Db, sha: Sha, stamp: Stamp, bound: Stamp, r: Tasks.Request, reference: Reference, now: Time)
    requires Sound(db, sha) && TaskEffects.Fresh(db, stamp) && TaskEffects.Fresh(db, bound) && TaskEffects.Apart(stamp, bound)
    requires r.taskId !in db.tasks && CreateTask(db, stamp, bound, r, reference, now).Done?
    ensures var o, submitted := CreateTask(db, stamp, bound, r, reference, now), Tasks.Submit(db, stamp, r, now);
      var t := r.taskId;
      var e := Event(bound.eventId, "task.payload.bound", 1, "kernel.execution-state", Some(t), t, None, bound.occurredAt,
                     PayloadBound(reference.id, reference.contentHash, r.taskType), "{}", Some(t + ":" + "payload" + ":" + "input"));
      submitted.Done? && o == Done(
        submitted.db.(references := db.references[reference.id := reference], inputs := db.inputs[t := reference.id],
                      events := submitted.db.events + [e]), submitted.value)
  {
    hide Inv, CheckpointInv, TaskEffects.Fresh, AppendTo, CreateTask, Tasks.Submit, InsertReference;
    CreateUnfolds(db, stamp, bound, r, reference, now);
    TaskEffects.SubmitExact(db, stamp, r, now);
    NoInput(db, r.taskId);
    var submitted := Tasks.Submit(db, stamp, r, now).db;
    var first := Tasks.KernelEvent(stamp, "task.created", r.taskId, Keys.Created(r.taskId), Submitted(Tasks.SubmissionOf(r)));
    BoundKeyFree(db, sha, r.taskId);
    NotUsed(db, bound);
    BoundNew(db.events, first, bound, BoundEvent(bound, r.taskId, reference, r.taskType), r.taskId);
    AppendFresh(submitted.events, BoundEvent(bound, r.taskId, reference, r.taskType));
    Inserted(submitted, reference);
  }

  lemma NotUsed(db: Db, bound: Stamp)
    requires TaskEffects.Fresh(db, bound)
    ensures !IdUsed(db.events, bound.eventId)
  {
  }

  lemma NoInput(db: Db, t: string)
    requires BindingInv(db) && t !in db.tasks
    ensures t !in db.inputs
  {
  }

  /** An inserted reference is there, and no other has changed. */
  lemma Inserted(db: Db, reference: Reference)
    ensures InsertReference(db, reference).Done? ==>
      InsertReference(db, reference) == Done(db.(references := db.references[reference.id := reference]), ())
    ensures InsertReference(db, reference).Done? <==>
      if reference.id in db.references then db.references[reference.id] == reference
      else forall id :: id in db.references ==>
        !(db.references[id].backendId == reference.backendId && db.references[id].objectKey == reference.objectKey)
  {
    if reference.id in db.references && db.references[reference.id] == reference {
      assert db.references[reference.id := reference] == db.references;
    }
  }
}
