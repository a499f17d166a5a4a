/**
 Fenced checkpoints and immutable task inputs (harness2/kernel/execution_state.py). The
 hash is a parameter: any function from bytes to text.
 */
module Checkpoints {
  import opened Json
  import opened Tables
  import opened Wrappers
  import EventLog
  import Keys
  import Payloads
  import Tasks
  import Utf8

  type Sha = seq<Utf8.Byte> -> string

  const SOURCE: string := "kernel.execution-state"
  const GENESIS: string := "0000000000000000000000000000000000000000000000000000000000000000"
  const MAX_VERSIONS: nat := 16 * 1024
  const MAX_BODY: nat := 64 * 1024

  // ----- the object store

  /** Objects are written once: the same object again is accepted, a different one is not. */
  function Put(db: Db, stored: StoredObject): Outcome<Reference> {
    var key := stored.reference.objectKey;
    if key in db.objects && db.objects[key] != stored then Raised(PayloadIntegrity)
    else Done(db.(objects := db.objects[key := stored]), stored.reference)
  }

  predicate Authenticates(db: Db, reference: Reference, binding: Binding) {
    reference.objectKey in db.objects && db.objects[reference.objectKey] == StoredObject(reference, binding)
  }

  predicate LocationTaken(references: map<string, Reference>, r: Reference) {
    exists id :: id in references && references[id].backendId == r.backendId && references[id].objectKey == r.objectKey
  }

  /** `_insert_reference`: INSERT OR IGNORE under two unique keys, then compare. */
  function InsertReference(db: Db, r: Reference): Outcome<()> {
    if r.id in db.references then
      if db.references[r.id] == r then Done(db, ()) else Raised(PayloadIntegrity)
    else if LocationTaken(db.references, r) then Raised(PayloadIntegrity)
    else Done(db.(references := db.references[r.id := r]), ())
  }

  // ----- task creation

  function BoundEvent(stamp: Stamp, t: string, reference: Reference, taskType: string): Event {
    Event(stamp.eventId, "task.payload.bound", 1, SOURCE, Some(t), t, None, stamp.occurredAt,
          PayloadBound(reference.id, reference.contentHash, taskType), "{}", Some(Keys.Render(Keys.Bound(t))))
  }

  function CreateTask(db: Db, stamp: Stamp, bound: Stamp, r: Tasks.Request, reference: Reference, now: Time): Outcome<Task> {
    match Tasks.Submit(db, stamp, r, now)
    case Raised(e) => Raised(e)
    case Done(db1, task) =>
      match InsertReference(db1, reference)
      case Raised(e) => Raised(e)
      case Done(db2, _) =>
        if r.taskId in db2.inputs && db2.inputs[r.taskId] != reference.id then Raised(PayloadIntegrity)
        else
          match EventLog.Append(db2.(inputs := db2.inputs[r.taskId := reference.id]),
                                BoundEvent(bound, r.taskId, reference, r.taskType))
          case Raised(e) => Raised(e)
          case Done(db3, _) => Done(db3, task)
  }

  // ----- checkpoints

  function Chain(rows: seq<Checkpoint>, t: string): seq<Checkpoint> {
    if rows == [] then []
    else
      var n := |rows| - 1;
      Chain(rows[..n], t) + if rows[n].taskId == t then [rows[n]] else []
  }

  /** The record a checkpoint identifier is the hash of. */
  function Body(c: Checkpoint, versions: map<string, Json>, payloadHash: string): Json {
    Obj(map[
      "task_id" := Str(c.taskId), "attempt_id" := Str(c.attemptId), "fence_token" := Int(c.fence),
      "sequence" := Int(c.number), "workflow_step" := Str(c.workflowStep), "resource_versions" := Obj(versions),
      "reference_id" := Str(c.referenceId), "payload_hash" := Str(payloadHash),
      "parent_checkpoint_hash" := Str(c.parentHash), "resumable" := Bool(c.resumable),
      "schema_version" := Int(c.schemaVersion)])
  }

  function IdentifierOf(sha: Sha, body: Json): Option<string> {
    match Payloads.CanonicalBytes(Payloads.Lift(body), MAX_BODY)
    case None => None
    case Some(bytes) => Some("checkpoint-" + sha(bytes))
  }

  function IntegrityText(id: string, parent: string): string {
    "harness.checkpoint/v1" + "\U{0}" + id + "\U{0}" + parent
  }

  function IntegrityOf(sha: Sha, id: string, parent: string): string {
    sha(Utf8.Encode(IntegrityText(id, parent)))
  }

  /** canonical_json of a mapping under the limit for resource versions. */
  function VersionsText(versions: map<string, Json>): Option<string> {
    var text := Dumps(Obj(versions));
    if |Utf8.Encode(text)| > MAX_VERSIONS then None else Some(text)
  }

  function LastLink(chain: seq<Checkpoint>): (nat, string) {
    if chain == [] then (0, GENESIS) else (chain[|chain| - 1].number, chain[|chain| - 1].integrityHash)
  }

  /** The row the next checkpoint of a lease will have, except for its identifier and hashes. */
  function Draft(stamp: Stamp, lease: Lease, reference: Reference, step: string, text: string, resumable: bool,
                 number: nat, parent: string, now: Time): Checkpoint
  {
    Checkpoint("", lease.taskId, lease.attemptId, lease.fence, number, step, text, reference.id, parent, "",
               resumable, 1, now, stamp.eventId)
  }

  function CheckpointEvent(stamp: Stamp, c: Checkpoint, payloadHash: string): Event {
    Event(stamp.eventId, "task.checkpoint.created", 1, SOURCE, Some(c.taskId), c.taskId, None, stamp.occurredAt,
          CheckpointMade(c.attemptId, c.fence, c.id, c.number, payloadHash, c.workflowStep), "{}",
          Some(Keys.Render(Keys.Checkpointed(c.attemptId, c.number))))
  }

  /** The unique columns of the checkpoint table. */
  predicate CheckpointClashes(rows: seq<Checkpoint>, c: Checkpoint) {
    exists i :: 0 <= i < |rows|
      && (rows[i].id == c.id || rows[i].eventId == c.eventId
          || (rows[i].number == c.number && (rows[i].taskId == c.taskId || rows[i].attemptId == c.attemptId)))
  }

  function MakeCheckpoint(db: Db, sha: Sha, stamp: Stamp, lease: Lease, reference: Reference, step: string,
                          versions: map<string, Json>, resumable: bool, now: Time): Outcome<Checkpoint>
  {
    if step == "" || |step| > 256 then Raised(InvalidPayload)
    else if !Tasks.Authoritative(db, lease, now) then Raised(StaleLease)
    else
      match InsertReference(db, reference)
      case Raised(e) => Raised(e)
      case Done(db1, _) =>
        var (last, parent) := LastLink(Chain(db.checkpoints, lease.taskId));
        var text := VersionsText(versions);
        if text.None? then Raised(InvalidPayload)
        else
          var draft := Draft(stamp, lease, reference, step, text.value, resumable, last + 1, parent, now);
          match IdentifierOf(sha, Body(draft, versions, reference.contentHash))
          case None => Raised(InvalidPayload)
          case Some(id) =>
            var c := draft.(id := id, integrityHash := IntegrityOf(sha, id, parent));
            match EventLog.Append(db1, CheckpointEvent(stamp, c, reference.contentHash))
            case Raised(e) => Raised(e)
            case Done(db2, _) =>
              if CheckpointClashes(db2.checkpoints, c) then Raised(IntegrityError)
              else Done(db2.(checkpoints := db2.checkpoints + [c]), c)
  }

  // ----- reading the chain back

  /** The stored text of the resource versions, when it is the canonical text of an object. */
  function ReadVersions(text: string): Option<map<string, Json>> {
    match Loads(text)
    case Malformed => None
    case Loaded(v) => if v.Obj? && VersionsText(v.fields) == Some(text) then Some(v.fields) else None
  }

  /** One row is the link at this position, after the link with hash parent. */
  predicate LinkOk(db: Db, sha: Sha, c: Checkpoint, number: nat, parent: string) {
    && c.number == number && c.parentHash == parent
    && c.referenceId in db.references
    && ReadVersions(c.resourceVersions).Some?
    && var reference := db.references[c.referenceId];
    && IdentifierOf(sha, Body(c, ReadVersions(c.resourceVersions).value, reference.contentHash)) == Some(c.id)
    && IntegrityOf(sha, c.id, c.parentHash) == c.integrityHash
    && Authenticates(db, reference, CheckpointOf(c.taskId, c.attemptId, c.fence))
  }

  function ParentAt(chain: seq<Checkpoint>, i: nat): string
    requires i <= |chain|
  {
    if i == 0 then GENESIS else chain[i - 1].integrityHash
  }

  ghost predicate ChainOk(db: Db, sha: Sha, chain: seq<Checkpoint>) {
    forall i: nat :: i < |chain| ==> LinkOk(db, sha, chain[i], i + 1, ParentAt(chain, i))
  }

  /** The rows that the join with the reference table keeps. */
  function Joined(db: Db, chain: seq<Checkpoint>): seq<Checkpoint> {
    if chain == [] then []
    else
      var n := |chain| - 1;
      Joined(db, chain[..n]) + if chain[n].referenceId in db.references then [chain[n]] else []
  }

  /** `latest_checkpoint` with payload verification: the last link of a chain in which every link holds. */
  method LatestCheckpoint(db: Db, sha: Sha, t: string) returns (r: Result<Option<Checkpoint>, Error>)
    ensures var chain := Joined(db, Chain(db.checkpoints, t));
      if ChainOk(db, sha, chain)
      then r == Success(if chain == [] then None else Some(chain[|chain| - 1]))
      else r == Failure(PayloadIntegrity)
  {
    hide LinkOk, Joined, Chain;
    var rows := Joined(db, Chain(db.checkpoints, t));
    if rows == [] {
      return Success(None);
    }
    var parent := GENESIS;
    var result: Option<Checkpoint> := None;
    for i := 0 to |rows|
      invariant parent == ParentAt(rows, i)
      invariant result == if i == 0 then None else Some(rows[i - 1])
      invariant forall j: nat :: j < i ==> LinkOk(db, sha, rows[j], j + 1, ParentAt(rows, j))
    {
      var row := rows[i];
      if !LinkOk(db, sha, row, i + 1, parent) {
        return Failure(PayloadIntegrity);
      }
      parent := row.integrityHash;
      result := Some(row);
    }
    return Success(result);
  }
}
