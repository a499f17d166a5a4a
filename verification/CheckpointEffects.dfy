/**
 What the execution state does in a database that keeps its invariants: chains read back
 to their last link, a checkpoint is refused only for its caller's reasons, and a task
 input is bound once.
 */
module CheckpointEffects {
  import opened CheckpointInvariants
  import opened Checkpoints
  import opened EventLog
  import opened Json
  import opened TaskInvariants
  import opened Tables
  import opened Wrappers
  import Binding = CheckpointBinding
  import Keys
  import Tasks

  lemma {:induction false} JoinKeepsAll(db: Db, chain: seq<Checkpoint>)
    requires forall i :: 0 <= i < |chain| ==> chain[i].referenceId in db.references
    ensures Joined(db, chain) == chain
  {
    if chain != [] {
      JoinKeepsAll(db, chain[..|chain| - 1]);
    }
  }

  /** Every stored chain passes its verification, so that reading it answers with its last link. */
  lemma ChainReadable(db: Db, sha: Sha, t: string)
    requires CheckpointInv(db, sha)
    ensures var chain := Chain(db.checkpoints, t);
      Joined(db, chain) == chain && ChainOk(db, sha, chain)
    ensures var chain := Chain(db.checkpoints, t);
      forall i :: 0 <= i < |chain| ==> chain[i].taskId == t && chain[i].number == i + 1
    ensures forall c :: c in db.checkpoints && c.taskId == t ==> c in Chain(db.checkpoints, t)
  {
    assert ChainInv(db, sha, t);
    var chain := Chain(db.checkpoints, t);
    forall i | 0 <= i < |chain|
      ensures chain[i].number == i + 1 && chain[i].referenceId in db.references
    {
      assert LinkOk(db, sha, chain[i], i + 1, ParentAt(chain, i));
    }
    ChainMembers(db.checkpoints, t);
    JoinKeepsAll(db, chain);
  }

  /** The links of one task carry different numbers. */
  lemma LinkNumbers(db: Db, sha: Sha, i: nat)
    requires CheckpointInv(db, sha) && i < |db.checkpoints|
    ensures 1 <= db.checkpoints[i].number <= |Chain(db.checkpoints, db.checkpoints[i].taskId)|
  {
    ChainReadable(db, sha, db.checkpoints[i].taskId);
    assert db.checkpoints[i] in Chain(db.checkpoints, db.checkpoints[i].taskId);
  }

  lemma NoSuchLink(db: Db, sha: Sha, a: string, t: string)
    requires CheckpointInv(db, sha) && a in db.attempts && db.attempts[a].taskId == t
    ensures !IsLink(db.checkpoints, a, |Chain(db.checkpoints, t)| + 1)
  {
    hide ChainInv;
    var n := |Chain(db.checkpoints, t)| + 1;
    if IsLink(db.checkpoints, a, n) {
      var i :| 0 <= i < |db.checkpoints| && db.checkpoints[i].attemptId == a && db.checkpoints[i].number == n;
      assert WrittenUnder(db, db.checkpoints[i]);
      LinkNumbers(db, sha, i);
    }
  }

  /** The next link of a chain is new to the event log. */
  lemma LinkKeyFree(db: Db, sha: Sha, a: string, t: string)
    requires CheckpointInv(db, sha) && a in db.attempts && db.attempts[a].taskId == t
    ensures !KeyUsed(db.events, SOURCE, Keys.Render(Keys.Checkpointed(a, |Chain(db.checkpoints, t)| + 1)))
  {
    NoSuchLink(db, sha, a, t);
    hide ChainInv, WrittenUnder;
    var key := Keys.Checkpointed(a, |Chain(db.checkpoints, t)| + 1);
    if KeyUsed(db.events, SOURCE, Keys.Render(key)) {
      var i :| 0 <= i < |db.events| && db.events[i].source == SOURCE && db.events[i].dedupKey == Some(Keys.Render(key));
      assert ExecAccounted(db, db.events[i].dedupKey);
      var k :| db.events[i].dedupKey == Some(Keys.Render(k))
        && match k
           case Checkpointed(b, n) => IsLink(db.checkpoints, b, n)
           case Bound(s) => s in db.inputs
           case _ => false;
      Keys.RenderInjective(k, key);
    }
  }

  /** A stored row is readable, and its identifier is the hash of its record. */
  lemma StoredLink(db: Db, sha: Sha, d: Checkpoint)
    requires CheckpointInv(db, sha) && d in db.checkpoints
    ensures Binding.Readable(db, d) && IdentifierOf(sha, Binding.BodyOf(db, d)) == Some(d.id)
    ensures d.number <= |Chain(db.checkpoints, d.taskId)|
  {
    hide WrittenUnder, IdentifierOf, IntegrityOf, Body;
    ChainReadable(db, sha, d.taskId);
    var chain := Chain(db.checkpoints, d.taskId);
    var n: nat :| n < |chain| && chain[n] == d;
    assert LinkOk(db, sha, d, n + 1, ParentAt(chain, n));
  }

  /** The hash takes this record and a different stored one to the same digest. */
  ghost predicate RecordCollides(db: Db, sha: Sha, record: Json) {
    exists d :: d in db.checkpoints && Binding.Readable(db, d) && SameDigest(sha, Binding.BodyOf(db, d), record)
  }

  predicate SameDigest(sha: Sha, a: Json, b: Json) {
    Binding.BodyBytes(a) != Binding.BodyBytes(b) && sha(Binding.BodyBytes(a)) == sha(Binding.BodyBytes(b))
  }

  lemma SameIdentifier(sha: Sha, a: Json, b: Json)
    requires IdentifierOf(sha, a).Some? && IdentifierOf(sha, b).Some? && a != b
    ensures IdentifierOf(sha, a) == IdentifierOf(sha, b) <==> SameDigest(sha, a, b)
  {
    Binding.IdentifierBytes(sha, a);
    Binding.IdentifierBytes(sha, b);
    if IdentifierOf(sha, a) == IdentifierOf(sha, b) {
      Binding.PrefixCancels("checkpoint-", sha(Binding.BodyBytes(a)), sha(Binding.BodyBytes(b)));
    }
    if Binding.BodyBytes(a) == Binding.BodyBytes(b) {
      Binding.EncodeInjective(Dumps(a), Dumps(b));
      DumpsInjective(a, b);
    }
  }

  /** The row is about to be the next link of its chain. */
  ghost predicate IsNext(db: Db, sha: Sha, c: Checkpoint, record: Json) {
    && c.attemptId in db.attempts && db.attempts[c.attemptId].taskId == c.taskId
    && c.number == |Chain(db.checkpoints, c.taskId)| + 1
    && IdentifierOf(sha, record) == Some(c.id)
    && exists versions, payloadHash :: record == Body(c, versions, payloadHash)
  }

  /** The next link has the identifier of a stored one exactly when the hash collides on their records. */
  lemma IdentifierNew(db: Db, sha: Sha, c: Checkpoint, record: Json, d: Checkpoint)
    requires CheckpointInv(db, sha) && IsNext(db, sha, c, record) && d in db.checkpoints
    ensures Binding.Readable(db, d) && (d.id == c.id <==> SameDigest(sha, Binding.BodyOf(db, d), record))
  {
    hide CheckpointInv, IdentifierOf, Body, Chain, SameDigest, ReadVersions;
    StoredLink(db, sha, d);
    if Binding.BodyOf(db, d) == record {
      var versions, payloadHash :| record == Body(c, versions, payloadHash);
      Binding.BodyInjective(c, versions, payloadHash, d, ReadVersions(d.resourceVersions).value,
                            db.references[d.referenceId].contentHash);
    } else {
      SameIdentifier(sha, Binding.BodyOf(db, d), record);
    }
  }

  lemma ClashExact(db: Db, sha: Sha, c: Checkpoint, record: Json)
    requires CheckpointInv(db, sha) && IsNext(db, sha, c, record) && !IdUsed(db.events, c.eventId)
    ensures CheckpointClashes(db.checkpoints, c) <==> RecordCollides(db, sha, record)
  {
    hide ChainInv, IdentifierOf, Body, Chain, SameDigest, Binding.Readable, Binding.BodyOf, WrittenUnder;
    forall i | 0 <= i < |db.checkpoints|
      ensures db.checkpoints[i].eventId != c.eventId
      ensures db.checkpoints[i].number == c.number ==>
        db.checkpoints[i].taskId != c.taskId && db.checkpoints[i].attemptId != c.attemptId
    {
      NotSameNumber(db, sha, c, record, i);
    }
    forall d | d in db.checkpoints
      ensures Binding.Readable(db, d) && (d.id == c.id <==> SameDigest(sha, Binding.BodyOf(db, d), record))
    {
      IdentifierNew(db, sha, c, record, d);
    }
  }

  lemma NotSameNumber(db: Db, sha: Sha, c: Checkpoint, record: Json, i: nat)
    requires CheckpointInv(db, sha) && IsNext(db, sha, c, record) && !IdUsed(db.events, c.eventId) && i < |db.checkpoints|
    ensures db.checkpoints[i].eventId != c.eventId
    ensures db.checkpoints[i].number == c.number ==>
      db.checkpoints[i].taskId != c.taskId && db.checkpoints[i].attemptId != c.attemptId
  {
    hide ChainInv, IdentifierOf, Body, Chain;
    assert WrittenUnder(db, db.checkpoints[i]);
    LinkNumbers(db, sha, i);
  }

  /** The record of the link that a checkpoint would write. */
  function NextRecord(db: Db, sha: Sha, stamp: Stamp, lease: Lease, reference: Reference, step: string,
                      versions: map<string, Json>, resumable: bool, now: Time): Option<Json>
  {
    match NextLink(db, sha, stamp, lease, reference, step, versions, resumable, now)
    case None => None
    case Some(c) => Some(Body(c, versions, reference.contentHash))
  }

  /** The record does not cover the identifier and the hash that are made from it. */
  lemma FinishedBody(sha: Sha, draft: Checkpoint, id: string, versions: map<string, Json>, payloadHash: string)
    ensures Body(Finished(sha, draft, id), versions, payloadHash) == Body(draft, versions, payloadHash)
  {
  }

  /**
   With a new event identifier, a checkpoint under a lease in force is refused only because
   its reference is taken, because its texts are too long, or because the hash takes its
   record to the digest of a different stored one.
   */
  lemma MakeExact(db: Db, sha: Sha, stamp: Stamp, lease: Lease, reference: Reference, step: string,
                  versions: map<string, Json>, resumable: bool, now: Time)
    requires Inv(db) && CheckpointInv(db, sha) && !IdUsed(db.events, stamp.eventId)
    ensures MakeCheckpoint(db, sha, stamp, lease, reference, step, versions, resumable, now) ==
      var next := NextLink(db, sha, stamp, lease, reference, step, versions, resumable, now);
      var record := NextRecord(db, sha, stamp, lease, reference, step, versions, resumable, now);
      if step == "" || |step| > 256 then Raised(InvalidPayload)
      else if !Tasks.Authoritative(db, lease, now) then Raised(StaleLease)
      else if InsertReference(db, reference).Raised? then Raised(PayloadIntegrity)
      else if next.None? then Raised(InvalidPayload)
      else if RecordCollides(db, sha, record.value) then Raised(IntegrityError)
      else
        Done(InsertReference(db, reference).db.(
               events := db.events + [CheckpointEvent(stamp, next.value, reference.contentHash)],
               checkpoints := db.checkpoints + [next.value]),
             next.value)
  {
    hide CheckpointInv, Inv, AppendTo, Tasks.Authoritative, CheckpointClashes, RecordCollides, NextLink, MakeCheckpoint;
    MakeByNext(db, sha, stamp, lease, reference, step, versions, resumable, now);
    var next := NextLink(db, sha, stamp, lease, reference, step, versions, resumable, now);
    if Tasks.Authoritative(db, lease, now) && next.Some? {
      NextLinkNew(db, sha, stamp, lease, reference, step, versions, resumable, now);
      AppendFresh(db.events, CheckpointEvent(stamp, next.value, reference.contentHash));
    }
  }

  lemma MakeByNext(db: Db, sha: Sha, stamp: Stamp, lease: Lease, reference: Reference, step: string,
                   versions: map<string, Json>, resumable: bool, now: Time)
    ensures MakeCheckpoint(db, sha, stamp, lease, reference, step, versions, resumable, now) ==
      var next := NextLink(db, sha, stamp, lease, reference, step, versions, resumable, now);
      if step == "" || |step| > 256 then Raised(InvalidPayload)
      else if !Tasks.Authoritative(db, lease, now) then Raised(StaleLease)
      else if InsertReference(db, reference).Raised? then Raised(PayloadIntegrity)
      else if next.None? then Raised(InvalidPayload)
      else
        match AppendTo(db.events, CheckpointEvent(stamp, next.value, reference.contentHash))
        case Failure(e) => Raised(e)
        case Success((events, _)) =>
          if CheckpointClashes(db.checkpoints, next.value) then Raised(IntegrityError)
          else Done(InsertReference(db, reference).db.(events := events, checkpoints := db.checkpoints + [next.value]), next.value)
  {
    hide VersionsText, IdentifierOf, IntegrityOf, Body, Chain, AppendTo, Tasks.Authoritative, CheckpointClashes, LastLink, InsertReference;
    InsertExact(db, reference);
  }

  /** Inserting a reference changes the references only, and fails in one way. */
  lemma InsertExact(db: Db, reference: Reference)
    ensures var o := InsertReference(db, reference);
      if o.Raised? then o.error == PayloadIntegrity else o == Done(db.(references := o.db.references), ())
  {
  }

  lemma NextLinkNew(db: Db, sha: Sha, stamp: Stamp, lease: Lease, reference: Reference, step: string,
                    versions: map<string, Json>, resumable: bool, now: Time)
    requires Inv(db) && CheckpointInv(db, sha) && !IdUsed(db.events, stamp.eventId)
    requires Tasks.Authoritative(db, lease, now)
    requires NextLink(db, sha, stamp, lease, reference, step, versions, resumable, now).Some?
    ensures var c := NextLink(db, sha, stamp, lease, reference, step, versions, resumable, now).value;
      && (CheckpointClashes(db.checkpoints, c) <==> RecordCollides(db, sha, Body(c, versions, reference.contentHash)))
      && !Clashes(db.events, CheckpointEvent(stamp, c, reference.contentHash))
  {
    hide VersionsText, IdentifierOf, IntegrityOf, Body, Inv, CheckpointInv, Chain, LastLink, CheckpointClashes, RecordCollides;
    var c := NextLink(db, sha, stamp, lease, reference, step, versions, resumable, now).value;
    NextNumber(db, sha, lease, now);
    LinkKeyFree(db, sha, lease.attemptId, lease.taskId);
    var (last, parent) := LastLink(Chain(db.checkpoints, lease.taskId));
    FinishedBody(sha, Draft(stamp, lease, reference, step, VersionsText(versions).value, resumable, last + 1, parent, now),
                 c.id, versions, reference.contentHash);
    ClashExact(db, sha, c, Body(c, versions, reference.contentHash));
  }

  lemma NextNumber(db: Db, sha: Sha, lease: Lease, now: Time)
    requires Inv(db) && CheckpointInv(db, sha) && Tasks.Authoritative(db, lease, now)
    ensures LastLink(Chain(db.checkpoints, lease.taskId)).0 == |Chain(db.checkpoints, lease.taskId)|
    ensures lease.attemptId in db.attempts && db.attempts[lease.attemptId].taskId == lease.taskId
  {
    hide HistoryInv, EventsInv, RowsInv, Chain;
    assert ChainInv(db, sha, lease.taskId);
    LastNumber(db, sha, lease.taskId);
    ActiveAttempt(db, lease.taskId, lease.attemptId);
  }
}
