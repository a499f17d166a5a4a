/** What every transaction keeps of the checkpoint chains. */
module CheckpointInvariants {
  import opened Checkpoints
  import opened EventLog
  import opened Json
  import opened Tables
  import opened TaskInvariants
  import opened Wrappers
  import Keys
  import Tasks

  // ----- the invariant

  ghost predicate IsLink(rows: seq<Checkpoint>, a: string, n: nat) {
    exists i :: 0 <= i < |rows| && rows[i].attemptId == a && rows[i].number == n
  }

  /** What an event of the execution state's own says is shown by its tables. */
  ghost predicate ExecAccounted(db: Db, key: Option<string>) {
    exists k ::
      && key == Some(Keys.Render(k))
      && match k
         case Checkpointed(a, n) => IsLink(db.checkpoints, a, n)
         case Bound(t) => t in db.inputs
         case _ => false
  }

  /** A row agrees with the attempt it was written under. */
  ghost predicate WrittenUnder(db: Db, c: Checkpoint) {
    && c.attemptId in db.attempts
    && db.attempts[c.attemptId].taskId == c.taskId && db.attempts[c.attemptId].fence == c.fence
    && c.taskId in db.tasks && c.fence <= db.tasks[c.taskId].currentFence
    && IdUsed(db.events, c.eventId)
  }

  ghost predicate FencesRise(chain: seq<Checkpoint>) {
    forall i, j :: 0 <= i < j < |chain| ==> chain[i].fence <= chain[j].fence
  }

  ghost predicate ChainInv(db: Db, sha: Sha, t: string) {
    var chain := Chain(db.checkpoints, t); ChainOk(db, sha, chain) && FencesRise(chain)
  }

  ghost predicate CheckpointInv(db: Db, sha: Sha) {
    && (forall i :: 0 <= i < |db.checkpoints| ==> WrittenUnder(db, db.checkpoints[i]))
    && (forall t :: ChainInv(db, sha, t))
    && (forall i :: 0 <= i < |db.events| && db.events[i].source == SOURCE ==> ExecAccounted(db, db.events[i].dedupKey))
  }

  // ----- steps that write no checkpoint

  lemma LinkKept(db: Db, after: Db, sha: Sha, c: Checkpoint, number: nat, parent: string, now: Time)
    requires Evolves(db, after, now) && LinkOk(db, sha, c, number, parent)
    ensures LinkOk(after, sha, c, number, parent)
  {
    hide AttemptsEvolve, TaskEvolves, ReadVersions, IdentifierOf, IntegrityOf, Body;
  }

  lemma ChainKept(db: Db, after: Db, sha: Sha, t: string, now: Time)
    requires Evolves(db, after, now) && ChainInv(db, sha, t) && after.checkpoints == db.checkpoints
    ensures ChainInv(after, sha, t)
  {
    hide Evolves, LinkOk, Chain;
    var chain := Chain(db.checkpoints, t);
    forall i: nat | i < |chain|
      ensures LinkOk(after, sha, chain[i], i + 1, ParentAt(chain, i))
    {
      LinkKept(db, after, sha, chain[i], i + 1, ParentAt(chain, i), now);
    }
  }

  lemma WrittenKept(db: Db, after: Db, c: Checkpoint, now: Time)
    requires Evolves(db, after, now) && WrittenUnder(db, c)
    ensures WrittenUnder(after, c)
  {
    assert AttemptEvolves(db.attempts[c.attemptId], after.attempts[c.attemptId], now);
    assert TaskEvolves(db.attempts, db.tasks[c.taskId], after.tasks[c.taskId]);
    var i :| 0 <= i < |db.events| && db.events[i].id == c.eventId;
    assert after.events[i] == db.events[i];
  }

  /** Any step that leaves the checkpoint table alone keeps every chain. */
  lemma CheckpointFrame(db: Db, after: Db, sha: Sha, now: Time)
    requires CheckpointInv(db, sha) && Evolves(db, after, now) && after.checkpoints == db.checkpoints
    requires forall i :: |db.events| <= i < |after.events| && after.events[i].source == SOURCE ==>
      ExecAccounted(after, after.events[i].dedupKey)
    ensures CheckpointInv(after, sha)
  {
    hide WrittenUnder, ChainInv, AttemptsEvolve, TaskEvolves;
    forall i | 0 <= i < |after.checkpoints|
      ensures WrittenUnder(after, after.checkpoints[i])
    {
      WrittenKept(db, after, db.checkpoints[i], now);
    }
    forall t
      ensures ChainInv(after, sha, t)
    {
      ChainKept(db, after, sha, t, now);
    }
    forall i | 0 <= i < |after.events| && after.events[i].source == SOURCE
      ensures ExecAccounted(after, after.events[i].dedupKey)
    {
      if i < |db.events| {
        assert after.events[i] == db.events[i];
      }
    }
  }

  // ----- events of other sources

  /** An event that is not the task repository's own leaves its invariant alone. */
  lemma OtherEventKeeps(db: Db, e: Event)
    requires Inv(db) && e.source != Tasks.SOURCE && Append(db, e).Done?
    ensures Inv(Append(db, e).db)
    ensures Append(db, e).db == db.(events := Append(db, e).db.events)
    ensures Append(db, e).db.events in {db.events, db.events + [e]}
  {
    hide FencingInv, HistoryInv, RowsInv;
    AppendKeeps(db.events, e);
    RowsInLog(db.transitions, db.events, e);
    assert forall i :: 0 <= i < |db.events| ==> Append(db, e).db.events[i] == db.events[i];
  }

  // ----- writing a checkpoint

  lemma ChainAppend(rows: seq<Checkpoint>, c: Checkpoint, t: string)
    ensures Chain(rows + [c], t) == Chain(rows, t) + if c.taskId == t then [c] else []
  {
    assert (rows + [c])[..|rows|] == rows;
  }

  lemma {:induction false} ChainMembers(rows: seq<Checkpoint>, t: string)
    ensures forall c :: c in Chain(rows, t) <==> c in rows && c.taskId == t
  {
    if rows != [] {
      var n := |rows| - 1;
      ChainMembers(rows[..n], t);
      assert rows == rows[..n] + [rows[n]];
    }
  }

  lemma VersionsReadBack(versions: map<string, Json>)
    requires VersionsText(versions).Some?
    ensures ReadVersions(VersionsText(versions).value) == Some(versions)
  {
    LoadsDumps(Obj(versions));
  }

  /** The row a checkpoint writes, once its identifier exists. */
  function Finished(sha: Sha, draft: Checkpoint, id: string): Checkpoint {
    draft.(id := id, integrityHash := IntegrityOf(sha, id, draft.parentHash))
  }

  /** The new row is a link at its place. */
  lemma NewLinkOk(db: Db, sha: Sha, stamp: Stamp, lease: Lease, reference: Reference, step: string,
                  versions: map<string, Json>, resumable: bool, number: nat, parent: string, id: string, now: Time)
    requires VersionsText(versions).Some?
    requires reference.id in db.references && db.references[reference.id] == reference
    requires Authenticates(db, reference, CheckpointOf(lease.taskId, lease.attemptId, lease.fence))
    requires var draft := Draft(stamp, lease, reference, step, VersionsText(versions).value, resumable, number, parent, now);
      IdentifierOf(sha, Body(draft, versions, reference.contentHash)) == Some(id)
    ensures var draft := Draft(stamp, lease, reference, step, VersionsText(versions).value, resumable, number, parent, now);
      LinkOk(db, sha, Finished(sha, draft, id), number, parent)
  {
    VersionsReadBack(versions);
    hide VersionsText, ReadVersions, IdentifierOf, IntegrityOf;
  }

  lemma LastNumber(db: Db, sha: Sha, t: string)
    requires ChainInv(db, sha, t)
    ensures var chain := Chain(db.checkpoints, t);
      LastLink(chain) == (|chain|, ParentAt(chain, |chain|))
  {
    hide Chain, LinkOk, FencesRise;
    var chain := Chain(db.checkpoints, t);
    if chain != [] {
      LinkNumber(db, sha, chain[|chain| - 1], |chain|, ParentAt(chain, |chain| - 1));
    }
  }

  lemma LinkNumber(db: Db, sha: Sha, c: Checkpoint, number: nat, parent: string)
    requires LinkOk(db, sha, c, number, parent)
    ensures c.number == number
  {
    hide IdentifierOf, IntegrityOf, ReadVersions, Body, Authenticates;
  }

  lemma ChainExtends(db: Db, after: Db, sha: Sha, c: Checkpoint, t: string, now: Time)
    requires ChainInv(db, sha, t) && Evolves(db, after, now) && after.checkpoints == db.checkpoints + [c]
    requires c.taskId == t ==>
      var chain := Chain(db.checkpoints, t);
      && LinkOk(after, sha, c, |chain| + 1, ParentAt(chain, |chain|))
      && forall i :: 0 <= i < |chain| ==> chain[i].fence <= c.fence
    ensures ChainInv(after, sha, t)
  {
    hide Evolves, LinkOk, Chain;
    var chain, longer := Chain(db.checkpoints, t), Chain(after.checkpoints, t);
    ChainAppend(db.checkpoints, c, t);
    assert chain + [] == chain;
    assert forall i :: 0 <= i <= |chain| ==> ParentAt(longer, i) == ParentAt(chain, i);
    forall i: nat | i < |longer|
      ensures LinkOk(after, sha, longer[i], i + 1, ParentAt(longer, i))
    {
      if i < |chain| {
        LinkKept(db, after, sha, chain[i], i + 1, ParentAt(chain, i), now);
      }
    }
  }

  lemma FencesBelow(db: Db, sha: Sha, t: string)
    requires CheckpointInv(db, sha) && t in db.tasks
    ensures forall c :: c in Chain(db.checkpoints, t) ==> c.fence <= db.tasks[t].currentFence
  {
    hide ChainInv;
    ChainMembers(db.checkpoints, t);
  }

  /** One sound row is appended, with its event, under the current fence of its task. */
  ghost predicate Extends(db: Db, after: Db, sha: Sha, c: Checkpoint, e: Event) {
    && after.checkpoints == db.checkpoints + [c]
    && c.taskId in db.tasks && c.fence == db.tasks[c.taskId].currentFence && WrittenUnder(after, c)
    && after.events in {db.events, db.events + [e]}
    && e.dedupKey == Some(Keys.Render(Keys.Checkpointed(c.attemptId, c.number)))
    && var chain := Chain(db.checkpoints, c.taskId);
       LinkOk(after, sha, c, |chain| + 1, ParentAt(chain, |chain|))
  }

  lemma WrittenExtends(db: Db, after: Db, sha: Sha, c: Checkpoint, e: Event, now: Time)
    requires CheckpointInv(db, sha) && Evolves(db, after, now) && Extends(db, after, sha, c, e)
    ensures forall i :: 0 <= i < |after.checkpoints| ==> WrittenUnder(after, after.checkpoints[i])
  {
    hide WrittenUnder, ChainInv, Evolves, LinkOk, Chain;
    forall i | 0 <= i < |after.checkpoints|
      ensures WrittenUnder(after, after.checkpoints[i])
    {
      if i < |db.checkpoints| {
        WrittenKept(db, after, db.checkpoints[i], now);
      }
    }
  }

  lemma ChainsExtend(db: Db, after: Db, sha: Sha, c: Checkpoint, e: Event, t: string, now: Time)
    requires CheckpointInv(db, sha) && Evolves(db, after, now) && Extends(db, after, sha, c, e)
    ensures ChainInv(after, sha, t)
  {
    hide WrittenUnder, ChainInv, Evolves, LinkOk, Chain, ExecAccounted;
    FencesBelow(db, sha, c.taskId);
    ChainExtends(db, after, sha, c, t, now);
  }

  /** Appending one sound row, with its event, keeps every chain. */
  lemma LinkKeeps(db: Db, after: Db, sha: Sha, c: Checkpoint, e: Event, now: Time)
    requires CheckpointInv(db, sha) && Evolves(db, after, now) && Extends(db, after, sha, c, e)
    ensures CheckpointInv(after, sha)
  {
    hide WrittenUnder, Evolves, ChainInv, LinkOk, Chain, ExecAccounted;
    WrittenExtends(db, after, sha, c, e, now);
    EvolvesInputs(db, after, now);
    LinkAccounted(db, after, sha, c, e);
    hide Extends;
    forall t
      ensures ChainInv(after, sha, t)
    {
      ChainsExtend(db, after, sha, c, e, t, now);
    }
  }

  lemma EvolvesInputs(db: Db, after: Db, now: Time)
    requires Evolves(db, after, now)
    ensures db.inputs.Keys <= after.inputs.Keys
  {
  }

  lemma LinkAccounted(db: Db, after: Db, sha: Sha, c: Checkpoint, e: Event)
    requires CheckpointInv(db, sha) && after.checkpoints == db.checkpoints + [c] && db.inputs.Keys <= after.inputs.Keys
    requires after.events in {db.events, db.events + [e]} && e.dedupKey == Some(Keys.Render(Keys.Checkpointed(c.attemptId, c.number)))
    ensures forall i :: 0 <= i < |after.events| && after.events[i].source == SOURCE ==>
      ExecAccounted(after, after.events[i].dedupKey)
  {
    hide WrittenUnder, ChainInv;
    assert after.checkpoints[|db.checkpoints|] == c;
    forall i | 0 <= i < |after.events| && after.events[i].source == SOURCE
      ensures ExecAccounted(after, after.events[i].dedupKey)
    {
      if i < |db.events| {
        assert after.events[i] == db.events[i];
        GrownAccounted(db, after, db.events[i].dedupKey);
      } else {
        assert after.events[i] == e;
      }
    }
  }

  lemma GrownAccounted(db: Db, after: Db, key: Option<string>)
    requires ExecAccounted(db, key) && db.checkpoints <= after.checkpoints && db.inputs.Keys <= after.inputs.Keys
    ensures ExecAccounted(after, key)
  {
    var k :| key == Some(Keys.Render(k))
      && match k
         case Checkpointed(a, n) => IsLink(db.checkpoints, a, n)
         case Bound(t) => t in db.inputs
         case _ => false;
    if k.Checkpointed? {
      var i :| 0 <= i < |db.checkpoints| && db.checkpoints[i].attemptId == k.attemptId && db.checkpoints[i].number == k.number;
      assert after.checkpoints[i] == db.checkpoints[i];
    }
  }

  // ----- what a checkpoint does

  /** The row that a checkpoint would write, if its texts fit their limits. */
  function NextLink(db: Db, sha: Sha, stamp: Stamp, lease: Lease, reference: Reference, step: string,
                    versions: map<string, Json>, resumable: bool, now: Time): Option<Checkpoint>
  {
    var (last, parent) := LastLink(Chain(db.checkpoints, lease.taskId));
    match VersionsText(versions)
    case None => None
    case Some(text) =>
      var draft := Draft(stamp, lease, reference, step, text, resumable, last + 1, parent, now);
      match IdentifierOf(sha, Body(draft, versions, reference.contentHash))
      case None => None
      case Some(id) => Some(Finished(sha, draft, id))
  }

  /** A checkpoint that is made writes the next link, its reference and its event, under a lease in force. */
  lemma MakeUnfolds(db: Db, sha: Sha, stamp: Stamp, lease: Lease, reference: Reference, step: string,
                    versions: map<string, Json>, resumable: bool, now: Time)
    requires MakeCheckpoint(db, sha, stamp, lease, reference, step, versions, resumable, now).Done?
    ensures Tasks.Authoritative(db, lease, now)
    ensures var o := MakeCheckpoint(db, sha, stamp, lease, reference, step, versions, resumable, now);
      && NextLink(db, sha, stamp, lease, reference, step, versions, resumable, now) == Some(o.value)
      && var e := CheckpointEvent(stamp, o.value, reference.contentHash);
      && AppendTo(db.events, e).Success?
      && InsertReference(db, reference).Done?
      && o.db == InsertReference(db, reference).db.(
           events := AppendTo(db.events, e).value.0, checkpoints := db.checkpoints + [o.value])
  {
    hide Tasks.Authoritative, VersionsText, IdentifierOf, Body, Chain, LastLink, AppendTo, CheckpointClashes;
  }

  lemma InsertedReference(db: Db, reference: Reference)
    requires InsertReference(db, reference).Done?
    ensures var after := InsertReference(db, reference).db;
      && after == db.(references := after.references)
      && reference.id in after.references && after.references[reference.id] == reference
      && forall r :: r in db.references ==> r in after.references && after.references[r] == db.references[r]
  {
  }

  lemma MakeEvolves(db: Db, after: Db, now: Time)
    requires after == db.(references := after.references, events := after.events, checkpoints := after.checkpoints)
    requires forall r :: r in db.references ==> r in after.references && after.references[r] == db.references[r]
    requires db.events <= after.events && db.checkpoints <= after.checkpoints
    ensures Evolves(db, after, now)
  {
  }

  lemma AppendedEvents(db: Db, after: Db, e: Event)
    requires Inv(db) && e.source != Tasks.SOURCE && AppendTo(db.events, e).Success?
    requires after.tasks == db.tasks && after.attempts == db.attempts && after.transitions == db.transitions
    requires after.events == AppendTo(db.events, e).value.0
    ensures Inv(after) && after.events in {db.events, db.events + [e]} && IdUsed(after.events, e.id)
  {
    OtherEventKeeps(db, e);
    hide FencingInv, HistoryInv, EventsInv, RowsInv;
    EventsDistinct(db);
    AppendKeeps(db.events, e);
    var i :| 0 <= i < |after.events| && after.events[i] == e;
  }

  /** A checkpoint is the sound next row of its chain. */
  lemma MakeExtends(db: Db, sha: Sha, stamp: Stamp, lease: Lease, reference: Reference, step: string,
                    versions: map<string, Json>, resumable: bool, now: Time)
    requires Inv(db) && CheckpointInv(db, sha)
    requires Authenticates(db, reference, CheckpointOf(lease.taskId, lease.attemptId, lease.fence))
    requires MakeCheckpoint(db, sha, stamp, lease, reference, step, versions, resumable, now).Done?
    ensures var o := MakeCheckpoint(db, sha, stamp, lease, reference, step, versions, resumable, now);
      Extends(db, o.db, sha, o.value, CheckpointEvent(stamp, o.value, reference.contentHash))
  {
    hide Inv, CheckpointInv, MakeCheckpoint, LinkOk, VersionsText, IdentifierOf, IntegrityOf, Body, Chain, LastLink, AppendTo, InsertReference,
      IdUsed;
    var o := MakeCheckpoint(db, sha, stamp, lease, reference, step, versions, resumable, now);
    MakeUnfolds(db, sha, stamp, lease, reference, step, versions, resumable, now);
    InvActive(db, lease.taskId, lease.attemptId);
    InsertedReference(db, reference);
    AppendedEvents(db, o.db, CheckpointEvent(stamp, o.value, reference.contentHash));
    InvChain(db, sha, lease.taskId);
    LastNumber(db, sha, lease.taskId);
    var chain := Chain(db.checkpoints, lease.taskId);
    NewLinkOk(o.db, sha, stamp, lease, reference, step, versions, resumable, |chain| + 1, ParentAt(chain, |chain|), o.value.id, now);
  }

  lemma InvActive(db: Db, t: string, a: string)
    requires Inv(db) && t in db.tasks && db.tasks[t].active == Some(a)
    ensures a in db.attempts && db.attempts[a].taskId == t && db.attempts[a].fence == db.tasks[t].currentFence
  {
    hide HistoryInv, EventsInv, RowsInv;
    ActiveAttempt(db, t, a);
  }

  lemma InvChain(db: Db, sha: Sha, t: string)
    requires CheckpointInv(db, sha)
    ensures ChainInv(db, sha, t)
  {
    hide ChainInv, WrittenUnder;
  }

  /** Every checkpoint that is made keeps the chains, for any hash. */
  lemma CheckpointKeeps(db: Db, sha: Sha, stamp: Stamp, lease: Lease, reference: Reference, step: string,
                        versions: map<string, Json>, resumable: bool, now: Time)
    requires Inv(db) && CheckpointInv(db, sha)
    requires Authenticates(db, reference, CheckpointOf(lease.taskId, lease.attemptId, lease.fence))
    ensures var after := Commit(db, MakeCheckpoint(db, sha, stamp, lease, reference, step, versions, resumable, now));
      && Inv(after) && CheckpointInv(after, sha) && Evolves(db, after, now)
      && after == db.(references := after.references, events := after.events, checkpoints := after.checkpoints)
  {
    hide Inv, CheckpointInv, MakeCheckpoint, Extends, Evolves;
    var o := MakeCheckpoint(db, sha, stamp, lease, reference, step, versions, resumable, now);
    if o.Done? {
      var e := CheckpointEvent(stamp, o.value, reference.contentHash);
      MakeUnfolds(db, sha, stamp, lease, reference, step, versions, resumable, now);
      InsertedReference(db, reference);
      AppendedEvents(db, o.db, e);
      MakeEvolves(db, o.db, now);
      MakeExtends(db, sha, stamp, lease, reference, step, versions, resumable, now);
      LinkKeeps(db, o.db, sha, o.value, e, now);
    } else {
      KeptReflexive(db, "", now);
    }
  }
}
