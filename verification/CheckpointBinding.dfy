/**
 What the last hash of a checkpoint chain stands for. No hash is assumed to be free of
 collisions: where two chains that end alike differ, the lemmas name two different inputs,
 taken from the two chains themselves, that the hash maps to the same text.
 */
module CheckpointBinding {
  import opened Checkpoints
  import opened Json
  import opened Tables
  import opened Wrappers
  import Payloads
  import Utf8

  /** Hexadecimal digests all have the same length. */
  ghost predicate IsDigest(sha: Sha) {
    forall bytes :: |sha(bytes)| == |GENESIS|
  }

  ghost predicate Collides(sha: Sha, xs: set<seq<Utf8.Byte>>, ys: set<seq<Utf8.Byte>>) {
    exists x, y :: x in xs && y in ys && x != y && sha(x) == sha(y)
  }

  predicate Readable(db: Db, c: Checkpoint) {
    c.referenceId in db.references && ReadVersions(c.resourceVersions).Some?
  }

  /** The record of a stored link, as the verifier rebuilds it. */
  function BodyOf(db: Db, c: Checkpoint): Json
    requires Readable(db, c)
  {
    Body(c, ReadVersions(c.resourceVersions).value, db.references[c.referenceId].contentHash)
  }

  function BodyBytes(body: Json): seq<Utf8.Byte> {
    Utf8.Encode(Dumps(body))
  }

  function LinkBytes(c: Checkpoint): seq<Utf8.Byte> {
    Utf8.Encode(IntegrityText(c.id, c.parentHash))
  }

  /** What was hashed for one link. */
  function Preimages(db: Db, c: Checkpoint): set<seq<Utf8.Byte>>
    requires Readable(db, c)
  {
    {BodyBytes(BodyOf(db, c)), LinkBytes(c)}
  }

  /** What was hashed for a whole chain. */
  function ChainPreimages(db: Db, chain: seq<Checkpoint>): set<seq<Utf8.Byte>> {
    set c, x | c in chain && Readable(db, c) && x in Preimages(db, c) :: x
  }

  lemma EncodeInjective(a: string, b: string)
    requires Utf8.Encode(a) == Utf8.Encode(b)
    ensures a == b
  {
    Utf8.DecodeEncode(a);
    Utf8.DecodeEncode(b);
  }

  /** An identifier is the hash of the record's canonical bytes. */
  lemma IdentifierBytes(sha: Sha, body: Json)
    requires IdentifierOf(sha, body).Some?
    ensures IdentifierOf(sha, body) == Some("checkpoint-" + sha(BodyBytes(body)))
  {
    Payloads.ValidateLift(body, 0);
  }

  lemma PrefixCancels(p: string, a: string, b: string)
    requires p + a == p + b
    ensures a == b
  {
    assert (p + a)[|p|..] == a && (p + b)[|p|..] == b;
  }

  lemma IntegrityTextInjective(id1: string, parent1: string, id2: string, parent2: string)
    requires IntegrityText(id1, parent1) == IntegrityText(id2, parent2) && |id1| == |id2|
    ensures id1 == id2 && parent1 == parent2
  {
    var p := "harness.checkpoint/v1" + "\U{0}";
    var s1, s2 := id1 + ("\U{0}" + parent1), id2 + ("\U{0}" + parent2);
    assert IntegrityText(id1, parent1) == p + s1;
    assert IntegrityText(id2, parent2) == p + s2;
    PrefixCancels(p, s1, s2);
    assert s1[..|id1|] == id1 && s2[..|id1|] == id2;
    assert s1[|id1| + 1..] == parent1 && s2[|id1| + 1..] == parent2;
  }

  /** Two links with the same hash have the same record and the same parent, or their inputs collide. */
  lemma LinkBinding(sha: Sha, db1: Db, c1: Checkpoint, n1: nat, p1: string, db2: Db, c2: Checkpoint, n2: nat, p2: string)
    requires IsDigest(sha) && LinkOk(db1, sha, c1, n1, p1) && LinkOk(db2, sha, c2, n2, p2)
    requires c1.integrityHash == c2.integrityHash
    ensures Collides(sha, Preimages(db1, c1), Preimages(db2, c2)) || (BodyOf(db1, c1) == BodyOf(db2, c2) && p1 == p2)
  {
    hide ReadVersions, Body;
    if LinkBytes(c1) == LinkBytes(c2) {
      IdentifierBytes(sha, BodyOf(db1, c1));
      IdentifierBytes(sha, BodyOf(db2, c2));
      EncodeInjective(IntegrityText(c1.id, p1), IntegrityText(c2.id, p2));
      IntegrityTextInjective(c1.id, p1, c2.id, p2);
      PrefixCancels("checkpoint-", sha(BodyBytes(BodyOf(db1, c1))), sha(BodyBytes(BodyOf(db2, c2))));
      if BodyBytes(BodyOf(db1, c1)) == BodyBytes(BodyOf(db2, c2)) {
        EncodeInjective(Dumps(BodyOf(db1, c1)), Dumps(BodyOf(db2, c2)));
        DumpsInjective(BodyOf(db1, c1), BodyOf(db2, c2));
      }
    }
  }

  /** The record determines every field that it covers. */
  lemma BodyInjective(c1: Checkpoint, v1: map<string, Json>, h1: string, c2: Checkpoint, v2: map<string, Json>, h2: string)
    requires Body(c1, v1, h1) == Body(c2, v2, h2)
    ensures c1.taskId == c2.taskId && c1.attemptId == c2.attemptId && c1.fence == c2.fence && c1.number == c2.number
    ensures c1.workflowStep == c2.workflowStep && v1 == v2 && c1.referenceId == c2.referenceId && h1 == h2
    ensures c1.parentHash == c2.parentHash && c1.resumable == c2.resumable && c1.schemaVersion == c2.schemaVersion
  {
    hide Body;
    IdentityInjective(c1, v1, h1, c2, v2, h2);
    ContentInjective(c1, v1, h1, c2, v2, h2);
    LinkInjective(c1, v1, h1, c2, v2, h2);
  }

  lemma IdentityInjective(c1: Checkpoint, v1: map<string, Json>, h1: string, c2: Checkpoint, v2: map<string, Json>, h2: string)
    requires Body(c1, v1, h1) == Body(c2, v2, h2)
    ensures c1.taskId == c2.taskId && c1.attemptId == c2.attemptId && c1.fence == c2.fence && c1.number == c2.number
  {
    var x, y := Body(c1, v1, h1).fields, Body(c2, v2, h2).fields;
    assert x["task_id"] == y["task_id"] && x["attempt_id"] == y["attempt_id"];
    assert x["fence_token"] == y["fence_token"] && x["sequence"] == y["sequence"];
  }

  lemma ContentInjective(c1: Checkpoint, v1: map<string, Json>, h1: string, c2: Checkpoint, v2: map<string, Json>, h2: string)
    requires Body(c1, v1, h1) == Body(c2, v2, h2)
    ensures c1.workflowStep == c2.workflowStep && v1 == v2 && c1.referenceId == c2.referenceId && h1 == h2
  {
    var x, y := Body(c1, v1, h1).fields, Body(c2, v2, h2).fields;
    assert x["workflow_step"] == y["workflow_step"] && x["resource_versions"] == y["resource_versions"];
    assert x["reference_id"] == y["reference_id"] && x["payload_hash"] == y["payload_hash"];
  }

  lemma LinkInjective(c1: Checkpoint, v1: map<string, Json>, h1: string, c2: Checkpoint, v2: map<string, Json>, h2: string)
    requires Body(c1, v1, h1) == Body(c2, v2, h2)
    ensures c1.parentHash == c2.parentHash && c1.resumable == c2.resumable && c1.schemaVersion == c2.schemaVersion
  {
    var x, y := Body(c1, v1, h1).fields, Body(c2, v2, h2).fields;
    assert x["parent_checkpoint_hash"] == y["parent_checkpoint_hash"];
    assert x["resumable"] == y["resumable"] && x["schema_version"] == y["schema_version"];
  }

  /** What the hashes of a chain cover, link by link. */
  ghost predicate Agree(db1: Db, chain1: seq<Checkpoint>, db2: Db, chain2: seq<Checkpoint>) {
    && |chain1| == |chain2|
    && forall i :: 0 <= i < |chain1| ==>
         && Readable(db1, chain1[i]) && Readable(db2, chain2[i])
         && SameRecord(db1, chain1[i], db2, chain2[i])
         && chain1[i].integrityHash == chain2[i].integrityHash
  }

  /** Field for field, only the identifiers and times of the two rows' own writing may differ. */
  ghost predicate SameRecord(db1: Db, c1: Checkpoint, db2: Db, c2: Checkpoint)
    requires Readable(db1, c1) && Readable(db2, c2)
  {
    && c1.(id := c2.id, createdAt := c2.createdAt, eventId := c2.eventId, resourceVersions := c2.resourceVersions) == c2
    && ReadVersions(c1.resourceVersions) == ReadVersions(c2.resourceVersions)
    && db1.references[c1.referenceId].contentHash == db2.references[c2.referenceId].contentHash
  }

  lemma CollidesInChains(sha: Sha, db1: Db, chain1: seq<Checkpoint>, c1: Checkpoint, db2: Db, chain2: seq<Checkpoint>, c2: Checkpoint)
    requires c1 in chain1 && c2 in chain2 && Readable(db1, c1) && Readable(db2, c2)
    requires Collides(sha, Preimages(db1, c1), Preimages(db2, c2))
    ensures Collides(sha, ChainPreimages(db1, chain1), ChainPreimages(db2, chain2))
  {
    hide Preimages;
    var x, y :| x in Preimages(db1, c1) && y in Preimages(db2, c2) && x != y && sha(x) == sha(y);
    assert x in ChainPreimages(db1, chain1) && y in ChainPreimages(db2, chain2);
  }

  lemma LastLinks(sha: Sha, db1: Db, chain1: seq<Checkpoint>, db2: Db, chain2: seq<Checkpoint>)
    requires IsDigest(sha) && chain1 != [] && chain2 != []
    requires ChainOk(db1, sha, chain1) && ChainOk(db2, sha, chain2)
    requires chain1[|chain1| - 1].integrityHash == chain2[|chain2| - 1].integrityHash
    ensures var c1, c2 := chain1[|chain1| - 1], chain2[|chain2| - 1];
      && Readable(db1, c1) && Readable(db2, c2)
      && (Collides(sha, ChainPreimages(db1, chain1), ChainPreimages(db2, chain2))
          || (SameRecord(db1, c1, db2, c2) && |chain1| == |chain2|
              && ParentAt(chain1, |chain1| - 1) == ParentAt(chain2, |chain2| - 1)))
  {
    hide Collides, ChainPreimages, Preimages, Body, ReadVersions, IdentifierOf, IntegrityOf, Authenticates;
    var c1, c2 := chain1[|chain1| - 1], chain2[|chain2| - 1];
    LinkBinding(sha, db1, c1, |chain1|, ParentAt(chain1, |chain1| - 1), db2, c2, |chain2|, ParentAt(chain2, |chain2| - 1));
    if BodyOf(db1, c1) == BodyOf(db2, c2) {
      BodyInjective(c1, ReadVersions(c1.resourceVersions).value, db1.references[c1.referenceId].contentHash,
                    c2, ReadVersions(c2.resourceVersions).value, db2.references[c2.referenceId].contentHash);
    }
    if Collides(sha, Preimages(db1, c1), Preimages(db2, c2)) {
      CollidesInChains(sha, db1, chain1, c1, db2, chain2, c2);
    }
  }

  /**
   Two chains that the verifier accepts, wherever they are stored, and that end in the same
   hash are the same chain in every covered field, unless the hash collides on two of the
   texts hashed for them.
   */
  lemma {:induction false} ChainBinding(sha: Sha, db1: Db, chain1: seq<Checkpoint>, db2: Db, chain2: seq<Checkpoint>)
    requires IsDigest(sha) && chain1 != [] && chain2 != []
    requires ChainOk(db1, sha, chain1) && ChainOk(db2, sha, chain2)
    requires chain1[|chain1| - 1].integrityHash == chain2[|chain2| - 1].integrityHash
    ensures Agree(db1, chain1, db2, chain2) || Collides(sha, ChainPreimages(db1, chain1), ChainPreimages(db2, chain2))
    decreases |chain1|
  {
    hide Collides, ChainPreimages, Readable, SameRecord, ChainOk, LinkOk, Agree;
    LastLinks(sha, db1, chain1, db2, chain2);
    var n := |chain1| - 1;
    if !Collides(sha, ChainPreimages(db1, chain1), ChainPreimages(db2, chain2)) {
      if n > 0 {
        Shorter(sha, db1, chain1, db2, chain2);
        ChainBinding(sha, db1, chain1[..n], db2, chain2[..n]);
      } else {
        NothingAgrees(db1, chain1, db2, chain2);
      }
      AgreeExtends(db1, chain1, db2, chain2);
    }
  }

  lemma NothingAgrees(db1: Db, chain1: seq<Checkpoint>, db2: Db, chain2: seq<Checkpoint>)
    requires |chain1| == |chain2| == 1
    ensures Agree(db1, chain1[..0], db2, chain2[..0])
  {
  }

  lemma AgreeExtends(db1: Db, chain1: seq<Checkpoint>, db2: Db, chain2: seq<Checkpoint>)
    requires |chain1| == |chain2| > 0
    requires var n := |chain1| - 1;
      && Agree(db1, chain1[..n], db2, chain2[..n])
      && Readable(db1, chain1[n]) && Readable(db2, chain2[n]) && SameRecord(db1, chain1[n], db2, chain2[n])
      && chain1[n].integrityHash == chain2[n].integrityHash
    ensures Agree(db1, chain1, db2, chain2)
  {
    hide Readable, SameRecord;
    var n := |chain1| - 1;
    forall i | 0 <= i < n
      ensures chain1[i] == chain1[..n][i] && chain2[i] == chain2[..n][i]
    {
    }
  }

  lemma Shorter(sha: Sha, db1: Db, chain1: seq<Checkpoint>, db2: Db, chain2: seq<Checkpoint>)
    requires |chain1| == |chain2| > 1
    requires ChainOk(db1, sha, chain1) && ChainOk(db2, sha, chain2)
    requires !Collides(sha, ChainPreimages(db1, chain1), ChainPreimages(db2, chain2))
    ensures ChainOk(db1, sha, chain1[..|chain1| - 1]) && ChainOk(db2, sha, chain2[..|chain2| - 1])
    ensures !Collides(sha, ChainPreimages(db1, chain1[..|chain1| - 1]), ChainPreimages(db2, chain2[..|chain2| - 1]))
  {
    PrefixOk(sha, db1, chain1);
    PrefixOk(sha, db2, chain2);
  }

  lemma PrefixOk(sha: Sha, db: Db, chain: seq<Checkpoint>)
    requires |chain| > 0 && ChainOk(db, sha, chain)
    ensures ChainOk(db, sha, chain[..|chain| - 1])
    ensures ChainPreimages(db, chain[..|chain| - 1]) <= ChainPreimages(db, chain)
  {
    hide LinkOk, Readable, Preimages;
    var shorter := chain[..|chain| - 1];
    forall i: nat | i < |shorter|
      ensures LinkOk(db, sha, shorter[i], i + 1, ParentAt(shorter, i))
    {
      assert LinkOk(db, sha, chain[i], i + 1, ParentAt(chain, i));
    }
  }
}
