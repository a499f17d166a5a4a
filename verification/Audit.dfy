/**
 The audit ledger (harness2/store.py): rows chained by a hash over texts joined with bars.
 Every run of appends verifies; two ledgers that verify and end in the same hash are the
 same ledger, unless the hash collides or a field contains a bar.
 */
module Audit {
  import opened Text
  import opened Wrappers
  import Binding = CheckpointBinding
  import Checkpoints
  import Utf8

  /** The time is that of the row, to the microsecond: its printed form has six decimals. */
  datatype Row = Row(micros: nat, event: string, subject: string, metadata: string, prevHash: string, entryHash: string)

  /** The last digits of n, with leading zeros. */
  function Padded(n: nat, digits: nat): (s: string)
    ensures |s| == digits && AllDigits(s)
  {
    if digits == 0 then "" else Padded(n / 10, digits - 1) + [DigitChar(n % 10)]
  }

  function Seconds(micros: nat): string {
    Decimal(micros / 1_000_000) + "." + Padded(micros % 1_000_000, 6)
  }

  function Described(event: string, subject: string, metadata: string): string {
    event + "|" + (subject + "|" + metadata)
  }

  function Body(row: Row, prev: string): string {
    Seconds(row.micros) + "|" + (Described(row.event, row.subject, row.metadata) + ("|" + prev))
  }

  function BodyBytes(row: Row, prev: string): seq<Utf8.Byte> {
    Utf8.Encode(Body(row, prev))
  }

  function LastHash(rows: seq<Row>): string {
    if rows == [] then Checkpoints.GENESIS else rows[|rows| - 1].entryHash
  }

  function NextRow(sha: Checkpoints.Sha, rows: seq<Row>, micros: nat, event: string, subject: string, metadata: string): Row {
    var row := Row(micros, event, subject, metadata, LastHash(rows), "");
    row.(entryHash := sha(BodyBytes(row, LastHash(rows))))
  }

  /** The entry hash is a unique column. */
  predicate HashTaken(rows: seq<Row>, hash: string) {
    exists i :: 0 <= i < |rows| && rows[i].entryHash == hash
  }

  predicate RowOk(sha: Checkpoints.Sha, rows: seq<Row>, i: nat)
    requires i < |rows|
  {
    rows[i].prevHash == LastHash(rows[..i]) && rows[i].entryHash == sha(BodyBytes(rows[i], LastHash(rows[..i])))
  }

  ghost predicate Accepted(sha: Checkpoints.Sha, rows: seq<Row>) {
    forall i: nat :: i < |rows| ==> RowOk(sha, rows, i)
  }

  class AuditLedger {
    const sha: Checkpoints.Sha
    var rows: seq<Row>

    constructor (sha: Checkpoints.Sha)
      ensures this.sha == sha && rows == []
    {
      this.sha := sha;
      rows := [];
    }

    /** None stands for the integrity error of an entry hash that another row has already. */
    method Append(micros: nat, event: string, subject: string, metadata: string) returns (r: Option<string>)
      modifies this
      ensures var row := NextRow(sha, old(rows), micros, event, subject, metadata);
        if HashTaken(old(rows), row.entryHash) then r == None && rows == old(rows)
        else r == Some(row.entryHash) && rows == old(rows) + [row]
      ensures old(Accepted(sha, rows)) ==> Accepted(sha, rows)
    {
      var prev := if rows == [] then Checkpoints.GENESIS else rows[|rows| - 1].entryHash;
      var row := Row(micros, event, subject, metadata, prev, "");
      var digest := sha(Utf8.Encode(Body(row, prev)));
      if HashTaken(rows, digest) {
        return None;
      }
      ghost var before := rows;
      rows := rows + [row.(entryHash := digest)];
      AppendAccepted(sha, before, micros, event, subject, metadata);
      return Some(digest);
    }

    /** Whether the ledger verifies, how many rows were read, and the number of the first bad one. */
    method Verify() returns (ok: bool, count: nat, bad: Option<nat>)
      ensures ok <==> Accepted(sha, rows)
      ensures ok ==> count == |rows| && bad == None
      ensures !ok ==> 0 < count <= |rows| && bad == Some(count) && !RowOk(sha, rows, count - 1)
      ensures !ok ==> forall i: nat :: i < count - 1 ==> RowOk(sha, rows, i)
    {
      var previous := Checkpoints.GENESIS;
      count := 0;
      while count < |rows|
        invariant count <= |rows| && previous == LastHash(rows[..count])
        invariant forall i: nat :: i < count ==> RowOk(sha, rows, i)
      {
        var row := rows[count];
        count := count + 1;
        var digest := sha(BodyBytes(row, previous));
        if row.prevHash != previous || row.entryHash != digest {
          assert !RowOk(sha, rows, count - 1);
          return false, count, Some(count);
        }
        previous := digest;
      }
      return true, count, None;
    }
  }

  lemma AppendAccepted(sha: Checkpoints.Sha, rows: seq<Row>, micros: nat, event: string, subject: string, metadata: string)
    ensures Accepted(sha, rows) ==> Accepted(sha, rows + [NextRow(sha, rows, micros, event, subject, metadata)])
  {
    var row := NextRow(sha, rows, micros, event, subject, metadata);
    var longer := rows + [row];
    if Accepted(sha, rows) {
      forall i: nat | i < |longer|
        ensures RowOk(sha, longer, i)
      {
        if i < |rows| {
          assert longer[..i] == rows[..i] && RowOk(sha, rows, i);
        } else {
          assert longer[..i] == rows;
        }
      }
    }
  }

  /** What is appended: the given fields, the hash of the row before, or 64 zeros, and the hash of their joined text. */
  lemma AppendedRow(sha: Checkpoints.Sha, rows: seq<Row>, micros: nat, event: string, subject: string, metadata: string)
    ensures var row := NextRow(sha, rows, micros, event, subject, metadata);
      && row.micros == micros && row.event == event && row.subject == subject && row.metadata == metadata
      && (rows != [] ==> row.prevHash == rows[|rows| - 1].entryHash)
      && (rows == [] ==> row.prevHash == "0000000000000000000000000000000000000000000000000000000000000000")
      && row.entryHash == sha(Utf8.Encode(Body(row, row.prevHash)))
  {
  }

  /** A ledger filled by any appends, in any order. */
  ghost predicate Appended(sha: Checkpoints.Sha, rows: seq<Row>)
    decreases |rows|
  {
    rows == [] ||
    (var n := |rows| - 1;
     && Appended(sha, rows[..n]) && !HashTaken(rows[..n], rows[n].entryHash)
     && rows[n] == NextRow(sha, rows[..n], rows[n].micros, rows[n].event, rows[n].subject, rows[n].metadata))
  }

  predicate UniqueHashes(rows: seq<Row>) {
    forall i, j :: 0 <= i < j < |rows| ==> rows[i].entryHash != rows[j].entryHash
  }

  lemma UniqueStep(rows: seq<Row>)
    requires rows != []
    ensures UniqueHashes(rows) <==>
      UniqueHashes(rows[..|rows| - 1]) && !HashTaken(rows[..|rows| - 1], rows[|rows| - 1].entryHash)
  {
  }

  /** The ledgers that appends produce are exactly those the verifier accepts, as far as no entry hash occurs twice. */
  lemma {:induction false} AcceptedIsAppended(sha: Checkpoints.Sha, rows: seq<Row>)
    ensures Accepted(sha, rows) && UniqueHashes(rows) <==> Appended(sha, rows)
    decreases |rows|
  {
    hide UniqueHashes, HashTaken;
    if rows == [] {
      NoRows();
    } else {
      var n := |rows| - 1;
      AcceptedIsAppended(sha, rows[..n]);
      UniqueStep(rows);
      var last := rows[n];
      assert rows[..n] + [last] == rows;
      if Accepted(sha, rows) {
        assert RowOk(sha, rows, n);
        forall i: nat | i < n
          ensures RowOk(sha, rows[..n], i)
        {
          assert RowOk(sha, rows, i) && rows[..n][..i] == rows[..i];
        }
      }
      if Appended(sha, rows) {
        AppendAccepted(sha, rows[..n], last.micros, last.event, last.subject, last.metadata);
      }
    }
  }

  lemma NoRows()
    ensures UniqueHashes([])
  {
  }

  /** An append is refused exactly when the hash takes its body to the digest of an earlier row's body. */
  lemma RefusedAppend(sha: Checkpoints.Sha, rows: seq<Row>, micros: nat, event: string, subject: string, metadata: string)
    requires Accepted(sha, rows)
    ensures var row := NextRow(sha, rows, micros, event, subject, metadata);
      HashTaken(rows, row.entryHash) <==>
        exists i :: 0 <= i < |rows| && sha(BodyBytes(rows[i], rows[i].prevHash)) == sha(BodyBytes(row, row.prevHash))
  {
    forall i: nat | i < |rows|
      ensures rows[i].entryHash == sha(BodyBytes(rows[i], rows[i].prevHash))
    {
      assert RowOk(sha, rows, i);
    }
  }

  // ----- what a body determines

  predicate NoBar(s: string) {
    forall i :: 0 <= i < |s| ==> s[i] != '|'
  }

  /** A text up to its first bar. */
  lemma FirstBar(a: string, x: string, b: string, y: string)
    requires NoBar(a) && NoBar(b) && a + "|" + x == b + "|" + y
    ensures a == b && x == y
  {
    var s := a + "|" + x;
    assert s[|a|] == '|' && s[|b|] == '|';
    assert s[..|a|] == a && s[..|b|] == b;
    assert s[|a| + 1..] == x && s[|b| + 1..] == y;
  }

  lemma SecondsNoBar(micros: nat)
    ensures NoBar(Seconds(micros))
  {
    DecimalNumeral(micros / 1_000_000);
  }

  lemma {:induction false} PaddedNumeral(n: nat, digits: nat)
    requires n < Power10(digits)
    ensures Numeral(Padded(n, digits)) == n
  {
    if digits > 0 {
      PaddedNumeral(n / 10, digits - 1);
      var s := Padded(n, digits);
      assert s[..|s| - 1] == Padded(n / 10, digits - 1);
    }
  }

  function Power10(digits: nat): nat {
    if digits == 0 then 1 else 10 * Power10(digits - 1)
  }

  lemma SecondsInjective(m: nat, n: nat)
    requires Seconds(m) == Seconds(n)
    ensures m == n
  {
    var whole, whole' := Decimal(m / 1_000_000), Decimal(n / 1_000_000);
    var part, part' := Padded(m % 1_000_000, 6), Padded(n % 1_000_000, 6);
    var s := Seconds(m);
    assert |whole| == |s| - 7 == |whole'|;
    assert s[..|whole|] == whole && s[..|whole|] == whole';
    assert s[|whole| + 1..] == part && s[|whole| + 1..] == part';
    DecimalInjective(m / 1_000_000, n / 1_000_000);
    assert Power10(6) == 1_000_000;
    PaddedNumeral(m % 1_000_000, 6);
    PaddedNumeral(n % 1_000_000, 6);
  }

  lemma LastCancels(a: string, p: string, b: string, q: string)
    requires a + ("|" + p) == b + ("|" + q) && |p| == |q|
    ensures a == b && p == q
  {
    var s := a + ("|" + p);
    assert |a| == |b|;
    assert s[..|a|] == a && s[..|a|] == b;
    assert s[|a| + 1..] == p && s[|a| + 1..] == q;
  }

  /** A body determines the time, the previous hash, and the three texts joined; not always the three texts. */
  lemma BodyExact(x: Row, p: string, y: Row, q: string)
    requires |p| == |q|
    ensures Body(x, p) == Body(y, q) <==>
      (x.micros == y.micros && p == q
       && Described(x.event, x.subject, x.metadata) == Described(y.event, y.subject, y.metadata))
  {
    if Body(x, p) == Body(y, q) {
      SecondsNoBar(x.micros);
      SecondsNoBar(y.micros);
      var dx, dy := Described(x.event, x.subject, x.metadata), Described(y.event, y.subject, y.metadata);
      FirstBar(Seconds(x.micros), dx + ("|" + p), Seconds(y.micros), dy + ("|" + q));
      SecondsInjective(x.micros, y.micros);
      LastCancels(dx, p, dy, q);
    }
  }

  /** The three texts are determined when events and subjects have no bars in them. */
  lemma DescribedInjective(x: Row, y: Row)
    requires NoBar(x.event) && NoBar(x.subject) && NoBar(y.event) && NoBar(y.subject)
    requires Described(x.event, x.subject, x.metadata) == Described(y.event, y.subject, y.metadata)
    ensures x.event == y.event && x.subject == y.subject && x.metadata == y.metadata
  {
    FirstBar(x.event, x.subject + "|" + x.metadata, y.event, y.subject + "|" + y.metadata);
    FirstBar(x.subject, x.metadata, y.subject, y.metadata);
  }

  /** With a bar in either, they are not: another row has the same body, whatever comes before it. */
  lemma BarsAreAmbiguous(x: Row)
    requires !NoBar(x.event) || !NoBar(x.subject)
    ensures exists y: Row :: y.event != x.event && y.metadata == x.metadata && SameBody(x, y)
  {
    if !NoBar(x.event) {
      var i :| 0 <= i < |x.event| && x.event[i] == '|';
      var y := x.(event := x.event[..i], subject := x.event[i + 1..] + "|" + x.subject);
      assert x.event == x.event[..i] + "|" + x.event[i + 1..];
      BarsMove(x.event[..i], x.event[i + 1..], x.subject, x.metadata);
      assert y.event != x.event && SameBody(x, y);
    } else {
      var i :| 0 <= i < |x.subject| && x.subject[i] == '|';
      var y := x.(event := x.event + "|" + x.subject[..i], subject := x.subject[i + 1..]);
      assert x.subject == x.subject[..i] + "|" + x.subject[i + 1..];
      BarsMove(x.event, x.subject[..i], x.subject[i + 1..], x.metadata);
      assert y.event != x.event && SameBody(x, y);
    }
  }

  ghost predicate SameBody(x: Row, y: Row) {
    forall prev :: Body(x, prev) == Body(y, prev)
  }

  lemma BarsMove(a: string, b: string, c: string, d: string)
    ensures Described(a, b + "|" + c, d) == Described(a + "|" + b, c, d)
  {
    var bars := a + ("|" + (b + ("|" + (c + ("|" + d)))));
    assert Described(a + "|" + b, c, d) == bars;
    assert Described(a, b + "|" + c, d) == bars;
  }

  // ----- what the last hash determines

  /** What was hashed for a ledger. */
  function Preimages(rows: seq<Row>): set<seq<Utf8.Byte>> {
    set row | row in rows :: BodyBytes(row, row.prevHash)
  }

  /** Some text of the ledger hashes to the value that stands for no row at all. */
  ghost predicate HitsGenesis(sha: Checkpoints.Sha, rows: seq<Row>) {
    exists x :: x in Preimages(rows) && sha(x) == Checkpoints.GENESIS
  }

  predicate Plain(rows: seq<Row>) {
    forall i :: 0 <= i < |rows| ==> NoBar(rows[i].event) && NoBar(rows[i].subject)
  }

  ghost predicate Broken(sha: Checkpoints.Sha, a: seq<Row>, b: seq<Row>) {
    Binding.Collides(sha, Preimages(a), Preimages(b)) || HitsGenesis(sha, a) || HitsGenesis(sha, b)
  }

  lemma LastRows(sha: Checkpoints.Sha, a: seq<Row>, b: seq<Row>)
    requires Binding.IsDigest(sha) && Accepted(sha, a) && Accepted(sha, b) && Plain(a) && Plain(b)
    requires a != [] && b != [] && LastHash(a) == LastHash(b)
    ensures a[|a| - 1] == b[|b| - 1] || Binding.Collides(sha, Preimages(a), Preimages(b))
    ensures LastHash(a[..|a| - 1]) == a[|a| - 1].prevHash && LastHash(b[..|b| - 1]) == b[|b| - 1].prevHash
  {
    var x, y := a[|a| - 1], b[|b| - 1];
    assert RowOk(sha, a, |a| - 1) && RowOk(sha, b, |b| - 1);
    assert x in a && y in b;
    HashLength(sha, a, |a| - 1);
    HashLength(sha, b, |b| - 1);
    if BodyBytes(x, x.prevHash) == BodyBytes(y, y.prevHash) {
      Binding.EncodeInjective(Body(x, x.prevHash), Body(y, y.prevHash));
      BodyExact(x, x.prevHash, y, y.prevHash);
      DescribedInjective(x, y);
    } else {
      assert BodyBytes(x, x.prevHash) in Preimages(a) && BodyBytes(y, y.prevHash) in Preimages(b);
    }
  }

  lemma HashLength(sha: Checkpoints.Sha, rows: seq<Row>, n: nat)
    requires Binding.IsDigest(sha) && Accepted(sha, rows) && n <= |rows|
    ensures |LastHash(rows[..n])| == |Checkpoints.GENESIS|
  {
    if n > 0 {
      assert RowOk(sha, rows, n - 1);
    }
  }

  lemma PrefixAccepted(sha: Checkpoints.Sha, rows: seq<Row>)
    requires rows != [] && Accepted(sha, rows)
    ensures Accepted(sha, rows[..|rows| - 1]) && Preimages(rows[..|rows| - 1]) <= Preimages(rows)
  {
    var shorter := rows[..|rows| - 1];
    forall i: nat | i < |shorter|
      ensures RowOk(sha, shorter, i)
    {
      assert RowOk(sha, rows, i) && shorter[..i] == rows[..i];
    }
  }

  lemma LoneRow(sha: Checkpoints.Sha, rows: seq<Row>)
    requires rows != [] && Accepted(sha, rows) && LastHash(rows) == Checkpoints.GENESIS
    ensures HitsGenesis(sha, rows)
  {
    var n := |rows| - 1;
    assert RowOk(sha, rows, n) && rows[n] in rows;
    assert BodyBytes(rows[n], rows[n].prevHash) in Preimages(rows);
  }

  /** Ledgers that verify and end in the same hash are equal, row by row and in length, or the hash is broken on their texts. */
  lemma {:induction false} AuditBinding(sha: Checkpoints.Sha, a: seq<Row>, b: seq<Row>)
    requires Binding.IsDigest(sha) && Accepted(sha, a) && Accepted(sha, b) && Plain(a) && Plain(b)
    requires LastHash(a) == LastHash(b)
    ensures a == b || Broken(sha, a, b)
    decreases |a|
  {
    hide RowOk, Preimages, NoBar, Binding.IsDigest, BodyBytes, Accepted;
    if a == [] && b != [] {
      LoneRow(sha, b);
    } else if b == [] && a != [] {
      LoneRow(sha, a);
    } else if a != [] {
      LastRows(sha, a, b);
      PrefixAccepted(sha, a);
      PrefixAccepted(sha, b);
      var m, n := |a| - 1, |b| - 1;
      if !Broken(sha, a, b) {
        AuditBinding(sha, a[..m], b[..n]);
        assert a == a[..m] + [a[m]] && b == b[..n] + [b[n]];
      }
    }
  }
}
