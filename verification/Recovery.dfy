/** Recovery of expired leases: what one sweep does, for any answer its query may give. */
module Recovery {
  import opened TaskEffects
  import opened TaskInvariants
  import opened Tables
  import opened Tasks
  import opened Wrappers

  /** Stamps that are new to the database and to each other. */
  ghost predicate AllFresh(db: Db, stamps: seq<Stamp>) {
    && (forall i :: 0 <= i < |stamps| ==> Fresh(db, stamps[i]))
    && (forall i, j :: 0 <= i < j < |stamps| ==>
          stamps[i].eventId != stamps[j].eventId && stamps[i].transitionId != stamps[j].transitionId)
  }

  /** Different attempts, all of them expired. */
  ghost predicate Expirable(db: Db, rows: seq<string>, now: Time) {
    && (forall i :: 0 <= i < |rows| ==> HasExpired(db, rows[i], now))
    && (forall i, j :: 0 <= i < j < |rows| ==> rows[i] != rows[j])
  }

  function FirstExpired(db: Db, stamp: Stamp, a: string, now: Time): Outcome<Task>
    requires HasExpired(db, a, now)
  {
    Expire(db, stamp, db.attempts[a].taskId, a, RecoveryState(db.tasks[db.attempts[a].taskId]), now)
  }

  lemma RecoverUnfolds(db: Db, stamps: seq<Stamp>, rows: seq<string>, now: Time)
    requires |stamps| == |rows| > 0 && Expirable(db, rows, now)
    ensures Recover(db, stamps, rows, now) ==
      match FirstExpired(db, stamps[0], rows[0], now)
      case Raised(e) => Raised(e)
      case Done(db1, _) =>
        match Recover(db1, stamps[1..], rows[1..], now)
        case Raised(e) => Raised(e)
        case Done(db2, n) => Done(db2, n + 1)
  {
    assert HasExpired(db, rows[0], now);
  }

  /** Ending one expired attempt leaves the others expired. */
  lemma RestExpirable(db: Db, after: Db, rows: seq<string>, now: Time)
    requires |rows| > 0 && Expirable(db, rows, now) && Touches(db, after, db.attempts[rows[0]].taskId)
    ensures Expirable(after, rows[1..], now)
  {
    var t := db.attempts[rows[0]].taskId;
    assert HasExpired(db, rows[0], now);
    forall i | 0 <= i < |rows[1..]|
      ensures HasExpired(after, rows[1..][i], now)
    {
      var a := rows[i + 1];
      assert HasExpired(db, a, now) && a != rows[0];
      assert db.attempts[a].taskId != t;
      assert after.mappings == db.mappings;
      assert !IsMapped(after, db.attempts[a].taskId);
    }
  }

  /** A sweep changes tasks, their attempts and the two logs, and only as one step at a time may. */
  ghost predicate Swept(db: Db, after: Db, now: Time) {
    && Inv(after) && Evolves(db, after, now)
    && after == db.(tasks := after.tasks, attempts := after.attempts, events := after.events, transitions := after.transitions)
    && (forall i :: |db.events| <= i < |after.events| ==> after.events[i].source == SOURCE)
  }

  lemma KeptSwept(db: Db, after: Db, t: string, now: Time)
    requires Kept(db, after, t, now)
    ensures Swept(db, after, now)
  {
    hide Inv, AttemptsEvolve, TaskEvolves;
  }

  lemma SweptTransitive(a: Db, b: Db, c: Db, now: Time)
    requires Swept(a, b, now) && Swept(b, c, now)
    ensures Swept(a, c, now)
  {
    hide Inv, AttemptsEvolve, TaskEvolves;
    EvolvesTransitive(a, b, c, now);
  }

  lemma FirstKept(db: Db, stamp: Stamp, rows: seq<string>, now: Time)
    requires Inv(db) && |rows| > 0 && Expirable(db, rows, now)
    ensures HasExpired(db, rows[0], now)
    ensures var o := FirstExpired(db, stamp, rows[0], now);
      o.Done? ==> Swept(db, o.db, now) && Inv(o.db) && Expirable(o.db, rows[1..], now)
  {
    hide Inv, Expire, AttemptsEvolve, TaskEvolves, FencingInv;
    var t := db.attempts[rows[0]].taskId;
    ExpireKeeps(db, stamp, t, rows[0], RecoveryState(db.tasks[t]), now);
    var o := FirstExpired(db, stamp, rows[0], now);
    if o.Done? {
      KeptSwept(db, o.db, t, now);
      RestExpirable(db, o.db, rows, now);
    }
  }

  /** A sweep keeps the invariant, whether or not it runs to its end. */
  lemma {:induction false} RecoverKeeps(db: Db, stamps: seq<Stamp>, rows: seq<string>, now: Time)
    requires Inv(db) && |stamps| == |rows| && Expirable(db, rows, now)
    ensures Swept(db, Commit(db, Recover(db, stamps, rows, now)), now)
    decreases |rows|
  {
    hide Swept, Inv, Expire, Expirable, HasExpired;
    SweptReflexive(db, now);
    if rows != [] {
      RecoverUnfolds(db, stamps, rows, now);
      FirstKept(db, stamps[0], rows, now);
      hide Recover;
      var o := FirstExpired(db, stamps[0], rows[0], now);
      if o.Done? {
        RecoverKeeps(o.db, stamps[1..], rows[1..], now);
        SweptTransitive(db, o.db, Commit(o.db, Recover(o.db, stamps[1..], rows[1..], now)), now);
      }
    }
  }

  lemma SweptReflexive(db: Db, now: Time)
    requires Inv(db)
    ensures Swept(db, db, now)
  {
    hide Swept, Inv, Kept;
    KeptReflexive(db, "", now);
    KeptSwept(db, db, "", now);
  }

  // ----- what a sweep with new identifiers commits

  predicate IsSwept(task: Task, rows: seq<string>) {
    task.active.Some? && task.active.value in rows
  }

  function SweptTasks(tasks: map<string, Task>, rows: seq<string>, now: Time): map<string, Task> {
    map t | t in tasks ::
      if IsSwept(tasks[t], rows) then ExpiredRow(tasks[t], RecoveryState(tasks[t]), now) else tasks[t]
  }

  function ExpiredAttempt(attempt: Attempt, now: Time): Attempt {
    attempt.(state := AttemptExpired, finishedAt := Some(now), errorCode := Some("lease_expired"))
  }

  function SweptAttempts(attempts: map<string, Attempt>, rows: seq<string>, now: Time): map<string, Attempt> {
    map a | a in attempts :: if a in rows then ExpiredAttempt(attempts[a], now) else attempts[a]
  }

  lemma RestFresh(db: Db, after: Db, stamps: seq<Stamp>)
    requires |stamps| > 0 && AllFresh(db, stamps)
    requires |after.events| == |db.events| + 1 && |after.transitions| == |db.transitions| + 1
    requires db.events <= after.events && after.events[|db.events|].id == stamps[0].eventId
    requires db.transitions <= after.transitions && after.transitions[|db.transitions|].id == stamps[0].transitionId
    ensures AllFresh(after, stamps[1..])
  {
    forall i | 0 <= i < |stamps[1..]|
      ensures Fresh(after, stamps[1..][i])
    {
      assert Fresh(db, stamps[i + 1]);
    }
  }

  lemma SweepSplits(db: Db, after: Db, rows: seq<string>, now: Time)
    requires Inv(db) && |rows| > 0 && Expirable(db, rows, now)
    requires HasExpired(db, rows[0], now)
    requires var t := db.attempts[rows[0]].taskId;
      && after.tasks == db.tasks[t := ExpiredRow(db.tasks[t], RecoveryState(db.tasks[t]), now)]
      && after.attempts == db.attempts[rows[0] := ExpiredAttempt(db.attempts[rows[0]], now)]
    ensures SweptTasks(after.tasks, rows[1..], now) == SweptTasks(db.tasks, rows, now)
    ensures SweptAttempts(after.attempts, rows[1..], now) == SweptAttempts(db.attempts, rows, now)
  {
    hide Inv;
    var a, t := rows[0], db.attempts[rows[0]].taskId;
    assert rows == [a] + rows[1..];
    forall s | s in db.tasks
      ensures SweptTasks(after.tasks, rows[1..], now)[s] == SweptTasks(db.tasks, rows, now)[s]
    {
      if s != t && db.tasks[s].active == Some(a) {
        OneActive(db, s, t, a);
      }
    }
  }

  lemma OneActive(db: Db, s: string, t: string, a: string)
    requires Inv(db) && s in db.tasks && t in db.tasks && db.tasks[s].active == Some(a) && db.tasks[t].active == Some(a)
    ensures s == t
  {
    ActiveAttempt(db, s, a);
    ActiveAttempt(db, t, a);
  }

  ghost predicate SweepsExactly(db: Db, o: Outcome<nat>, rows: seq<string>, now: Time) {
    && o.Done? && o.value == |rows|
    && o.db.tasks == SweptTasks(db.tasks, rows, now)
    && o.db.attempts == SweptAttempts(db.attempts, rows, now)
  }

  lemma NothingSwept(db: Db, now: Time)
    ensures SweptTasks(db.tasks, [], now) == db.tasks && SweptAttempts(db.attempts, [], now) == db.attempts
  {
  }

  /** A sweep with new identifiers never fails: it ends exactly the attempts of its rows, and their tasks with them. */
  lemma {:induction false} RecoverExact(db: Db, stamps: seq<Stamp>, rows: seq<string>, now: Time)
    requires Inv(db) && |stamps| == |rows| && Expirable(db, rows, now) && AllFresh(db, stamps)
    ensures SweepsExactly(db, Recover(db, stamps, rows, now), rows, now)
    decreases |rows|
  {
    hide Inv, Expire, Expirable, HasExpired, Swept, AllFresh, SweptTasks, SweptAttempts, FirstExpired, RecoveryState;
    if rows == [] {
      NothingSwept(db, now);
    } else {
      RecoverUnfolds(db, stamps, rows, now);
      hide Recover;
      FirstExact(db, stamps, rows, now);
      FirstKept(db, stamps[0], rows, now);
      var o := FirstExpired(db, stamps[0], rows[0], now);
      RecoverExact(o.db, stamps[1..], rows[1..], now);
      SweepSplits(db, o.db, rows, now);
    }
  }

  lemma FirstExact(db: Db, stamps: seq<Stamp>, rows: seq<string>, now: Time)
    requires Inv(db) && |stamps| > 0 && |rows| > 0 && Expirable(db, rows, now) && AllFresh(db, stamps)
    ensures HasExpired(db, rows[0], now)
    ensures var t := db.attempts[rows[0]].taskId;
      var o := FirstExpired(db, stamps[0], rows[0], now);
      && o.Done? && AllFresh(o.db, stamps[1..])
      && o.db.tasks == db.tasks[t := ExpiredRow(db.tasks[t], RecoveryState(db.tasks[t]), now)]
      && o.db.attempts == db.attempts[rows[0] := ExpiredAttempt(db.attempts[rows[0]], now)]
  {
    hide Inv, Expire;
    var t := db.attempts[rows[0]].taskId;
    ExpireExact(db, stamps[0], t, rows[0], RecoveryState(db.tasks[t]), now);
    RestFresh(db, FirstExpired(db, stamps[0], rows[0], now).db, stamps);
  }

  lemma StillExpired(db: Db, o: Outcome<nat>, rows: seq<string>, a: string, now: Time)
    requires SweepsExactly(db, o, rows, now) && o.db.mappings == db.mappings && HasExpired(o.db, a, now)
    ensures HasExpired(db, a, now) && a !in rows
  {
    assert a in db.attempts && a !in rows;
    assert db.attempts[a] == o.db.attempts[a];
    var t := db.attempts[a].taskId;
    assert t in db.tasks && o.db.tasks[t] == db.tasks[t];
    assert IsMapped(o.db, t) == IsMapped(db, t);
  }

  /** The attempts that a sweep may end: those still running after their lease, of tasks that no job stands for. */
  lemma ExpiredExact(db: Db, a: string, now: Time)
    requires Inv(db)
    ensures HasExpired(db, a, now) <==>
      && a in db.attempts && db.attempts[a].state == AttemptRunning && db.attempts[a].leaseUntil < now
      && forall j :: j in db.mappings ==> db.mappings[j].taskId != db.attempts[a].taskId
  {
    hide HistoryInv, EventsInv, RowsInv;
    if a in db.attempts && db.attempts[a].state == AttemptRunning {
      assert AttemptOk(a, db.attempts[a], db.tasks[db.attempts[a].taskId]);
      ActiveAttempt(db, db.attempts[a].taskId, a);
    }
  }

  /** A sweep spares every lease in force: it stays in force as long as it was. */
  lemma RecoverSpares(db: Db, stamps: seq<Stamp>, rows: seq<string>, lease: Lease, now: Time, at: Time)
    requires Inv(db) && |stamps| == |rows| && Expirable(db, rows, now) && AllFresh(db, stamps)
    requires Authoritative(db, lease, now)
    ensures Authoritative(Commit(db, Recover(db, stamps, rows, now)), lease, at) <==> Authoritative(db, lease, at)
  {
    hide Inv, Recover, AllFresh, HasExpired, Expirable, SweptTasks, SweptAttempts, Authoritative;
    RecoverExact(db, stamps, rows, now);
    LiveNotSwept(db, rows, lease, now);
    LiveStays(db, Commit(db, Recover(db, stamps, rows, now)), rows, lease, now, at);
  }

  lemma LiveNotSwept(db: Db, rows: seq<string>, lease: Lease, now: Time)
    requires Expirable(db, rows, now) && Authoritative(db, lease, now)
    ensures lease.attemptId !in rows
  {
  }

  lemma LiveStays(db: Db, after: Db, rows: seq<string>, lease: Lease, now: Time, at: Time)
    requires lease.attemptId !in rows && Authoritative(db, lease, now)
    requires after.tasks == SweptTasks(db.tasks, rows, now) && after.attempts == SweptAttempts(db.attempts, rows, now)
    ensures Authoritative(after, lease, at) <==> Authoritative(db, lease, at)
  {
  }

  /** A sweep that leaves expired attempts was cut short by its limit, which is between 1 and 1000, and ended those that expired first. */
  lemma RecoverEarliest(db: Db, stamps: seq<Stamp>, rows: seq<string>, limit: int, now: Time)
    requires Inv(db) && |stamps| == |rows| && IsExpiredQuery(db, rows, limit, now) && AllFresh(db, stamps)
    ensures var after := Commit(db, Recover(db, stamps, rows, now));
      forall a :: HasExpired(after, a, now) ==> IsLater(after, a, db, rows, limit)
  {
    RecoverExact(db, stamps, rows, now);
    RecoverKeeps(db, stamps, rows, now);
    hide Inv, Evolves, Recover, AllFresh, SweptTasks, SweptAttempts, HasExpired, IsLater;
    var after := Commit(db, Recover(db, stamps, rows, now));
    forall a | HasExpired(after, a, now)
      ensures IsLater(after, a, db, rows, limit)
    {
      StillExpired(db, Recover(db, stamps, rows, now), rows, a, now);
      LaterThanRows(db, after, rows, a, limit, now);
    }
  }

  lemma LaterThanRows(db: Db, after: Db, rows: seq<string>, a: string, limit: int, now: Time)
    requires IsExpiredQuery(db, rows, limit, now) && HasExpired(db, a, now) && a !in rows
    requires after.attempts == SweptAttempts(db.attempts, rows, now)
    ensures IsLater(after, a, db, rows, limit)
  {
    assert forall i :: 0 <= i < |rows| ==> HasExpired(db, rows[i], now);
  }

  /** The attempt expired no earlier than those in the rows, which are as many as the limit allows. */
  predicate IsLater(after: Db, a: string, db: Db, rows: seq<string>, limit: int) {
    && a in after.attempts && |rows| == (if limit < 1 then 1 else if limit > 1000 then 1000 else limit)
    && forall i :: 0 <= i < |rows| ==> rows[i] in db.attempts && db.attempts[rows[i]].leaseUntil <= after.attempts[a].leaseUntil
  }

  /** When the query was not cut short by its limit, no expired attempt is left. */
  lemma RecoverCompletes(db: Db, stamps: seq<Stamp>, rows: seq<string>, limit: int, now: Time)
    requires Inv(db) && |stamps| == |rows| && IsExpiredQuery(db, rows, limit, now) && AllFresh(db, stamps)
    requires |rows| < Max(1, Min(limit, 1000))
    ensures forall a :: !HasExpired(Commit(db, Recover(db, stamps, rows, now)), a, now)
  {
    RecoverExact(db, stamps, rows, now);
    RecoverKeeps(db, stamps, rows, now);
    hide Inv, Evolves, Recover, HasExpired, AllFresh, SweptTasks, SweptAttempts;
    forall a
      ensures !HasExpired(Commit(db, Recover(db, stamps, rows, now)), a, now)
    {
      if HasExpired(Commit(db, Recover(db, stamps, rows, now)), a, now) {
        StillExpired(db, Recover(db, stamps, rows, now), rows, a, now);
      }
    }
  }
}
