/** What every transaction of the task protocol keeps. */
module TaskInvariants {
  import opened EventLog
  import opened Tables
  import opened Tasks
  import opened Wrappers
  import Keys

  // ----- fencing

  ghost predicate IsSlot(attempts: map<string, Attempt>, t: string, n: nat, a: string) {
    a in attempts && attempts[a].taskId == t && attempts[a].number == n
  }

  ghost predicate HasSlot(attempts: map<string, Attempt>, t: string, n: nat) {
    exists a :: IsSlot(attempts, t, n, a)
  }

  ghost predicate HasWinner(attempts: map<string, Attempt>, t: string, fence: nat) {
    exists a :: IsSlot(attempts, t, fence, a) && attempts[a].state == AttemptSucceeded
  }

  /** A task row against its own attempts. */
  ghost predicate TaskOk(t: string, task: Task, attempts: map<string, Attempt>) {
    && task.maxAttempts == task.submission.maxAttempts
    && 1 <= task.maxAttempts
    && task.attemptsStarted == task.currentFence <= task.maxAttempts
    && (forall n: nat :: 1 <= n <= task.attemptsStarted ==> HasSlot(attempts, t, n))
    && (task.active.Some? ==>
          && task.active.value in attempts && attempts[task.active.value].taskId == t
          && attempts[task.active.value].fence == task.currentFence
          && task.state == Running)
    && (task.terminalAt.Some? <==> Terminal(task.state))
    && (task.state == Completed <==> task.resultHash.Some?)
    && (task.state == Completed ==> HasWinner(attempts, t, task.currentFence))
    && task.state != Verifying
    && (task.state == Created ==> task.revision == 0 && task.attemptsStarted == 0)
    && (task.state in {Planned, Blocked, Ready} ==> task.revision > 0)
  }

  /** An attempt row against the row of its task. */
  ghost predicate AttemptOk(a: string, attempt: Attempt, task: Task) {
    && 1 <= attempt.number == attempt.fence <= task.attemptsStarted
    && (attempt.state == AttemptRunning <==> task.active == Some(a))
    && (attempt.finishedAt.Some? <==> attempt.state != AttemptRunning)
    && (attempt.state == AttemptSucceeded ==>
          && task.state == Completed && attempt.fence == task.currentFence && attempt.outcomeHash == task.resultHash)
  }

  ghost predicate DistinctNumbers(attempts: map<string, Attempt>) {
    forall a, b :: a in attempts && b in attempts && a != b && attempts[a].taskId == attempts[b].taskId ==>
      attempts[a].number != attempts[b].number
  }

  ghost predicate FencingInv(tasks: map<string, Task>, attempts: map<string, Attempt>) {
    && (forall t :: t in tasks ==> TaskOk(t, tasks[t], attempts))
    && (forall a :: a in attempts ==>
          attempts[a].taskId in tasks && AttemptOk(a, attempts[a], tasks[attempts[a].taskId]))
    && DistinctNumbers(attempts)
  }

  // ----- history

  function History(rows: seq<TransitionRow>, t: string): seq<TransitionRow> {
    if rows == [] then []
    else
      var n := |rows| - 1;
      History(rows[..n], t) + if rows[n].taskId == t then [rows[n]] else []
  }

  ghost predicate LegalEdge(from: TaskState, to: TaskState) {
    to in AllowedTransitions(from) || (from == Running && to in {Completed, Failed, Retrying, Recovering})
  }

  ghost predicate HistoryOk(h: seq<TransitionRow>, task: Task) {
    && |h| == task.revision + 1
    && h[0].from == None && h[0].to == Created
    && h[task.revision].to == task.state
    && (forall i :: 0 <= i < |h| ==> h[i].revision == i)
    && (forall i :: 0 < i < |h| ==> h[i].from == Some(h[i - 1].to) && LegalEdge(h[i - 1].to, h[i].to))
  }

  ghost predicate HistoryInv(tasks: map<string, Task>, rows: seq<TransitionRow>) {
    && (forall t :: t in tasks ==> HistoryOk(History(rows, t), tasks[t]))
    && (forall i :: 0 <= i < |rows| ==> rows[i].taskId in tasks)
  }

  lemma HistoryAppend(rows: seq<TransitionRow>, row: TransitionRow, t: string)
    ensures History(rows + [row], t) == History(rows, t) + if row.taskId == t then [row] else []
  {
    assert (rows + [row])[..|rows|] == rows;
  }

  lemma {:induction false} NoHistory(rows: seq<TransitionRow>, t: string)
    requires forall i :: 0 <= i < |rows| ==> rows[i].taskId != t
    ensures History(rows, t) == []
  {
    if rows != [] {
      NoHistory(rows[..|rows| - 1], t);
    }
  }

  // ----- events

  /** The database shows that the thing a key stands for has happened. */
  ghost predicate Accounted(tasks: map<string, Task>, attempts: map<string, Attempt>, k: Keys.Key) {
    match k
    case Created(t) => t in tasks
    case Revised(t, n) => t in tasks && n <= tasks[t].revision
    case Started(t, n) => t in tasks && n <= tasks[t].attemptsStarted
    case Completed(a) => a in attempts && attempts[a].state in {AttemptSucceeded, AttemptFailed}
    case Expired(a) => a in attempts && attempts[a].state == AttemptExpired
    case Renewed(a, _) => a in attempts
    case _ => false
  }

  ghost predicate IsAccounted(tasks: map<string, Task>, attempts: map<string, Attempt>, key: Option<string>) {
    exists k :: key == Some(Keys.Render(k)) && Accounted(tasks, attempts, k)
  }

  ghost predicate EventsInv(tasks: map<string, Task>, attempts: map<string, Attempt>, events: seq<Event>) {
    && DistinctEvents(events)
    && (forall i :: 0 <= i < |events| && events[i].source == SOURCE ==>
          IsAccounted(tasks, attempts, events[i].dedupKey))
  }

  ghost predicate RowsInv(rows: seq<TransitionRow>, events: seq<Event>) {
    && (forall i :: 0 <= i < |rows| ==> IdUsed(events, rows[i].eventId))
    && (forall i, j :: 0 <= i < j < |rows| ==> rows[i].id != rows[j].id && rows[i].eventId != rows[j].eventId)
  }

  ghost predicate Inv(db: Db) {
    && FencingInv(db.tasks, db.attempts)
    && HistoryInv(db.tasks, db.transitions)
    && EventsInv(db.tasks, db.attempts, db.events)
    && RowsInv(db.transitions, db.events)
  }

  // ----- one recorded change of one task

  /** The attempts of other tasks are the same in both tables. */
  ghost predicate SameElsewhere(before: map<string, Attempt>, after: map<string, Attempt>, t: string) {
    && (forall a :: a in before && before[a].taskId != t ==> a in after && after[a] == before[a])
    && (forall a :: a in after && after[a].taskId != t ==> a in before && before[a] == after[a])
  }

  /** An attempt keeps its identity, stays as it ended, and never gets back a lease that ran out. */
  ghost predicate AttemptEvolves(before: Attempt, after: Attempt, now: Time) {
    && after.taskId == before.taskId && after.number == before.number && after.fence == before.fence
    && after.owner == before.owner && after.plan == before.plan && after.startedAt == before.startedAt
    && (before.state != AttemptRunning ==> after == before)
    && (before.leaseUntil < now ==> after.leaseUntil == before.leaseUntil)
  }

  ghost predicate AttemptsEvolve(before: map<string, Attempt>, after: map<string, Attempt>, now: Time) {
    forall a :: a in before ==> a in after && AttemptEvolves(before[a], after[a], now)
  }

  /** A task keeps its request and its counters, a completed or cancelled row stays for ever, and no old attempt becomes active. */
  ghost predicate TaskEvolves(attempts: map<string, Attempt>, before: Task, after: Task) {
    && after.submission == before.submission && after.idempotencyKey == before.idempotencyKey
    && after.createdAt == before.createdAt
    && after.attemptsStarted >= before.attemptsStarted && after.revision >= before.revision
    && after.currentFence >= before.currentFence
    && (before.state in {Completed, Cancelled} ==> after == before)
    && (after.active.Some? && after.active.value in attempts ==>
          after.active == before.active && after.currentFence == before.currentFence)
  }

  /** How a database may change in one step taken at time now. */
  ghost predicate Evolves(db: Db, after: Db, now: Time) {
    && AttemptsEvolve(db.attempts, after.attempts, now)
    && (forall t :: t in db.tasks ==> t in after.tasks && TaskEvolves(db.attempts, db.tasks[t], after.tasks[t]))
    && db.events <= after.events && db.transitions <= after.transitions && db.checkpoints <= after.checkpoints
    && (forall r :: r in db.references ==> r in after.references && after.references[r] == db.references[r])
    && (forall o :: o in db.objects ==> o in after.objects && after.objects[o] == db.objects[o])
    && (forall t :: t in db.inputs ==> t in after.inputs && after.inputs[t] == db.inputs[t])
    && CursorsAdvance(db.cursors, after.cursors, |after.events|)
  }

  /** A consumer's cursor moves forward only, and not beyond the last event. */
  ghost predicate CursorsAdvance(before: map<string, nat>, after: map<string, nat>, last: nat) {
    && (forall c :: c in before ==> c in after && before[c] <= after[c])
    && (forall c :: c in after ==> (c in before && after[c] == before[c]) || after[c] <= last)
  }

  lemma EvolvesTransitive(a: Db, b: Db, c: Db, now: Time)
    requires Evolves(a, b, now) && Evolves(b, c, now)
    ensures Evolves(a, c, now)
  {
    forall x | x in a.attempts
      ensures x in c.attempts && AttemptEvolves(a.attempts[x], c.attempts[x], now)
    {
      assert AttemptEvolves(a.attempts[x], b.attempts[x], now) && AttemptEvolves(b.attempts[x], c.attempts[x], now);
    }
    forall t | t in a.tasks
      ensures t in c.tasks && TaskEvolves(a.attempts, a.tasks[t], c.tasks[t])
    {
      assert TaskEvolves(a.attempts, a.tasks[t], b.tasks[t]) && TaskEvolves(b.attempts, b.tasks[t], c.tasks[t]);
    }
  }

  /** Only task t, its attempts, and the two logs change; every new event is the kernel's. */
  ghost predicate Touches(db: Db, after: Db, t: string) {
    && after == db.(tasks := after.tasks, attempts := after.attempts, events := after.events, transitions := after.transitions)
    && (forall s :: s != t && s in db.tasks ==> s in after.tasks && after.tasks[s] == db.tasks[s])
    && (forall s :: s != t && s in after.tasks ==> s in db.tasks)
    && SameElsewhere(db.attempts, after.attempts, t)
    && db.events <= after.events
    && (forall i :: |db.events| <= i < |after.events| ==> after.events[i].source == SOURCE)
  }

  /** What every transaction on task t does to the database. */
  ghost predicate Kept(db: Db, after: Db, t: string, now: Time) {
    Inv(after) && Evolves(db, after, now) && Touches(db, after, t)
  }

  lemma KeptReflexive(db: Db, t: string, now: Time)
    requires Inv(db)
    ensures Kept(db, db, t, now)
  {
    hide Inv, Evolves;
    EvolvesItself(db, now);
  }

  lemma EvolvesItself(db: Db, now: Time)
    ensures Evolves(db, db, now)
  {
    hide TaskEvolves;
    forall t | t in db.tasks
      ensures TaskEvolves(db.attempts, db.tasks[t], db.tasks[t])
    {
      TaskEvolvesItself(db.attempts, db.tasks[t]);
    }
  }

  lemma TaskEvolvesItself(attempts: map<string, Attempt>, task: Task)
    ensures TaskEvolves(attempts, task, task)
  {
  }

  lemma KeptTransitive(a: Db, b: Db, c: Db, t: string, now: Time)
    requires Kept(a, b, t, now) && Kept(b, c, t, now)
    ensures Kept(a, c, t, now)
  {
    hide Inv, AttemptsEvolve, TaskEvolves;
    EvolvesTransitive(a, b, c, now);
    TouchesTransitive(a, b, c, t);
  }

  lemma TouchesTransitive(a: Db, b: Db, c: Db, t: string)
    requires Touches(a, b, t) && Touches(b, c, t)
    ensures Touches(a, c, t)
  {
  }

  /** What a transaction must show about the one task t it changes. */
  ghost predicate LocalChange(db: Db, t: string, row: Task, attempts: map<string, Attempt>, now: Time) {
    && SameElsewhere(db.attempts, attempts, t)
    && AttemptsEvolve(db.attempts, attempts, now)
    && TaskOk(t, row, attempts)
    && (forall a :: a in attempts && attempts[a].taskId == t ==> AttemptOk(a, attempts[a], row))
    && (forall a, b :: a in attempts && b in attempts && a != b && attempts[a].taskId == t && attempts[b].taskId == t ==>
          attempts[a].number != attempts[b].number)
    && (if t in db.tasks then
          && row.revision == db.tasks[t].revision + 1
          && TaskEvolves(db.attempts, db.tasks[t], row)
          && LegalEdge(db.tasks[t].state, row.state)
        else row.revision == 0 && row.state == Created)
  }

  lemma FencingKept(db: Db, t: string, row: Task, attempts: map<string, Attempt>, now: Time)
    requires FencingInv(db.tasks, db.attempts) && LocalChange(db, t, row, attempts, now)
    ensures FencingInv(db.tasks[t := row], attempts)
  {
    hide TaskOk, AttemptOk;
    var tasks := db.tasks[t := row];
    forall s | s in tasks
      ensures TaskOk(s, tasks[s], attempts)
    {
      if s != t {
        OtherTaskOk(db, t, row, attempts, s);
      }
    }
    AttemptsKept(db, t, row, attempts, now);
  }

  lemma AttemptsKept(db: Db, t: string, row: Task, attempts: map<string, Attempt>, now: Time)
    requires FencingInv(db.tasks, db.attempts) && LocalChange(db, t, row, attempts, now)
    ensures DistinctNumbers(attempts)
    ensures forall a :: a in attempts ==>
      attempts[a].taskId in db.tasks[t := row]
      && AttemptOk(a, attempts[a], db.tasks[t := row][attempts[a].taskId])
  {
    hide TaskOk, AttemptOk;
  }

  lemma OtherTaskOk(db: Db, t: string, row: Task, attempts: map<string, Attempt>, s: string)
    requires SameElsewhere(db.attempts, attempts, t) && s != t && s in db.tasks && TaskOk(s, db.tasks[s], db.attempts)
    ensures TaskOk(s, db.tasks[s], attempts)
  {
    var task := db.tasks[s];
    forall n: nat | 1 <= n <= task.attemptsStarted
      ensures HasSlot(attempts, s, n)
    {
      assert HasSlot(db.attempts, s, n);
      var a :| IsSlot(db.attempts, s, n, a);
      assert IsSlot(attempts, s, n, a);
    }
    if task.state == Completed {
      assert HasWinner(db.attempts, s, task.currentFence);
      var a :| IsSlot(db.attempts, s, task.currentFence, a) && db.attempts[a].state == AttemptSucceeded;
      assert IsSlot(attempts, s, task.currentFence, a);
    }
  }

  lemma HistoryExtends(h: seq<TransitionRow>, task: Task, row: Task, tr: TransitionRow)
    requires HistoryOk(h, task) && row.revision == task.revision + 1 && LegalEdge(task.state, row.state)
    requires tr.to == row.state && tr.revision == row.revision && tr.from == Some(task.state)
    ensures HistoryOk(h + [tr], row)
  {
  }

  lemma HistoryKept(db: Db, t: string, row: Task, attempts: map<string, Attempt>, tr: TransitionRow, now: Time)
    requires HistoryInv(db.tasks, db.transitions) && LocalChange(db, t, row, attempts, now)
    requires tr.taskId == t && tr.to == row.state && tr.revision == row.revision
    requires tr.from == if t in db.tasks then Some(db.tasks[t].state) else None
    ensures HistoryInv(db.tasks[t := row], db.transitions + [tr])
  {
    var tasks, rows := db.tasks[t := row], db.transitions + [tr];
    forall s | s in tasks
      ensures HistoryOk(History(rows, s), tasks[s])
    {
      HistoryAppend(db.transitions, tr, s);
      if s != t {
        assert History(db.transitions, s) + [] == History(db.transitions, s);
      } else if t in db.tasks {
        HistoryExtends(History(db.transitions, t), db.tasks[t], row, tr);
      } else {
        NoHistory(db.transitions, t);
        assert [] + [tr] == [tr];
      }
    }
  }

  lemma AccountedGrows(db: Db, t: string, row: Task, attempts: map<string, Attempt>, k: Keys.Key, now: Time)
    requires LocalChange(db, t, row, attempts, now) && Accounted(db.tasks, db.attempts, k)
    ensures Accounted(db.tasks[t := row], attempts, k)
  {
  }

  lemma EventsKept(db: Db, t: string, row: Task, attempts: map<string, Attempt>, e: Event, k: Keys.Key, events: seq<Event>, now: Time)
    requires EventsInv(db.tasks, db.attempts, db.events) && LocalChange(db, t, row, attempts, now)
    requires e.source == SOURCE && e.dedupKey == Some(Keys.Render(k)) && Accounted(db.tasks[t := row], attempts, k)
    requires AppendTo(db.events, e).Success? && events == AppendTo(db.events, e).value.0
    ensures EventsInv(db.tasks[t := row], attempts, events)
  {
    AppendKeeps(db.events, e);
    var tasks := db.tasks[t := row];
    forall i | 0 <= i < |events| && events[i].source == SOURCE
      ensures IsAccounted(tasks, attempts, events[i].dedupKey)
    {
      if i < |db.events| {
        assert events[i] == db.events[i];
        var j :| db.events[i].dedupKey == Some(Keys.Render(j)) && Accounted(db.tasks, db.attempts, j);
        AccountedGrows(db, t, row, attempts, j, now);
      } else {
        assert events[i] == e;
      }
    }
  }

  lemma RowsKept(rows: seq<TransitionRow>, events: seq<Event>, e: Event, after: seq<Event>, tr: TransitionRow)
    requires RowsInv(rows, events) && DistinctEvents(events)
    requires AppendTo(events, e).Success? && after == AppendTo(events, e).value.0
    requires tr.eventId == e.id && !TransitionClashes(rows, tr.id, tr.eventId)
    ensures RowsInv(rows + [tr], after)
  {
    AppendKeeps(events, e);
    forall i | 0 <= i < |rows + [tr]|
      ensures IdUsed(after, (rows + [tr])[i].eventId)
    {
      if i < |rows| {
        var j :| 0 <= j < |events| && events[j].id == rows[i].eventId;
        assert after[j] == events[j];
      } else {
        var j :| 0 <= j < |after| && after[j] == e;
      }
    }
  }

  /** Whatever Advance commits keeps the invariant, provided the change to its one task is sound. */
  lemma AdvanceKeeps(db: Db, t: string, row: Task, attempts: map<string, Attempt>, e: Event, tr: TransitionRow,
                     k: Keys.Key, now: Time)
    requires Inv(db) && LocalChange(db, t, row, attempts, now)
    requires e.source == SOURCE && e.dedupKey == Some(Keys.Render(k)) && Accounted(db.tasks[t := row], attempts, k)
    requires tr.taskId == t && tr.to == row.state && tr.revision == row.revision
    requires tr.from == if t in db.tasks then Some(db.tasks[t].state) else None
    ensures Advance(db, t, row, attempts, e, tr).Done? ==> Kept(db, Advance(db, t, row, attempts, e, tr).db, t, now)
  {
    hide LocalChange, FencingInv, HistoryInv, EventsInv, RowsInv;
    if Advance(db, t, row, attempts, e, tr).Done? {
      var recorded := tr.(eventId := AppendTo(db.events, e).value.1.id);
      var after := Advance(db, t, row, attempts, e, tr).db;
      EventsDistinct(db);
      AppendKeeps(db.events, e);
      FencingKept(db, t, row, attempts, now);
      HistoryKept(db, t, row, attempts, recorded, now);
      EventsKept(db, t, row, attempts, e, k, AppendTo(db.events, e).value.0, now);
      RowsKept(db.transitions, db.events, e, AppendTo(db.events, e).value.0, recorded);
      AdvanceTouches(db, t, row, attempts, after, e, now);
    }
  }

  lemma EventsDistinct(db: Db)
    requires Inv(db)
    ensures DistinctEvents(db.events)
  {
    hide FencingInv, HistoryInv, RowsInv;
  }

  lemma AdvanceTouches(db: Db, t: string, row: Task, attempts: map<string, Attempt>, after: Db, e: Event, now: Time)
    requires LocalChange(db, t, row, attempts, now) && e.source == SOURCE
    requires after == db.(tasks := db.tasks[t := row], attempts := attempts, events := after.events, transitions := after.transitions)
    requires after.events == db.events || after.events == db.events + [e]
    requires db.transitions <= after.transitions
    ensures Evolves(db, after, now) && Touches(db, after, t)
  {
    hide TaskOk, AttemptOk;
  }

  // ----- each transaction keeps the invariant

  /** A row that moves on without an active attempt. */
  ghost predicate MovesOn(task: Task, row: Task) {
    && task.active.None? && row.active.None?
    && row.submission == task.submission && row.maxAttempts == task.maxAttempts
    && row.attemptsStarted == task.attemptsStarted && row.currentFence == task.currentFence
    && row.revision == task.revision + 1 && row.resultHash == task.resultHash
    && LegalEdge(task.state, row.state) && task.state !in {Completed, Cancelled}
    && row.state !in {Completed, Created, Verifying}
    && row.idempotencyKey == task.idempotencyKey && row.createdAt == task.createdAt
    && (row.terminalAt.Some? <==> Terminal(row.state))
  }

  lemma MovedTaskOk(t: string, task: Task, row: Task, attempts: map<string, Attempt>)
    requires TaskOk(t, task, attempts) && MovesOn(task, row)
    ensures TaskOk(t, row, attempts)
  {
  }

  lemma MovedAttempts(db: Db, t: string, row: Task)
    requires FencingInv(db.tasks, db.attempts) && t in db.tasks && MovesOn(db.tasks[t], row)
    ensures forall a :: a in db.attempts && db.attempts[a].taskId == t ==> AttemptOk(a, db.attempts[a], row)
  {
    hide TaskOk;
  }

  lemma RowEvolves(db: Db, t: string, row: Task, now: Time)
    requires t in db.tasks && MovesOn(db.tasks[t], row)
    ensures TaskEvolves(db.attempts, db.tasks[t], row) && AttemptsEvolve(db.attempts, db.attempts, now)
    ensures SameElsewhere(db.attempts, db.attempts, t)
  {
  }

  /** A row that moves on while the attempts stay as they are. */
  lemma RowChange(db: Db, t: string, row: Task, now: Time)
    requires FencingInv(db.tasks, db.attempts) && t in db.tasks && MovesOn(db.tasks[t], row)
    ensures LocalChange(db, t, row, db.attempts, now)
  {
    hide TaskOk, AttemptOk, TaskEvolves, AttemptsEvolve, SameElsewhere;
    TaskFacts(db, t);
    MovedTaskOk(t, db.tasks[t], row, db.attempts);
    MovedAttempts(db, t, row);
    RowEvolves(db, t, row, now);
  }

  lemma TransitionKeeps(db: Db, stamp: Stamp, t: string, to: TaskState, reason: string, causation: Option<string>, now: Time)
    requires Inv(db)
    ensures Kept(db, Commit(db, Transition(db, stamp, t, to, reason, causation, now)), t, now)
  {
    hide FencingInv, HistoryInv, EventsInv, RowsInv, LocalChange, Kept, Advance;
    KeptReflexive(db, t, now);
    if Transition(db, stamp, t, to, reason, causation, now).Done? {
      var task := db.tasks[t];
      var row := MovedRow(task, to, now);
      RowChange(db, t, row, now);
      AdvanceKeeps(db, t, row, db.attempts,
        MovedEvent(stamp, t, "task." + StateName(to), task, to, reason).(causationId := causation),
        NewTransition(stamp, t, None, Some(task.state), row, reason, now), Keys.Revised(t, row.revision), now);
    }
  }

  lemma SubmitChange(db: Db, r: Request, now: Time)
    requires FencingInv(db.tasks, db.attempts) && r.taskId !in db.tasks
    ensures LocalChange(db, r.taskId, NewRow(r, now), db.attempts, now)
  {
    hide TaskOk;
    assert forall a :: a in db.attempts ==> db.attempts[a].taskId != r.taskId;
    NewTaskOk(r, db.attempts, now);
  }

  lemma NewTaskOk(r: Request, attempts: map<string, Attempt>, now: Time)
    ensures TaskOk(r.taskId, NewRow(r, now), attempts)
  {
  }

  lemma SubmitKeeps(db: Db, stamp: Stamp, r: Request, now: Time)
    requires Inv(db)
    ensures Kept(db, Commit(db, Submit(db, stamp, r, now)), r.taskId, now)
  {
    hide FencingInv, HistoryInv, EventsInv, RowsInv, LocalChange, Kept, Advance;
    KeptReflexive(db, r.taskId, now);
    if Submit(db, stamp, r, now).Done? && r.taskId !in db.tasks {
      var row := NewRow(r, now);
      SubmitChange(db, r, now);
      AdvanceKeeps(db, r.taskId, row, db.attempts,
        KernelEvent(stamp, "task.created", r.taskId, Keys.Created(r.taskId), Submitted(SubmissionOf(r))),
        NewTransition(stamp, r.taskId, None, None, row, "submitted", now), Keys.Created(r.taskId), now);
    }
  }

  lemma PrepareKeeps(db: Db, first: Stamp, second: Stamp, t: string, now: Time)
    requires Inv(db)
    ensures Kept(db, Commit(db, Prepare(db, first, second, t, now)), t, now)
  {
    hide Inv, Kept;
    KeptReflexive(db, t, now);
    if t in db.tasks {
      var o := Outcome.Done(db, db.tasks[t]);
      PrepareStepKeeps(db, o, Created, first, t, Planned, "plan.created", now);
      var planned := PrepareStep(o, Created, first, t, Planned, "plan.created", now);
      PrepareStepKeeps(db, planned, Planned, second, t, Ready, "plan.ready", now);
      var ready := PrepareStep(planned, Planned, second, t, Ready, "plan.ready", now);
      PrepareStepKeeps(db, ready, Blocked, first, t, Ready, "plan.recheck", now);
    }
  }

  lemma PrepareStepKeeps(db: Db, o: Outcome<Task>, from: TaskState, stamp: Stamp, t: string, to: TaskState,
                         reason: string, now: Time)
    requires o.Done? ==> Kept(db, o.db, t, now)
    ensures var after := PrepareStep(o, from, stamp, t, to, reason, now); after.Done? ==> Kept(db, after.db, t, now)
  {
    if o.Done? {
      assert Inv(o.db);
      hide Inv, Kept;
      TransitionKeeps(o.db, stamp, t, to, reason, None, now);
      var after := PrepareStep(o, from, stamp, t, to, reason, now);
      if after.Done? && o.value.state == from {
        KeptTransitive(db, o.db, after.db, t, now);
      }
    }
  }

  lemma RetryKeeps(db: Db, stamp: Stamp, t: string, now: Time)
    requires Inv(db)
    ensures Kept(db, Commit(db, Retry(db, stamp, t, now)), t, now)
  {
    hide FencingInv, HistoryInv, EventsInv, RowsInv, LocalChange, Kept, Advance;
    KeptReflexive(db, t, now);
    if Retry(db, stamp, t, now).Done? {
      var task := db.tasks[t];
      ActiveRow(db, t);
      var row := RetriedRow(task, now);
      RowChange(db, t, row, now);
      AdvanceKeeps(db, t, row, db.attempts,
        MovedEvent(stamp, t, "task.retrying", task, Retrying, "user.retry"),
        NewTransition(stamp, t, None, Some(task.state), row, "user.retry", now), Keys.Revised(t, row.revision), now);
    }
  }

  /** A row that loses its active attempt to an ending. */
  ghost predicate Closes(task: Task, a: string, row: Task, state: AttemptState, outcome: Option<string>) {
    && task.active == Some(a) && row.active.None?
    && row.submission == task.submission && row.maxAttempts == task.maxAttempts
    && row.attemptsStarted == task.attemptsStarted && row.currentFence == task.currentFence
    && row.revision == task.revision + 1 && LegalEdge(Running, row.state)
    && row.idempotencyKey == task.idempotencyKey && row.createdAt == task.createdAt
    && row.state !in {Created, Verifying, Planned, Ready, Blocked}
    && (row.terminalAt.Some? <==> Terminal(row.state))
    && state != AttemptRunning && (row.state == Completed <==> state == AttemptSucceeded)
    && (row.state == Completed <==> row.resultHash.Some?)
    && (row.state == Completed ==> outcome == row.resultHash)
  }

  lemma ActiveAttempt(db: Db, t: string, a: string)
    requires FencingInv(db.tasks, db.attempts) && t in db.tasks && db.tasks[t].active == Some(a)
    ensures a in db.attempts && db.attempts[a].taskId == t && db.attempts[a].state == AttemptRunning
    ensures db.tasks[t].state == Running && db.attempts[a].fence == db.attempts[a].number == db.tasks[t].currentFence
  {
    assert TaskOk(t, db.tasks[t], db.attempts);
  }

  lemma ClosingTaskOk(db: Db, t: string, a: string, row: Task, state: AttemptState, outcome: Option<string>,
                      errorCode: Option<string>, now: Time)
    requires FencingInv(db.tasks, db.attempts) && t in db.tasks && Closes(db.tasks[t], a, row, state, outcome)
    ensures TaskOk(t, row, CloseAttempt(db.attempts, a, state, outcome, errorCode, now))
  {
    ActiveAttempt(db, t, a);
    assert TaskOk(t, db.tasks[t], db.attempts);
    hide FencingInv;
    var attempts := CloseAttempt(db.attempts, a, state, outcome, errorCode, now);
    forall n: nat | 1 <= n <= row.attemptsStarted
      ensures HasSlot(attempts, t, n)
    {
      assert HasSlot(db.attempts, t, n);
      var b :| IsSlot(db.attempts, t, n, b);
      assert IsSlot(attempts, t, n, b);
    }
    assert IsSlot(attempts, t, row.currentFence, a);
  }

  /** The active attempt of a task ends, and the row loses it. */
  lemma ClosingChange(db: Db, t: string, a: string, row: Task, state: AttemptState, outcome: Option<string>,
                      errorCode: Option<string>, now: Time)
    requires FencingInv(db.tasks, db.attempts) && t in db.tasks && Closes(db.tasks[t], a, row, state, outcome)
    ensures a in db.attempts && db.tasks[t].state == Running && db.attempts[a].state == AttemptRunning
    ensures LocalChange(db, t, row, CloseAttempt(db.attempts, a, state, outcome, errorCode, now), now)
  {
    hide TaskOk;
    ActiveAttempt(db, t, a);
    ClosingTaskOk(db, t, a, row, state, outcome, errorCode, now);
    ClosingAttempts(db, t, a, row, state, outcome, errorCode, now);
    hide FencingInv, AttemptOk;
  }

  lemma ClosingAttempts(db: Db, t: string, a: string, row: Task, state: AttemptState, outcome: Option<string>,
                        errorCode: Option<string>, now: Time)
    requires FencingInv(db.tasks, db.attempts) && t in db.tasks && Closes(db.tasks[t], a, row, state, outcome)
    requires a in db.attempts && db.attempts[a].taskId == t && db.attempts[a].state == AttemptRunning
    requires db.tasks[t].state == Running && db.attempts[a].fence == db.tasks[t].currentFence
    ensures var attempts := CloseAttempt(db.attempts, a, state, outcome, errorCode, now);
      && (forall b :: b in attempts && attempts[b].taskId == t ==> AttemptOk(b, attempts[b], row))
      && (forall b, c :: b in attempts && c in attempts && b != c && attempts[b].taskId == t && attempts[c].taskId == t ==>
            attempts[b].number != attempts[c].number)
  {
    hide TaskOk;
  }

  lemma ActiveRow(db: Db, t: string)
    requires FencingInv(db.tasks, db.attempts) && t in db.tasks
    ensures db.tasks[t].resultHash.Some? <==> db.tasks[t].state == Completed
    ensures db.tasks[t].active.Some? ==> db.tasks[t].state == Running
  {
    assert TaskOk(t, db.tasks[t], db.attempts);
  }

  lemma CancelKeeps(db: Db, stamp: Stamp, t: string, lease: Option<Lease>, now: Time)
    requires Inv(db)
    ensures Kept(db, Commit(db, Cancel(db, stamp, t, lease, now)), t, now)
  {
    hide FencingInv, HistoryInv, EventsInv, RowsInv, LocalChange, Kept, Advance, Authoritative;
    KeptReflexive(db, t, now);
    if Cancel(db, stamp, t, lease, now).Done? {
      var task := db.tasks[t];
      var row := CancelledRow(task, now);
      ActiveRow(db, t);
      if task.active.Some? {
        ClosingChange(db, t, task.active.value, row, AttemptCancelled, None, Some("task_cancelled"), now);
      } else {
        RowChange(db, t, row, now);
      }
      AdvanceKeeps(db, t, row, CancelledAttempts(db, task, now),
        MovedEvent(stamp, t, "task.cancelled", task, Cancelled, "user.cancelled"),
        NewTransition(stamp, t, task.active, Some(task.state), row, "user.cancelled", now),
        Keys.Revised(t, row.revision), now);
    }
  }

  lemma CompleteKeeps(db: Db, stamp: Stamp, lease: Lease, success: bool, outcomeHash: string,
                      errorCode: Option<string>, retryable: bool, retryAt: Option<Time>, now: Time)
    requires Inv(db)
    ensures Kept(db, Commit(db, Complete(db, stamp, lease, success, outcomeHash, errorCode, retryable, retryAt, now)), lease.taskId, now)
  {
    hide FencingInv, HistoryInv, EventsInv, RowsInv, LocalChange, Kept, Advance;
    KeptReflexive(db, lease.taskId, now);
    if Complete(db, stamp, lease, success, outcomeHash, errorCode, retryable, retryAt, now).Done? {
      var t, a := lease.taskId, lease.attemptId;
      var task := db.tasks[t];
      var ended := if success then AttemptSucceeded else AttemptFailed;
      var row := CompletedRow(task, success, outcomeHash, errorCode, retryable, retryAt, now);
      ClosingChange(db, t, a, row, ended, Some(outcomeHash), errorCode, now);
      AdvanceKeeps(db, t, row, CloseAttempt(db.attempts, a, ended, Some(outcomeHash), errorCode, now),
        CompletedEvent(stamp, lease, row.state, success, outcomeHash, errorCode),
        NewTransition(stamp, t, Some(a), Some(task.state), row, "attempt.completed", now), Keys.Completed(a), now);
    }
  }

  /** Ending an expired attempt is sound whenever it is the active one. */
  lemma ExpireKeeps(db: Db, stamp: Stamp, t: string, a: string, target: TaskState, now: Time)
    requires Inv(db) && t in db.tasks && db.tasks[t].active == Some(a) && target in {Recovering, Failed}
    ensures Kept(db, Commit(db, Expire(db, stamp, t, a, target, now)), t, now)
  {
    hide FencingInv, HistoryInv, EventsInv, RowsInv, LocalChange, Kept, Advance;
    KeptReflexive(db, t, now);
    var task := db.tasks[t];
    var row := ExpiredRow(task, target, now);
    ActiveRow(db, t);
    ClosingChange(db, t, a, row, AttemptExpired, None, Some("lease_expired"), now);
    AdvanceKeeps(db, t, row, CloseAttempt(db.attempts, a, AttemptExpired, None, Some("lease_expired"), now),
      ExpiredEvent(stamp, t, a, task, target),
      NewTransition(stamp, t, Some(a), Some(Running), row, "lease.expired", now), Keys.Expired(a), now);
  }

  lemma ClaimTaskOk(db: Db, t: string, a: string, attempt: Attempt, now: Time)
    requires t in db.tasks && TaskOk(t, db.tasks[t], db.attempts) && a !in db.attempts
    requires db.tasks[t].state in {Ready, Retrying, Recovering} && db.tasks[t].attemptsStarted < db.tasks[t].maxAttempts
    requires attempt.taskId == t && attempt.number == db.tasks[t].attemptsStarted + 1
    requires attempt.fence == db.tasks[t].currentFence + 1
    ensures TaskOk(t, ClaimedRow(db.tasks[t], a, now), db.attempts[a := attempt])
  {
    var row, attempts := ClaimedRow(db.tasks[t], a, now), db.attempts[a := attempt];
    forall n: nat | 1 <= n <= row.attemptsStarted
      ensures HasSlot(attempts, t, n)
    {
      if n == attempt.number {
        assert IsSlot(attempts, t, n, a);
      } else {
        assert HasSlot(db.attempts, t, n);
        var b :| IsSlot(db.attempts, t, n, b);
        assert IsSlot(attempts, t, n, b);
      }
    }
  }

  lemma ClaimChange(db: Db, t: string, a: string, attempt: Attempt, now: Time)
    requires FencingInv(db.tasks, db.attempts) && t in db.tasks
    requires db.tasks[t].state in {Ready, Retrying, Recovering} && db.tasks[t].attemptsStarted < db.tasks[t].maxAttempts
    requires !AttemptClashes(db.attempts, a, t, db.tasks[t].attemptsStarted + 1, db.tasks[t].currentFence + 1)
    requires attempt.taskId == t && attempt.number == db.tasks[t].attemptsStarted + 1
    requires attempt.fence == db.tasks[t].currentFence + 1
    requires attempt.state == AttemptRunning && attempt.finishedAt.None?
    ensures LocalChange(db, t, ClaimedRow(db.tasks[t], a, now), db.attempts[a := attempt], now)
  {
    hide TaskOk;
    TaskFacts(db, t);
    ClaimTaskOk(db, t, a, attempt, now);
    ClaimAttempts(db, t, a, attempt, now);
    hide FencingInv, AttemptOk, AttemptClashes;
  }

  /** The attempts beside the new one, against the row that now runs it. */
  lemma ClaimAttempts(db: Db, t: string, a: string, attempt: Attempt, now: Time)
    requires FencingInv(db.tasks, db.attempts) && t in db.tasks && db.tasks[t].active.None?
    requires !AttemptClashes(db.attempts, a, t, db.tasks[t].attemptsStarted + 1, db.tasks[t].currentFence + 1)
    requires db.tasks[t].attemptsStarted == db.tasks[t].currentFence && db.tasks[t].state != Completed
    requires attempt.taskId == t && attempt.number == attempt.fence == db.tasks[t].attemptsStarted + 1
    requires attempt.state == AttemptRunning && attempt.finishedAt.None?
    ensures var attempts := db.attempts[a := attempt];
      && (forall b :: b in attempts && attempts[b].taskId == t ==> AttemptOk(b, attempts[b], ClaimedRow(db.tasks[t], a, now)))
      && (forall b, c :: b in attempts && c in attempts && b != c && attempts[b].taskId == t && attempts[c].taskId == t ==>
            attempts[b].number != attempts[c].number)
  {
    hide TaskOk;
  }

  lemma TaskFacts(db: Db, t: string)
    requires FencingInv(db.tasks, db.attempts) && t in db.tasks
    ensures db.tasks[t].attemptsStarted == db.tasks[t].currentFence && TaskOk(t, db.tasks[t], db.attempts)
    ensures db.tasks[t].state != Running ==> db.tasks[t].active.None?
  {
  }

  lemma ClaimKeeps(db: Db, stamp: Stamp, a: string, t: string, plan: Plan, owner: string, leaseSeconds: int, now: Time)
    requires Inv(db)
    ensures Kept(db, Commit(db, Claim(db, stamp, a, t, plan, owner, leaseSeconds, now)), t, now)
  {
    hide FencingInv, HistoryInv, EventsInv, RowsInv, LocalChange, Kept, Advance, AttemptClashes;
    KeptReflexive(db, t, now);
    if Claim(db, stamp, a, t, plan, owner, leaseSeconds, now).Done? {
      var task := db.tasks[t];
      var attempt := NewAttempt(t, task, plan, owner, leaseSeconds, now);
      var row := ClaimedRow(task, a, now);
      ClaimChange(db, t, a, attempt, now);
      AdvanceKeeps(db, t, row, db.attempts[a := attempt], StartedEvent(stamp, t, a, attempt),
        NewTransition(stamp, t, Some(a), Some(task.state), row, "attempt.started", now),
        Keys.Started(t, attempt.number), now);
    }
  }

  /** One attempt's lease changes, and nothing else of the attempts. */
  ghost predicate SameButLease(before: map<string, Attempt>, after: map<string, Attempt>, a: string) {
    && a in before && after.Keys == before.Keys
    && (forall b :: b in before && b != a ==> after[b] == before[b])
    && after[a] == before[a].(leaseUntil := after[a].leaseUntil, renewedAt := after[a].renewedAt)
  }

  lemma RenewTaskOk(t: string, task: Task, before: map<string, Attempt>, after: map<string, Attempt>, a: string)
    requires TaskOk(t, task, before) && SameButLease(before, after, a)
    ensures TaskOk(t, task, after)
  {
    forall n: nat | 1 <= n <= task.attemptsStarted
      ensures HasSlot(after, t, n)
    {
      assert HasSlot(before, t, n);
      var b :| IsSlot(before, t, n, b);
      assert IsSlot(after, t, n, b);
    }
    if task.state == Completed {
      assert HasWinner(before, t, task.currentFence);
      var b :| IsSlot(before, t, task.currentFence, b) && before[b].state == AttemptSucceeded;
      assert IsSlot(after, t, task.currentFence, b);
    }
  }

  lemma RenewFencing(tasks: map<string, Task>, before: map<string, Attempt>, after: map<string, Attempt>, a: string)
    requires FencingInv(tasks, before) && SameButLease(before, after, a)
    ensures FencingInv(tasks, after)
  {
    hide TaskOk;
    forall t | t in tasks
      ensures TaskOk(t, tasks[t], after)
    {
      RenewTaskOk(t, tasks[t], before, after, a);
    }
    RenewAttempts(tasks, before, after, a);
  }

  lemma RenewAttempts(tasks: map<string, Task>, before: map<string, Attempt>, after: map<string, Attempt>, a: string)
    requires FencingInv(tasks, before) && SameButLease(before, after, a)
    ensures DistinctNumbers(after)
    ensures forall b :: b in after ==> after[b].taskId in tasks && AttemptOk(b, after[b], tasks[after[b].taskId])
  {
    hide TaskOk;
    forall b | b in after
      ensures after[b].taskId == before[b].taskId && after[b].number == before[b].number
    {
    }
  }

  lemma RenewEvents(tasks: map<string, Task>, before: map<string, Attempt>, after: map<string, Attempt>, a: string,
                    events: seq<Event>, e: Event, k: Keys.Key)
    requires EventsInv(tasks, before, events) && SameButLease(before, after, a)
    requires e.dedupKey == Some(Keys.Render(k)) && Accounted(tasks, after, k) && AppendTo(events, e).Success?
    ensures EventsInv(tasks, after, AppendTo(events, e).value.0)
  {
    AppendKeeps(events, e);
    var log := AppendTo(events, e).value.0;
    forall i | 0 <= i < |log| && log[i].source == SOURCE
      ensures IsAccounted(tasks, after, log[i].dedupKey)
    {
      if i < |events| {
        assert log[i] == events[i];
        var j :| events[i].dedupKey == Some(Keys.Render(j)) && Accounted(tasks, before, j);
        assert Accounted(tasks, after, j);
      }
    }
  }

  lemma RowsInLog(rows: seq<TransitionRow>, events: seq<Event>, e: Event)
    requires RowsInv(rows, events) && DistinctEvents(events) && AppendTo(events, e).Success?
    ensures RowsInv(rows, AppendTo(events, e).value.0)
  {
    AppendKeeps(events, e);
    var log := AppendTo(events, e).value.0;
    forall i | 0 <= i < |rows|
      ensures IdUsed(log, rows[i].eventId)
    {
      var j :| 0 <= j < |events| && events[j].id == rows[i].eventId;
      assert log[j] == events[j];
    }
  }

  lemma RenewTouches(db: Db, after: Db, lease: Lease, attempts: map<string, Attempt>, e: Event, now: Time)
    requires FencingInv(db.tasks, db.attempts) && Authoritative(db, lease, now) && e.source == SOURCE
    requires SameButLease(db.attempts, attempts, lease.attemptId)
    requires after == db.(attempts := attempts, events := after.events)
    requires AppendTo(db.events, e).Success? && after.events == AppendTo(db.events, e).value.0 && DistinctEvents(db.events)
    ensures Evolves(db, after, now) && Touches(db, after, lease.taskId)
  {
    hide FencingInv, AppendTo, Evolves;
    ActiveAttempt(db, lease.taskId, lease.attemptId);
    AppendKeeps(db.events, e);
    RenewEvolves(db, after, lease.attemptId, now);
  }

  lemma RenewEvolves(db: Db, after: Db, a: string, now: Time)
    requires SameButLease(db.attempts, after.attempts, a)
    requires db.attempts[a].state == AttemptRunning && db.attempts[a].leaseUntil >= now
    requires after == db.(attempts := after.attempts, events := after.events) && db.events <= after.events
    ensures Evolves(db, after, now)
  {
    hide TaskEvolves;
    forall t | t in db.tasks
      ensures TaskEvolves(db.attempts, db.tasks[t], db.tasks[t])
    {
      TaskEvolvesItself(db.attempts, db.tasks[t]);
    }
  }

  /** A renewal changes only the lease of one attempt. */
  lemma RenewKeeps(db: Db, stamp: Stamp, lease: Lease, leaseSeconds: int, now: Time)
    requires Inv(db)
    ensures Kept(db, Commit(db, Renew(db, stamp, lease, leaseSeconds, now)), lease.taskId, now)
  {
    hide FencingInv, HistoryInv, RowsInv, AppendTo;
    KeptReflexive(db, lease.taskId, now);
    if Renew(db, stamp, lease, leaseSeconds, now).Done? {
      var a := lease.attemptId;
      var attempts := db.attempts[a := RenewedAttempt(db.attempts[a], leaseSeconds, now)];
      var e := RenewedEvent(stamp, lease, now);
      RenewFencing(db.tasks, db.attempts, attempts, a);
      RenewEvents(db.tasks, db.attempts, attempts, a, db.events, e, Keys.Renewed(a, Truncate(now * 1000.0)));
      RowsInLog(db.transitions, db.events, e);
      RenewTouches(db, Renew(db, stamp, lease, leaseSeconds, now).db, lease, attempts, e, now);
    }
  }
}
