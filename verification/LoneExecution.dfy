/** One call of `execute` that nothing interferes with, from its request to the end of its task. */
module LoneExecution {
  import opened Execution
  import opened Inputs
  import opened Recovery
  import opened TaskEffects
  import opened TaskInvariants
  import opened Tables
  import opened Verdicts
  import opened Wrappers
  import Checkpoints
  import Keys
  import Leases
  import Tasks

  /** Process p has come this far, its task has this row, and these stamps are new. */
  ghost predicate At(w: World, p: nat, phase: Phase, t: string, row: Task, stamps: seq<Stamp>) {
    Inv(w.db) && p in w.phases && w.phases[p] == phase && t in w.db.tasks && w.db.tasks[t] == row && AllFresh(w.db, stamps)
  }

  /** Nothing was called and nothing answered on the way from one world to the other. */
  ghost predicate Silent(w: World, after: World) {
    after.calls == w.calls && after.answers == w.answers && after.reported == w.reported
  }

  lemma StampSpent(db: Db, after: Db, stamps: seq<Stamp>, t: string, row: Task, attempts: map<string, Attempt>, e: Event, tr: TransitionRow)
    requires |stamps| > 0 && AllFresh(db, stamps) && e.id == stamps[0].eventId && tr.id == stamps[0].transitionId
    requires after == Advanced(db, t, row, attempts, e, tr)
    ensures AllFresh(after, stamps[1..])
  {
    RestFresh(db, after, stamps);
  }

  lemma FirstStamp(db: Db, stamps: seq<Stamp>)
    requires |stamps| > 0 && AllFresh(db, stamps)
    ensures Fresh(db, stamps[0])
  {
  }

  // ----- the transactions

  lemma SubmitAlone(db: Db, stamps: seq<Stamp>, r: Tasks.Request, now: Time)
    requires Inv(db) && |stamps| > 0 && AllFresh(db, stamps) && r.taskId !in db.tasks && !Tasks.KeyTaken(db.tasks, r.idempotencyKey)
    ensures var o := Tasks.Submit(db, stamps[0], r, now);
      && o.Done? && Inv(o.db) && o.value == Tasks.NewRow(r, now) && o.db.tasks == db.tasks[r.taskId := o.value]
      && o.db.attempts == db.attempts && AllFresh(o.db, stamps[1..])
  {
    hide Inv, AllFresh, Fresh, Tasks.Submit, Tasks.KeyTaken, Evolves, Touches;
    FirstStamp(db, stamps);
    SubmitExact(db, stamps[0], r, now);
    SubmitKeeps(db, stamps[0], r, now);
    var row := Tasks.NewRow(r, now);
    StampSpent(db, Tasks.Submit(db, stamps[0], r, now).db, stamps, r.taskId, row, db.attempts,
      Tasks.KernelEvent(stamps[0], "task.created", r.taskId, Keys.Created(r.taskId), Submitted(Tasks.SubmissionOf(r))),
      Tasks.NewTransition(stamps[0], r.taskId, None, None, row, "submitted", now));
  }

  lemma MoveAlone(db: Db, stamps: seq<Stamp>, t: string, to: TaskState, reason: string, now: Time)
    requires Inv(db) && |stamps| > 0 && AllFresh(db, stamps) && t in db.tasks
    requires db.tasks[t].active.None? && to in AllowedTransitions(db.tasks[t].state)
    ensures var o := Tasks.Transition(db, stamps[0], t, to, reason, None, now);
      && o.Done? && Inv(o.db) && o.value == Tasks.MovedRow(db.tasks[t], to, now) && o.db.tasks == db.tasks[t := o.value]
      && o.db.attempts == db.attempts && AllFresh(o.db, stamps[1..])
  {
    hide Inv, AllFresh, Fresh, Tasks.Transition, Evolves, Touches, StateName;
    FirstStamp(db, stamps);
    TransitionExact(db, stamps[0], t, to, reason, None, now);
    TransitionKeeps(db, stamps[0], t, to, reason, None, now);
    var task := db.tasks[t];
    var row := Tasks.MovedRow(task, to, now);
    StampSpent(db, Tasks.Transition(db, stamps[0], t, to, reason, None, now).db, stamps, t, row, db.attempts,
      Tasks.MovedEvent(stamps[0], t, "task." + StateName(to), task, to, reason).(causationId := None),
      Tasks.NewTransition(stamps[0], t, None, Some(task.state), row, reason, now));
  }

  lemma ClaimAlone(db: Db, stamps: seq<Stamp>, a: string, t: string, plan: Plan, owner: string, seconds: int, now: Time)
    requires Inv(db) && |stamps| > 0 && AllFresh(db, stamps) && a !in db.attempts && t in db.tasks && Tasks.Claimable(db.tasks[t], now)
    ensures var o := Tasks.Claim(db, stamps[0], a, t, plan, owner, seconds, now);
      && o.Done? && Inv(o.db) && o.value.attemptId == a && o.value.taskId == t && t in o.db.tasks
      && o.value.leaseUntil == now + Max(1, seconds) as real && o.value.plan == plan
      && o.db.tasks[t] == Tasks.ClaimedRow(db.tasks[t], a, now)
      && (forall at :: Tasks.Authoritative(o.db, o.value, at) <==> at <= o.value.leaseUntil) && AllFresh(o.db, stamps[1..])
  {
    hide Inv, AllFresh, Fresh, Tasks.Claim, Evolves, Touches, Tasks.Claimable, Tasks.Authoritative;
    FirstStamp(db, stamps);
    ClaimExact(db, stamps[0], a, t, plan, owner, seconds, now);
    ClaimKeeps(db, stamps[0], a, t, plan, owner, seconds, now);
    forall at: Time
      ensures var o := Tasks.Claim(db, stamps[0], a, t, plan, owner, seconds, now);
        Tasks.Authoritative(o.db, o.value, at) <==> at <= o.value.leaseUntil
    {
      Leases.ClaimLasts(db, stamps[0], a, t, plan, owner, seconds, now, at);
    }
    var task := db.tasks[t];
    var attempt, row := Tasks.NewAttempt(t, task, plan, owner, seconds, now), Tasks.ClaimedRow(task, a, now);
    StampSpent(db, Tasks.Claim(db, stamps[0], a, t, plan, owner, seconds, now).db, stamps, t, row, db.attempts[a := attempt],
      Tasks.StartedEvent(stamps[0], t, a, attempt),
      Tasks.NewTransition(stamps[0], t, Some(a), Some(task.state), row, "attempt.started", now));
  }

  // ----- the acts

  lemma BeginAlone(w: World, sha: Checkpoints.Sha, p: nat, stamps: seq<Stamp>, r: Tasks.Request, now: Time)
    requires Inv(w.db) && |stamps| > 0 && AllFresh(w.db, stamps) && p !in w.phases
    requires r.taskId !in w.db.tasks && !Tasks.KeyTaken(w.db.tasks, r.idempotencyKey)
    ensures Possible(w, Begin(p, stamps[0], r), now)
    ensures var after := Perform(w, sha, Begin(p, stamps[0], r), now);
      && At(after, p, Looking(r.taskId), r.taskId, Tasks.NewRow(r, now), stamps[1..]) && Silent(w, after)
      && after.db.attempts == w.db.attempts
  {
    hide Inv, AllFresh, Tasks.Submit, Tasks.KeyTaken;
    SubmitAlone(w.db, stamps, r, now);
  }

  lemma LookAlone(w: World, sha: Checkpoints.Sha, p: nat, t: string, row: Task, stamps: seq<Stamp>, now: Time)
    requires At(w, p, Looking(t), t, row, stamps)
    ensures Possible(w, Look(p), now)
    ensures var after := Perform(w, sha, Look(p), now);
      At(after, p, Preparing(t, row.state), t, row, stamps) && Silent(w, after) && after.db == w.db
  {
    hide Inv, AllFresh;
  }

  lemma PrepareAlone(w: World, sha: Checkpoints.Sha, p: nat, t: string, row: Task, stamps: seq<Stamp>, to: TaskState, now: Time)
    requires At(w, p, Preparing(t, row.state), t, row, stamps) && |stamps| > 0 && row.active.None?
    requires (row.state == Created && to == Planned) || (row.state in {Planned, Blocked} && to == Ready)
    ensures Possible(w, Prepare(p, stamps[0]), now)
    ensures var after := Perform(w, sha, Prepare(p, stamps[0]), now);
      && At(after, p, Preparing(t, to), t, Tasks.MovedRow(row, to, now), stamps[1..]) && Silent(w, after)
      && after.db.attempts == w.db.attempts
  {
    hide Inv, AllFresh, Tasks.Transition;
    MoveAlone(w.db, stamps, t, to, PrepareReason(row.state), now);
  }

  lemma PreparedAlone(w: World, sha: Checkpoints.Sha, p: nat, t: string, row: Task, stamps: seq<Stamp>, stamp: Stamp, now: Time)
    requires At(w, p, Preparing(t, row.state), t, row, stamps) && row.state !in {Created, Planned, Blocked}
    ensures Possible(w, Prepare(p, stamp), now)
    ensures var after := Perform(w, sha, Prepare(p, stamp), now);
      At(after, p, Planning(t), t, row, stamps) && Silent(w, after) && after.db == w.db
  {
    hide Inv, AllFresh;
  }

  lemma DecideAlone(w: World, sha: Checkpoints.Sha, p: nat, t: string, row: Task, stamps: seq<Stamp>, plan: Option<Plan>, now: Time)
    requires At(w, p, Planning(t), t, row, stamps) && (plan.Some? ==> plan.value.taskId == t)
    ensures Possible(w, Decide(p, plan), now)
    ensures var after := Perform(w, sha, Decide(p, plan), now);
      && At(after, p, if plan.Some? then Claiming(t, plan.value) else Blocking(t), t, row, stamps) && Silent(w, after)
      && after.db == w.db
  {
    hide Inv, AllFresh;
  }

  lemma BlockAlone(w: World, sha: Checkpoints.Sha, p: nat, t: string, row: Task, stamps: seq<Stamp>, now: Time)
    requires At(w, p, Blocking(t), t, row, stamps) && |stamps| > 0 && row.active.None? && row.state == Ready
    ensures Possible(w, Block(p, stamps[0]), now)
    ensures var after := Perform(w, sha, Block(p, stamps[0]), now);
      At(after, p, Phase.Ended, t, Tasks.MovedRow(row, Blocked, now), stamps[1..]) && Silent(w, after)
  {
    hide Inv, AllFresh, Tasks.Transition;
    MoveAlone(w.db, stamps, t, Blocked, "planning_or_policy_failure", now);
  }

  lemma TakeAlone(w: World, sha: Checkpoints.Sha, p: nat, t: string, row: Task, stamps: seq<Stamp>, plan: Plan, a: string, owner: string,
                  seconds: int, now: Time) returns (lease: Lease)
    requires At(w, p, Claiming(t, plan), t, row, stamps) && |stamps| > 0 && a !in w.db.attempts && Tasks.Claimable(row, now)
    ensures Possible(w, Take(p, stamps[0], a, owner, seconds), now)
    ensures lease.attemptId == a && lease.taskId == t && lease.leaseUntil == now + Max(1, seconds) as real && lease.plan == plan
    ensures var after := Perform(w, sha, Take(p, stamps[0], a, owner, seconds), now);
      && At(after, p, Holding(lease), t, Tasks.ClaimedRow(row, a, now), stamps[1..]) && Silent(w, after)
      && forall at :: Tasks.Authoritative(after.db, lease, at) <==> at <= lease.leaseUntil
  {
    hide Inv, AllFresh, Tasks.Claim, Tasks.Authoritative, Tasks.Claimable;
    ClaimAlone(w.db, stamps, a, t, plan, owner, seconds, now);
    lease := Tasks.Claim(w.db, stamps[0], a, t, plan, owner, seconds, now).value;
  }

  lemma CallAlone(w: World, sha: Checkpoints.Sha, p: nat, lease: Lease, t: string, row: Task, stamps: seq<Stamp>, answer: Answer, now: Time)
    requires At(w, p, Holding(lease), t, row, stamps)
    ensures Possible(w, Call(p, answer.success, answer.outcomeHash, answer.errorCode), now)
    ensures var after := Perform(w, sha, Call(p, answer.success, answer.outcomeHash, answer.errorCode), now);
      && At(after, p, Reporting(lease, answer.success, answer.outcomeHash, answer.errorCode), t, row, stamps)
      && after.calls == w.calls + [lease.attemptId] && after.db == w.db
      && lease.attemptId in after.answers && after.answers[lease.attemptId] == answer
  {
    hide Inv, AllFresh;
  }

  lemma ReportAlone(w: World, sha: Checkpoints.Sha, p: nat, lease: Lease, answer: Answer, row: Task, stamps: seq<Stamp>, now: Time)
    requires At(w, p, Reporting(lease, answer.success, answer.outcomeHash, answer.errorCode), lease.taskId, row, stamps)
    requires |stamps| > 0 && Tasks.Authoritative(w.db, lease, now)
    ensures Possible(w, Report(p, stamps[0]), now)
    ensures var after := Perform(w, sha, Report(p, stamps[0]), now);
      && p in after.phases && after.phases[p] == Phase.Ended && after.calls == w.calls
      && SettledBy(after.db, lease, answer) && lease.attemptId in after.reported
  {
    hide Inv, AllFresh, Tasks.Complete, Tasks.Authoritative;
    FirstStamp(w.db, stamps);
    ReportPossible(w, p, stamps[0], now);
    ReportEnds(w, sha, p, stamps[0], now);
    ReportWrites(w, sha, Report(p, stamps[0]), now);
    ReportCounts(w, sha, p, stamps[0], now);
  }

  lemma ReportPossible(w: World, p: nat, stamp: Stamp, now: Time)
    requires p in w.phases && w.phases[p].Reporting?
    ensures Possible(w, Report(p, stamp), now)
  {
  }

  // ----- a whole execution

  /** A new task as the caller finds it after its preparation. */
  function ReadyTask(r: Tasks.Request, now: Time): Task {
    Tasks.MovedRow(Tasks.MovedRow(Tasks.NewRow(r, now), Planned, now), Ready, now)
  }

  /** The acts up to planning. */
  function Opening(p: nat, stamps: seq<Stamp>, r: Tasks.Request, now: Time): seq<TimedAct>
    requires |stamps| >= 3
  {
    [TimedAct(Begin(p, stamps[0], r), now), TimedAct(Look(p), now), TimedAct(Prepare(p, stamps[1]), now),
     TimedAct(Prepare(p, stamps[2]), now), TimedAct(Prepare(p, stamps[2]), now)]
  }

  /** One act and the rest of an execution. */
  lemma ActStarts(w: World, sha: Checkpoints.Sha, act: Act, now: Time, rest: seq<TimedAct>)
    requires Possible(w, act, now) && IsExecution(Perform(w, sha, act, now), sha, rest)
    ensures IsExecution(w, sha, [TimedAct(act, now)] + rest)
    ensures EndOf(w, sha, [TimedAct(act, now)] + rest) == EndOf(Perform(w, sha, act, now), sha, rest)
  {
    hide Possible, Perform;
    assert ([TimedAct(act, now)] + rest)[1..] == rest;
  }

  lemma OpeningRuns(w: World, sha: Checkpoints.Sha, p: nat, stamps: seq<Stamp>, r: Tasks.Request, now: Time) returns (planning: World)
    requires Inv(w.db) && |stamps| >= 3 && AllFresh(w.db, stamps) && p !in w.phases
    requires r.taskId !in w.db.tasks && !Tasks.KeyTaken(w.db.tasks, r.idempotencyKey)
    ensures At(planning, p, Planning(r.taskId), r.taskId, ReadyTask(r, now), stamps[3..]) && Silent(w, planning)
    ensures planning.db.attempts == w.db.attempts
    ensures forall rest :: IsExecution(planning, sha, rest) ==>
      && IsExecution(w, sha, Opening(p, stamps, r, now) + rest)
      && EndOf(w, sha, Opening(p, stamps, r, now) + rest) == EndOf(planning, sha, rest)
  {
    hide Inv, AllFresh, Possible, Perform, IsExecution, EndOf, Tasks.KeyTaken;
    var t, row := r.taskId, Tasks.NewRow(r, now);
    BeginAlone(w, sha, p, stamps, r, now);
    var w1 := Perform(w, sha, Begin(p, stamps[0], r), now);
    LookAlone(w1, sha, p, t, row, stamps[1..], now);
    var w2 := Perform(w1, sha, Look(p), now);
    PrepareAlone(w2, sha, p, t, row, stamps[1..], Planned, now);
    var w3 := Perform(w2, sha, Prepare(p, stamps[1]), now);
    PrepareAlone(w3, sha, p, t, Tasks.MovedRow(row, Planned, now), stamps[1..][1..], Ready, now);
    var w4 := Perform(w3, sha, Prepare(p, stamps[2]), now);
    PreparedAlone(w4, sha, p, t, ReadyTask(r, now), stamps[1..][1..][1..], stamps[2], now);
    planning := Perform(w4, sha, Prepare(p, stamps[2]), now);
    assert stamps[1..][1..][1..] == stamps[3..];
    forall rest | IsExecution(planning, sha, rest)
      ensures IsExecution(w, sha, Opening(p, stamps, r, now) + rest)
      ensures EndOf(w, sha, Opening(p, stamps, r, now) + rest) == EndOf(planning, sha, rest)
    {
      var acts := Opening(p, stamps, r, now);
      ActStarts(w4, sha, Prepare(p, stamps[2]), now, rest);
      ActStarts(w3, sha, Prepare(p, stamps[2]), now, [acts[4]] + rest);
      ActStarts(w2, sha, Prepare(p, stamps[1]), now, [acts[3]] + ([acts[4]] + rest));
      ActStarts(w1, sha, Look(p), now, [acts[2]] + ([acts[3]] + ([acts[4]] + rest)));
      ActStarts(w, sha, Begin(p, stamps[0], r), now, [acts[1]] + ([acts[2]] + ([acts[3]] + ([acts[4]] + rest))));
      assert acts + rest == [acts[0]] + ([acts[1]] + ([acts[2]] + ([acts[3]] + ([acts[4]] + rest))));
    }
  }

  function Closing(p: nat, stamps: seq<Stamp>, plan: Plan, a: string, owner: string, seconds: int, answer: Answer, now: Time,
                   later: Time): seq<TimedAct>
    requires |stamps| >= 2
  {
    [TimedAct(Decide(p, Some(plan)), now), TimedAct(Take(p, stamps[0], a, owner, seconds), now),
     TimedAct(Call(p, answer.success, answer.outcomeHash, answer.errorCode), now), TimedAct(Report(p, stamps[1]), later)]
  }

  /**
   A new request that is planned, and whose driver answers within the lease: its one attempt is
   called, and the task ends as the driver answered.
   */
  lemma ExecutesAlone(w: World, sha: Checkpoints.Sha, p: nat, stamps: seq<Stamp>, r: Tasks.Request, plan: Plan, a: string, owner: string,
                      seconds: int, answer: Answer, now: Time, later: Time)
    requires Inv(w.db) && |stamps| == 5 && AllFresh(w.db, stamps) && p !in w.phases && a !in w.db.attempts
    requires r.taskId !in w.db.tasks && !Tasks.KeyTaken(w.db.tasks, r.idempotencyKey) && plan.taskId == r.taskId
    requires later <= now + Max(1, seconds) as real
    ensures var moves := Opening(p, stamps, r, now) + Closing(p, stamps[3..], plan, a, owner, seconds, answer, now, later);
      && IsExecution(w, sha, moves)
      && var end := EndOf(w, sha, moves);
      && p in end.phases && end.phases[p] == Phase.Ended && end.calls == w.calls + [a] && a in end.reported
      && r.taskId in end.db.tasks
      && var task := end.db.tasks[r.taskId];
      && task.state == (if answer.success then Completed else Failed)
      && task.resultHash == (if answer.success then Some(answer.outcomeHash) else None) && task.errorCode == answer.errorCode
  {
    hide Inv, AllFresh, Possible, Perform, IsExecution, EndOf, Tasks.KeyTaken, Tasks.Authoritative;
    var w0 := OpeningRuns(w, sha, p, stamps, r, now);
    ClosingRuns(w0, sha, p, stamps[3..], r.taskId, ReadyTask(r, now), plan, a, owner, seconds, answer, now, later);
  }

  lemma ClosingRuns(w: World, sha: Checkpoints.Sha, p: nat, stamps: seq<Stamp>, t: string, row: Task, plan: Plan, a: string, owner: string,
                    seconds: int, answer: Answer, now: Time, later: Time)
    requires At(w, p, Planning(t), t, row, stamps) && |stamps| == 2 && a !in w.db.attempts && plan.taskId == t
    requires Tasks.Claimable(row, now) && later <= now + Max(1, seconds) as real
    ensures var moves := Closing(p, stamps, plan, a, owner, seconds, answer, now, later);
      && IsExecution(w, sha, moves)
      && var end := EndOf(w, sha, moves);
      && p in end.phases && end.phases[p] == Phase.Ended && end.calls == w.calls + [a] && a in end.reported
      && t in end.db.tasks
      && var task := end.db.tasks[t];
      && task.state == (if answer.success then Completed else Failed)
      && task.resultHash == (if answer.success then Some(answer.outcomeHash) else None) && task.errorCode == answer.errorCode
  {
    hide Inv, AllFresh, Possible, Perform, Tasks.Authoritative, Tasks.Claimable;
    DecideAlone(w, sha, p, t, row, stamps, Some(plan), now);
    var w1 := Perform(w, sha, Decide(p, Some(plan)), now);
    var lease := TakeAlone(w1, sha, p, t, row, stamps, plan, a, owner, seconds, now);
    var w2 := Perform(w1, sha, Take(p, stamps[0], a, owner, seconds), now);
    CallAlone(w2, sha, p, lease, t, Tasks.ClaimedRow(row, a, now), stamps[1..], answer, now);
    var w3 := Perform(w2, sha, Call(p, answer.success, answer.outcomeHash, answer.errorCode), now);
    ReportAlone(w3, sha, p, lease, answer, Tasks.ClaimedRow(row, a, now), stamps[1..], later);
    ActStarts(w3, sha, Report(p, stamps[1]), later, []);
    hide IsExecution, EndOf;
    var acts := Closing(p, stamps, plan, a, owner, seconds, answer, now, later);
    ActStarts(w2, sha, Call(p, answer.success, answer.outcomeHash, answer.errorCode), now, [acts[3]] + []);
    ActStarts(w1, sha, Take(p, stamps[0], a, owner, seconds), now, [acts[2]] + ([acts[3]] + []));
    ActStarts(w, sha, Decide(p, Some(plan)), now, [acts[1]] + ([acts[2]] + ([acts[3]] + [])));
    assert acts == [acts[0]] + ([acts[1]] + ([acts[2]] + ([acts[3]] + [])));
  }

  /** A new request that cannot be planned: no driver is called, and the task is blocked. */
  lemma BlockedAlone(w: World, sha: Checkpoints.Sha, p: nat, stamps: seq<Stamp>, r: Tasks.Request, now: Time)
    requires Inv(w.db) && |stamps| == 4 && AllFresh(w.db, stamps) && p !in w.phases
    requires r.taskId !in w.db.tasks && !Tasks.KeyTaken(w.db.tasks, r.idempotencyKey)
    ensures var moves := Opening(p, stamps, r, now) + [TimedAct(Decide(p, None), now), TimedAct(Block(p, stamps[3]), now)];
      && IsExecution(w, sha, moves)
      && var end := EndOf(w, sha, moves);
      && p in end.phases && end.phases[p] == Phase.Ended && end.calls == w.calls
      && r.taskId in end.db.tasks && end.db.tasks[r.taskId].state == Blocked
  {
    hide Inv, AllFresh, Possible, Perform, Tasks.KeyTaken;
    var w0 := OpeningRuns(w, sha, p, stamps, r, now);
    DecideAlone(w0, sha, p, r.taskId, ReadyTask(r, now), stamps[3..], None, now);
    var w1 := Perform(w0, sha, Decide(p, None), now);
    BlockAlone(w1, sha, p, r.taskId, ReadyTask(r, now), stamps[3..], now);
    ActStarts(w1, sha, Block(p, stamps[3]), now, []);
    hide IsExecution, EndOf;
    var last: seq<TimedAct> := [TimedAct(Decide(p, None), now), TimedAct(Block(p, stamps[3]), now)];
    ActStarts(w0, sha, Decide(p, None), now, [last[1]] + []);
    assert last == [last[0]] + ([last[1]] + []);
  }

  /** A request whose task has ended is answered from the task: the process ends at once, and nothing is called or written. */
  lemma Replayed(w: World, sha: Checkpoints.Sha, p: nat, stamp: Stamp, r: Tasks.Request, now: Time)
    requires p !in w.phases && r.taskId in w.db.tasks && SameRequest(w.db.tasks[r.taskId], r)
    requires w.db.tasks[r.taskId].state in {Completed, Failed, Cancelled}
    ensures Possible(w, Begin(p, stamp, r), now)
    ensures Perform(w, sha, Begin(p, stamp, r), now) == w.(phases := w.phases[p := Phase.Ended])
  {
  }
}
