/**
 ApplicationKernel.execute (harness2/kernel/application.py), run by any number of processes
 at once, with any other steps in between and crashes anywhere: drivers are called at most
 as often as the task's budget of attempts allows.
 */
module Execution {
  import opened Accounting
  import opened Inputs
  import opened System
  import opened TaskInvariants
  import opened Tables
  import opened Wrappers
  import Checkpoints
  import Tasks

  /** Where a call of `execute` stands, with what it remembers. */
  datatype Phase =
    | Looking(taskId: string)
    | Preparing(taskId: string, seen: TaskState)
    | Planning(taskId: string)
    | Blocking(taskId: string)
    | Claiming(taskId: string, plan: Plan)
    | Holding(lease: Lease)
    | Reporting(lease: Lease, success: bool, outcomeHash: string, errorCode: Option<string>)
    | Ended

  /** What a driver answered. */
  datatype Answer = Answer(success: bool, outcomeHash: string, errorCode: Option<string>)

  /**
   The processes, and a record of what happened: the attempts that drivers were called for,
   their answers, and the attempts that a report has ended.
   */
  datatype World = World(
    db: Db, phases: map<nat, Phase>, calls: seq<string>, answers: map<string, Answer>, reported: set<string>)

  function Start(db: Db): World {
    World(db, map[], [], map[], {})
  }

  datatype Act =
    | Other(op: Op)
    | Begin(process: nat, stamp: Stamp, request: Tasks.Request)
    | Look(process: nat)
    | Prepare(process: nat, stamp: Stamp)
    | Decide(process: nat, plan: Option<Plan>)
    | Block(process: nat, stamp: Stamp)
    | Take(process: nat, stamp: Stamp, attemptId: string, owner: string, leaseSeconds: int)
    | Call(process: nat, success: bool, outcomeHash: string, errorCode: Option<string>)
    | Report(process: nat, stamp: Stamp)
    | Crash(process: nat)

  /** The next transition of `prepare`, judged by the state the process remembers. */
  function PreparedTo(seen: TaskState): Option<TaskState> {
    if seen == Created then Some(Planned) else if seen in {Planned, Blocked} then Some(Ready) else None
  }

  function PrepareReason(seen: TaskState): string {
    if seen == Created then "plan.created" else if seen == Planned then "plan.ready" else "plan.recheck"
  }

  predicate CanAct(w: World, act: Act) {
    match act
    case Other(_) => true
    case Begin(p, _, _) => p !in w.phases
    case Look(p) => p in w.phases && w.phases[p].Looking?
    case Prepare(p, _) => p in w.phases && w.phases[p].Preparing?
    case Decide(p, plan) => p in w.phases && w.phases[p].Planning? && (plan.Some? ==> plan.value.taskId == w.phases[p].taskId)
    case Block(p, _) => p in w.phases && w.phases[p].Blocking?
    case Take(p, _, _, _, _) => p in w.phases && w.phases[p].Claiming?
    case Call(p, _, _, _) => p in w.phases && w.phases[p].Holding?
    case Report(p, _) => p in w.phases && w.phases[p].Reporting?
    case Crash(p) => p in w.phases
  }

  /** The transaction that an act makes, if it makes one. */
  function OpOf(w: World, act: Act): Option<Op>
    requires CanAct(w, act)
  {
    match act
    case Other(op) => Some(op)
    case Begin(_, stamp, r) => Some(Submit(stamp, r))
    case Prepare(p, stamp) =>
      var to := PreparedTo(w.phases[p].seen);
      if to.Some? then Some(Move(stamp, w.phases[p].taskId, to.value, PrepareReason(w.phases[p].seen), None)) else None
    case Block(p, stamp) => Some(Move(stamp, w.phases[p].taskId, Blocked, "planning_or_policy_failure", None))
    case Take(p, stamp, a, owner, seconds) => Some(Claim(stamp, a, w.phases[p].taskId, w.phases[p].plan, owner, seconds))
    case Report(p, stamp) =>
      var r := w.phases[p];
      Some(Complete(stamp, r.lease, r.success, r.outcomeHash, r.errorCode, false, None))
    case _ => None
  }

  /** A task that was new is planned, one that was planned or blocked is made ready, and any other is left as it is. */
  lemma PrepareExact(w: World, p: nat, stamp: Stamp)
    requires CanAct(w, Prepare(p, stamp))
    ensures var t := w.phases[p].taskId;
      OpOf(w, Prepare(p, stamp)) ==
      match w.phases[p].seen
      case Created => Some(Move(stamp, t, Planned, "plan.created", None))
      case Planned => Some(Move(stamp, t, Ready, "plan.ready", None))
      case Blocked => Some(Move(stamp, t, Ready, "plan.recheck", None))
      case _ => None
  {
  }

  /** Where the process goes, given what its transaction answered. */
  function PhaseAfter(w: World, act: Act, now: Time): Phase
    requires CanAct(w, act) && !act.Other?
  {
    match act
    case Begin(_, stamp, r) =>
      (match Tasks.Submit(w.db, stamp, r, now)
       case Raised(_) => Ended
       case Done(_, task) => if Terminal(task.state) then Ended else Looking(r.taskId))
    case Look(p) =>
      var t := w.phases[p].taskId;
      if t in w.db.tasks then Preparing(t, w.db.tasks[t].state) else Ended
    case Prepare(p, stamp) =>
      var t, seen := w.phases[p].taskId, w.phases[p].seen;
      var to := PreparedTo(seen);
      if to.None? then Planning(t)
      else
        (match Tasks.Transition(w.db, stamp, t, to.value, PrepareReason(seen), None, now)
         case Raised(_) => Ended
         case Done(_, task) => Preparing(t, task.state))
    case Decide(p, plan) =>
      if plan.Some? then Claiming(w.phases[p].taskId, plan.value) else Blocking(w.phases[p].taskId)
    case Block(_, _) => Ended
    case Take(p, stamp, a, owner, seconds) =>
      (match Tasks.Claim(w.db, stamp, a, w.phases[p].taskId, w.phases[p].plan, owner, seconds, now)
       case Raised(_) => Ended
       case Done(_, lease) => Holding(lease))
    case Call(p, success, outcomeHash, errorCode) => Reporting(w.phases[p].lease, success, outcomeHash, errorCode)
    case Report(_, _) => Ended
    case Crash(_) => Ended
  }

  ghost predicate Possible(w: World, act: Act, now: Time) {
    CanAct(w, act) && (OpOf(w, act).Some? ==> CanHappen(w.db, OpOf(w, act).value, now))
  }

  predicate Ends(db: Db, after: Db, a: string) {
    && a in db.attempts && db.attempts[a].state == AttemptRunning
    && a in after.attempts && after.attempts[a].state != AttemptRunning
  }

  ghost function DbAfterAct(w: World, sha: Checkpoints.Sha, act: Act, now: Time): Db
    requires Possible(w, act, now)
  {
    if OpOf(w, act).Some? then After(w.db, sha, OpOf(w, act).value, now) else w.db
  }

  ghost function Perform(w: World, sha: Checkpoints.Sha, act: Act, now: Time): World
    requires Possible(w, act, now)
  {
    var after := DbAfterAct(w, sha, act, now);
    World(
      after,
      if act.Other? then w.phases else w.phases[act.process := PhaseAfter(w, act, now)],
      if act.Call? then w.calls + [w.phases[act.process].lease.attemptId] else w.calls,
      if act.Call? then w.answers[w.phases[act.process].lease.attemptId := Answer(act.success, act.outcomeHash, act.errorCode)]
      else w.answers,
      if act.Report? && Ends(w.db, after, w.phases[act.process].lease.attemptId)
      then w.reported + {w.phases[act.process].lease.attemptId} else w.reported)
  }

  // ----- what every act keeps

  ghost predicate NoRepeats(calls: seq<string>) {
    forall i, j :: 0 <= i < j < |calls| ==> calls[i] != calls[j]
  }

  /** Every driver call belongs to an attempt of its own, and a process that may still call has one left. */
  ghost predicate CallsInv(phases: map<nat, Phase>, calls: seq<string>, attempts: map<string, Attempt>) {
    && NoRepeats(calls)
    && (forall a :: a in calls ==> a in attempts)
    && (forall p :: p in phases && phases[p].Holding? ==>
          phases[p].lease.attemptId in attempts && phases[p].lease.attemptId !in calls)
    && (forall p, q :: p in phases && q in phases && p != q && phases[p].Holding? && phases[q].Holding? ==>
          phases[p].lease.attemptId != phases[q].lease.attemptId)
  }

  ghost predicate AttemptsStay(before: map<string, Attempt>, after: map<string, Attempt>) {
    forall a :: a in before ==> a in after && after[a].taskId == before[a].taskId
  }

  /** A process that moves on without a lease takes nothing from the others. */
  lemma MoveOn(phases: map<nat, Phase>, calls: seq<string>, before: map<string, Attempt>, after: map<string, Attempt>, p: nat, phase: Phase)
    requires CallsInv(phases, calls, before) && AttemptsStay(before, after) && !phase.Holding?
    ensures CallsInv(phases[p := phase], calls, after) && CallsInv(phases, calls, after)
  {
  }

  lemma TakeLease(phases: map<nat, Phase>, calls: seq<string>, before: map<string, Attempt>, after: map<string, Attempt>, p: nat, lease: Lease)
    requires CallsInv(phases, calls, before) && AttemptsStay(before, after)
    requires lease.attemptId !in before && lease.attemptId in after
    ensures CallsInv(phases[p := Holding(lease)], calls, after)
  {
  }

  lemma CallDriver(phases: map<nat, Phase>, calls: seq<string>, attempts: map<string, Attempt>, p: nat, phase: Phase)
    requires CallsInv(phases, calls, attempts) && p in phases && phases[p].Holding? && !phase.Holding?
    ensures CallsInv(phases[p := phase], calls + [phases[p].lease.attemptId], attempts)
  {
  }

  /** A claim's lease is for an attempt that did not exist before. */
  lemma ClaimIsNew(db: Db, stamp: Stamp, a: string, t: string, plan: Plan, owner: string, seconds: int, now: Time)
    requires Tasks.Claim(db, stamp, a, t, plan, owner, seconds, now).Done?
    ensures var o := Tasks.Claim(db, stamp, a, t, plan, owner, seconds, now);
      o.value.attemptId == a && a !in db.attempts && a in o.db.attempts
  {
  }

  lemma DbAfter(w: World, sha: Checkpoints.Sha, act: Act, now: Time)
    requires Sound(w.db, sha) && Possible(w, act, now)
    ensures Sound(Perform(w, sha, act, now).db, sha)
    ensures AttemptsStay(w.db.attempts, Perform(w, sha, act, now).db.attempts)
  {
    hide Sound, CanHappen, After, Evolves, CanAct, OpOf, PhaseAfter;
    if OpOf(w, act).Some? {
      StepSound(w.db, sha, OpOf(w, act).value, now);
      EvolvesAttempts(w.db, After(w.db, sha, OpOf(w, act).value, now), now);
    }
  }

  lemma EvolvesAttempts(db: Db, after: Db, now: Time)
    requires Evolves(db, after, now)
    ensures AttemptsStay(db.attempts, after.attempts)
  {
    assert forall a :: a in db.attempts ==> AttemptEvolves(db.attempts[a], after.attempts[a], now);
  }

  lemma NotHolding(w: World, act: Act, now: Time)
    requires CanAct(w, act) && !act.Other? && !act.Take?
    ensures !PhaseAfter(w, act, now).Holding?
  {
    hide Tasks.Submit, Tasks.Transition;
  }

  /** Every act, of any process or of anyone else, keeps calls and attempts in step. */
  lemma ActKeeps(w: World, sha: Checkpoints.Sha, act: Act, now: Time)
    requires Sound(w.db, sha) && CallsInv(w.phases, w.calls, w.db.attempts) && Possible(w, act, now)
    ensures var after := Perform(w, sha, act, now);
      Sound(after.db, sha) && CallsInv(after.phases, after.calls, after.db.attempts)
  {
    hide Sound, CallsInv, CanHappen, After, OpOf, PhaseAfter, AttemptsStay, Tasks.Claim;
    DbAfter(w, sha, act, now);
    var after := Perform(w, sha, act, now).db.attempts;
    if act.Take? {
      TakeKeeps(w, sha, act, now);
    } else if act.Call? {
      NotHolding(w, act, now);
      CallDriver(w.phases, w.calls, w.db.attempts, act.process, PhaseAfter(w, act, now));
      CallNoOp(w, sha, act, now);
    } else if act.Other? {
      MoveOn(w.phases, w.calls, w.db.attempts, after, 0, Ended);
    } else {
      NotHolding(w, act, now);
      MoveOn(w.phases, w.calls, w.db.attempts, after, act.process, PhaseAfter(w, act, now));
    }
  }

  lemma CallNoOp(w: World, sha: Checkpoints.Sha, act: Act, now: Time)
    requires Possible(w, act, now) && act.Call?
    ensures Perform(w, sha, act, now).db == w.db
  {
    hide CanHappen, After, PhaseAfter;
  }

  lemma TakeKeeps(w: World, sha: Checkpoints.Sha, act: Act, now: Time)
    requires CallsInv(w.phases, w.calls, w.db.attempts) && Possible(w, act, now) && act.Take?
    requires AttemptsStay(w.db.attempts, Perform(w, sha, act, now).db.attempts)
    ensures var after := Perform(w, sha, act, now); CallsInv(after.phases, after.calls, after.db.attempts)
  {
    hide CallsInv, CanHappen, AttemptsStay, Tasks.Claim;
    var phase, after := w.phases[act.process], Perform(w, sha, act, now).db.attempts;
    var o := Tasks.Claim(w.db, act.stamp, act.attemptId, phase.taskId, phase.plan, act.owner, act.leaseSeconds, now);
    if o.Done? {
      ClaimIsNew(w.db, act.stamp, act.attemptId, phase.taskId, phase.plan, act.owner, act.leaseSeconds, now);
      TakeLease(w.phases, w.calls, w.db.attempts, after, act.process, o.value);
    } else {
      MoveOn(w.phases, w.calls, w.db.attempts, after, act.process, Ended);
    }
  }

  // ----- whole executions

  datatype TimedAct = TimedAct(act: Act, now: Time)

  ghost predicate IsExecution(w: World, sha: Checkpoints.Sha, moves: seq<TimedAct>)
    decreases |moves|
  {
    moves == [] ||
    (Possible(w, moves[0].act, moves[0].now) && IsExecution(Perform(w, sha, moves[0].act, moves[0].now), sha, moves[1..]))
  }

  ghost function EndOf(w: World, sha: Checkpoints.Sha, moves: seq<TimedAct>): World
    requires IsExecution(w, sha, moves)
    decreases |moves|
  {
    if moves == [] then w else EndOf(Perform(w, sha, moves[0].act, moves[0].now), sha, moves[1..])
  }

  lemma {:induction false} ExecutionKeeps(w: World, sha: Checkpoints.Sha, moves: seq<TimedAct>)
    requires Sound(w.db, sha) && CallsInv(w.phases, w.calls, w.db.attempts) && IsExecution(w, sha, moves)
    ensures var end := EndOf(w, sha, moves); Sound(end.db, sha) && CallsInv(end.phases, end.calls, end.db.attempts)
    decreases |moves|
  {
    hide Sound, CallsInv, Possible, Perform;
    if moves != [] {
      ActKeeps(w, sha, moves[0].act, moves[0].now);
      ExecutionKeeps(Perform(w, sha, moves[0].act, moves[0].now), sha, moves[1..]);
    }
  }

  /** The driver calls made for one task. */
  function CallsFor(calls: seq<string>, attempts: map<string, Attempt>, t: string): seq<string> {
    if calls == [] then []
    else
      var n := |calls| - 1;
      CallsFor(calls[..n], attempts, t) + if calls[n] in attempts && attempts[calls[n]].taskId == t then [calls[n]] else []
  }

  lemma {:induction false} CallsForAttempts(calls: seq<string>, attempts: map<string, Attempt>, t: string)
    requires NoRepeats(calls)
    ensures var made := CallsFor(calls, attempts, t);
      && NoRepeats(made)
      && forall a :: a in made ==> a in calls && a in AttemptsOf(attempts, t)
  {
    if calls != [] {
      var n := |calls| - 1;
      CallsForAttempts(calls[..n], attempts, t);
      assert calls[n] !in calls[..n];
    }
  }

  lemma {:induction false} AtMost(made: seq<string>, all: set<string>)
    requires NoRepeats(made) && forall a :: a in made ==> a in all
    ensures |made| <= |all|
  {
    if made != [] {
      var n := |made| - 1;
      assert made[n] !in made[..n];
      AtMost(made[..n], all - {made[n]});
    }
  }

  /**
   However many calls of `execute` run at once, on the same request or not, and whatever
   else happens, the drivers are called for a task at most as often as its submission allows.
   */
  lemma CallsWithinBudget(db: Db, sha: Checkpoints.Sha, moves: seq<TimedAct>, t: string)
    requires Sound(db, sha) && IsExecution(Start(db), sha, moves)
    requires t in EndOf(Start(db), sha, moves).db.tasks
    ensures var end := EndOf(Start(db), sha, moves);
      |CallsFor(end.calls, end.db.attempts, t)| <= end.db.tasks[t].attemptsStarted <= end.db.tasks[t].submission.maxAttempts
  {
    hide Sound, IsExecution, EndOf;
    ExecutionKeeps(Start(db), sha, moves);
    var end := EndOf(Start(db), sha, moves);
    SoundInv(end.db, sha);
    CallsForAttempts(end.calls, end.db.attempts, t);
    AtMost(CallsFor(end.calls, end.db.attempts, t), AttemptsOf(end.db.attempts, t));
    Counted(end.db, t);
  }

  lemma Counted(db: Db, t: string)
    requires Inv(db) && t in db.tasks
    ensures |AttemptsOf(db.attempts, t)| == db.tasks[t].attemptsStarted <= db.tasks[t].submission.maxAttempts
  {
    hide HistoryInv, EventsInv, RowsInv;
    AttemptCount(db, t);
  }
}
