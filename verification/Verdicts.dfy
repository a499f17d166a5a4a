/**
 What `execute` records is what its driver answered, in every interleaving: the attempt, the
 task and the verdict of one driver call belong together.
 */
module Verdicts {
  import opened Execution
  import opened Inputs
  import opened JobSteps
  import opened System
  import opened TaskInvariants
  import opened Tables
  import opened Wrappers
  import Checkpoints
  import TaskEffects
  import Tasks

  /** An attempt ended as its driver answered. */
  predicate EndedAs(attempt: Attempt, answer: Answer) {
    && attempt.state == (if answer.success then AttemptSucceeded else AttemptFailed)
    && attempt.outcomeHash == Some(answer.outcomeHash) && attempt.errorCode == answer.errorCode
  }

  /** Every call has its answer; what a process is about to report is the answer to its own call; what was reported is recorded. */
  ghost predicate AnswersInv(w: World) {
    && (forall a :: a in w.answers <==> a in w.calls)
    && (forall p :: p in w.phases && w.phases[p].Reporting? ==>
          var r := w.phases[p];
          r.lease.attemptId in w.answers && w.answers[r.lease.attemptId] == Answer(r.success, r.outcomeHash, r.errorCode))
    && (forall a :: a in w.reported ==> a in w.answers && a in w.db.attempts && EndedAs(w.db.attempts[a], w.answers[a]))
  }

  ghost predicate WorldOk(w: World, sha: Checkpoints.Sha) {
    Sound(w.db, sha) && CallsInv(w.phases, w.calls, w.db.attempts) && AnswersInv(w)
  }

  // ----- one act

  /** Ended attempts stay as they are, so what was reported stays recorded. */
  lemma ReportsStay(w: World, after: Db, now: Time)
    requires AnswersInv(w) && Evolves(w.db, after, now)
    ensures forall a :: a in w.reported ==> a in w.answers && a in after.attempts && EndedAs(after.attempts[a], w.answers[a])
  {
    forall a | a in w.reported
      ensures a in w.answers && a in after.attempts && EndedAs(after.attempts[a], w.answers[a])
    {
      assert AttemptEvolves(w.db.attempts[a], after.attempts[a], now);
    }
  }

  lemma ActEvolves(w: World, sha: Checkpoints.Sha, act: Act, now: Time)
    requires Sound(w.db, sha) && Possible(w, act, now)
    ensures Evolves(w.db, Perform(w, sha, act, now).db, now)
  {
    hide Sound, CanHappen, After, Evolves, CanAct, OpOf, PhaseAfter;
    if OpOf(w, act).Some? {
      StepSound(w.db, sha, OpOf(w, act).value, now);
    } else {
      EvolvesItself(w.db, now);
    }
  }

  /** Only a call makes a process one that reports, and it reports what the driver answered. */
  lemma OnlyCallsReport(w: World, act: Act, now: Time)
    requires CanAct(w, act) && !act.Other?
    ensures PhaseAfter(w, act, now).Reporting? <==> act.Call?
    ensures act.Call? ==>
      PhaseAfter(w, act, now) == Reporting(w.phases[act.process].lease, act.success, act.outcomeHash, act.errorCode)
  {
    hide Tasks.Submit, Tasks.Transition, Tasks.Claim;
  }

  /** A report that ends its attempt ends it as the process remembers, and its task with it. */
  lemma ReportWrites(w: World, sha: Checkpoints.Sha, act: Act, now: Time)
    requires Possible(w, act, now) && act.Report?
    requires var a := w.phases[act.process].lease.attemptId; Ends(w.db, Perform(w, sha, act, now).db, a)
    ensures var r, after := w.phases[act.process], Perform(w, sha, act, now).db;
      && EndedAs(after.attempts[r.lease.attemptId], Answer(r.success, r.outcomeHash, r.errorCode))
      && r.lease.taskId in after.tasks
      && var task := after.tasks[r.lease.taskId];
      && task.state == (if r.success then Completed else Failed) && task.active == None && task.errorCode == r.errorCode
      && task.resultHash == (if r.success then Some(r.outcomeHash) else None)
  {
    hide Tasks.Complete;
    var r := w.phases[act.process];
    var o := Tasks.Complete(w.db, act.stamp, r.lease, r.success, r.outcomeHash, r.errorCode, false, None, now);
    if o.Done? {
      CompleteTables(w.db, act.stamp, r.lease, r.success, r.outcomeHash, r.errorCode, false, None, now);
    }
  }

  lemma AnswersKept(w: World, sha: Checkpoints.Sha, act: Act, now: Time)
    requires WorldOk(w, sha) && Possible(w, act, now)
    ensures AnswersInv(Perform(w, sha, act, now))
  {
    hide Sound, CanHappen, After, OpOf, PhaseAfter, Evolves, DbAfterAct;
    ActEvolves(w, sha, act, now);
    var after := Perform(w, sha, act, now);
    ReportsStay(w, after.db, now);
    if !act.Other? {
      OnlyCallsReport(w, act, now);
    }
    if act.Report? && Ends(w.db, after.db, w.phases[act.process].lease.attemptId) {
      ReportWrites(w, sha, act, now);
    }
  }

  // ----- whole executions

  lemma {:induction false} ExecutionAnswers(w: World, sha: Checkpoints.Sha, moves: seq<TimedAct>)
    requires WorldOk(w, sha) && IsExecution(w, sha, moves)
    ensures WorldOk(EndOf(w, sha, moves), sha)
    decreases |moves|
  {
    hide Sound, CallsInv, AnswersInv, Possible, Perform;
    if moves != [] {
      ActKeeps(w, sha, moves[0].act, moves[0].now);
      AnswersKept(w, sha, moves[0].act, moves[0].now);
      ExecutionAnswers(Perform(w, sha, moves[0].act, moves[0].now), sha, moves[1..]);
    }
  }

  /**
   However many calls of `execute` run at once, crash, or race with other steps: an attempt
   that a report has ended succeeded exactly if its own driver call answered success, with
   that call's outcome and error, and it stays so.
   */
  lemma ReportsTell(db: Db, sha: Checkpoints.Sha, moves: seq<TimedAct>, a: string)
    requires Sound(db, sha) && IsExecution(Start(db), sha, moves)
    requires a in EndOf(Start(db), sha, moves).reported
    ensures var end := EndOf(Start(db), sha, moves);
      && a in end.calls && a in end.answers && a in end.db.attempts
      && (end.db.attempts[a].state == AttemptSucceeded <==> end.answers[a].success)
      && (end.db.attempts[a].state == AttemptFailed <==> !end.answers[a].success)
      && end.db.attempts[a].outcomeHash == Some(end.answers[a].outcomeHash) && end.db.attempts[a].errorCode == end.answers[a].errorCode
  {
    hide Sound, IsExecution, EndOf, CallsInv;
    StartOk(db, sha);
    ExecutionAnswers(Start(db), sha, moves);
  }

  lemma StartOk(db: Db, sha: Checkpoints.Sha)
    requires Sound(db, sha)
    ensures WorldOk(Start(db), sha)
  {
    hide Sound;
  }

  /** The process reports under a lease in force. */
  ghost predicate IsReporting(w: World, p: nat, now: Time) {
    p in w.phases && w.phases[p].Reporting? && Tasks.Authoritative(w.db, w.phases[p].lease, now)
  }

  /** The task of a lease is settled by the answer. */
  predicate SettledBy(db: Db, lease: Lease, answer: Answer) {
    && lease.taskId in db.tasks
    && var task := db.tasks[lease.taskId];
    && task.state == (if answer.success then Completed else Failed)
    && task.resultHash == (if answer.success then Some(answer.outcomeHash) else None) && task.errorCode == answer.errorCode
  }

  /**
   The report of a lease in force, with a new stamp, always ends its attempt; the task is then
   completed with the outcome if the driver answered success, and failed without one otherwise.
   */
  lemma ReportSettles(w: World, sha: Checkpoints.Sha, p: nat, stamp: Stamp, now: Time)
    requires WorldOk(w, sha) && Possible(w, Report(p, stamp), now) && IsReporting(w, p, now) && TaskEffects.Fresh(w.db, stamp)
    ensures var lease, after := w.phases[p].lease, Perform(w, sha, Report(p, stamp), now);
      && lease.attemptId in w.answers && lease.attemptId in after.reported
      && SettledBy(after.db, lease, w.answers[lease.attemptId])
  {
    hide Sound, CallsInv, Tasks.Authoritative, TaskEffects.Fresh, Possible, Perform;
    SoundInv(w.db, sha);
    AnswerHeld(w, p);
    ReportEnds(w, sha, p, stamp, now);
    hide AnswersInv;
    ReportWrites(w, sha, Report(p, stamp), now);
    ReportCounts(w, sha, p, stamp, now);
  }

  lemma AnswerHeld(w: World, p: nat)
    requires AnswersInv(w) && p in w.phases && w.phases[p].Reporting?
    ensures var r := w.phases[p];
      r.lease.attemptId in w.answers && w.answers[r.lease.attemptId] == Answer(r.success, r.outcomeHash, r.errorCode)
  {
  }

  lemma ReportCounts(w: World, sha: Checkpoints.Sha, p: nat, stamp: Stamp, now: Time)
    requires Possible(w, Report(p, stamp), now) && p in w.phases && w.phases[p].Reporting?
    requires Ends(w.db, Perform(w, sha, Report(p, stamp), now).db, w.phases[p].lease.attemptId)
    ensures w.phases[p].lease.attemptId in Perform(w, sha, Report(p, stamp), now).reported
  {
    hide CanHappen, DbAfterAct, PhaseAfter;
  }

  lemma ReportEnds(w: World, sha: Checkpoints.Sha, p: nat, stamp: Stamp, now: Time)
    requires Inv(w.db) && Possible(w, Report(p, stamp), now) && IsReporting(w, p, now) && TaskEffects.Fresh(w.db, stamp)
    ensures Ends(w.db, Perform(w, sha, Report(p, stamp), now).db, w.phases[p].lease.attemptId)
  {
    hide Inv, Tasks.Complete, Tasks.Authoritative, TaskEffects.Fresh, Ends;
    var r := w.phases[p];
    CompleteEnds(w.db, stamp, r.lease, r.success, r.outcomeHash, r.errorCode, now);
  }

  lemma CompleteEnds(db: Db, stamp: Stamp, lease: Lease, success: bool, outcomeHash: string, errorCode: Option<string>, now: Time)
    requires Inv(db) && TaskEffects.Fresh(db, stamp) && Tasks.Authoritative(db, lease, now)
    ensures var o := Tasks.Complete(db, stamp, lease, success, outcomeHash, errorCode, false, None, now);
      o.Done? && Ends(db, o.db, lease.attemptId)
  {
    hide Inv, Tasks.Complete, TaskEffects.Fresh;
    TaskEffects.CompleteExact(db, stamp, lease, success, outcomeHash, errorCode, false, None, now);
    CompleteTables(db, stamp, lease, success, outcomeHash, errorCode, false, None, now);
  }
}
