/** Counting attempts: a task has exactly as many as it started, never more than its budget, and at most one winner. */
module Accounting {
  import opened TaskInvariants
  import opened Tables

  function AttemptsOf(attempts: map<string, Attempt>, t: string): set<string> {
    set a | a in attempts && attempts[a].taskId == t
  }

  function AttemptsUpTo(attempts: map<string, Attempt>, t: string, n: nat): set<string> {
    set a | a in attempts && attempts[a].taskId == t && attempts[a].number <= n
  }

  /** The attempts numbered up to n are n attempts. */
  lemma {:induction false} CountUpTo(db: Db, t: string, n: nat)
    requires FencingInv(db.tasks, db.attempts) && t in db.tasks && n <= db.tasks[t].attemptsStarted
    ensures |AttemptsUpTo(db.attempts, t, n)| == n
    decreases n
  {
    hide FencingInv, AttemptsUpTo;
    if n == 0 {
      NoneUpTo(db, t);
    } else {
      CountUpTo(db, t, n - 1);
      Slot(db, t, n);
      var a :| IsSlot(db.attempts, t, n, a);
      NextCount(db.attempts, t, n, a);
    }
  }

  lemma NoneUpTo(db: Db, t: string)
    requires FencingInv(db.tasks, db.attempts) && t in db.tasks
    ensures AttemptsUpTo(db.attempts, t, 0) == {}
  {
    assert forall a :: a in db.attempts && db.attempts[a].taskId == t ==> AttemptOk(a, db.attempts[a], db.tasks[t]);
  }

  lemma Slot(db: Db, t: string, n: nat)
    requires FencingInv(db.tasks, db.attempts) && t in db.tasks && 1 <= n <= db.tasks[t].attemptsStarted
    ensures HasSlot(db.attempts, t, n) && DistinctNumbers(db.attempts)
  {
    assert TaskOk(t, db.tasks[t], db.attempts);
  }

  lemma NextCount(attempts: map<string, Attempt>, t: string, n: nat, a: string)
    requires n > 0 && IsSlot(attempts, t, n, a) && DistinctNumbers(attempts)
    ensures AttemptsUpTo(attempts, t, n) == AttemptsUpTo(attempts, t, n - 1) + {a}
    ensures |AttemptsUpTo(attempts, t, n)| == |AttemptsUpTo(attempts, t, n - 1)| + 1
  {
    assert a !in AttemptsUpTo(attempts, t, n - 1);
    assert AttemptsUpTo(attempts, t, n) == AttemptsUpTo(attempts, t, n - 1) + {a};
  }

  /** A task has exactly as many attempts as it has started, and not more than were asked for. */
  lemma AttemptCount(db: Db, t: string)
    requires FencingInv(db.tasks, db.attempts) && t in db.tasks
    ensures |AttemptsOf(db.attempts, t)| == db.tasks[t].attemptsStarted <= db.tasks[t].submission.maxAttempts
  {
    CountUpTo(db, t, db.tasks[t].attemptsStarted);
    assert TaskOk(t, db.tasks[t], db.attempts);
    assert forall a :: a in AttemptsOf(db.attempts, t) ==> AttemptOk(a, db.attempts[a], db.tasks[t]);
    assert AttemptsOf(db.attempts, t) == AttemptsUpTo(db.attempts, t, db.tasks[t].attemptsStarted);
  }

  predicate Succeeded(attempts: map<string, Attempt>, t: string, a: string) {
    a in attempts && attempts[a].taskId == t && attempts[a].state == AttemptSucceeded
  }

  /** A task is completed exactly when one attempt succeeded; then only its last one did, and the result is that attempt's. */
  lemma ExactlyOneWinner(db: Db, t: string)
    requires FencingInv(db.tasks, db.attempts) && t in db.tasks
    ensures db.tasks[t].state == Completed <==> exists a :: Succeeded(db.attempts, t, a)
    ensures db.tasks[t].state == Completed <==> db.tasks[t].resultHash.Some?
    ensures forall a :: Succeeded(db.attempts, t, a) ==>
      db.attempts[a].fence == db.tasks[t].currentFence && db.attempts[a].outcomeHash == db.tasks[t].resultHash
    ensures forall a, b :: Succeeded(db.attempts, t, a) && Succeeded(db.attempts, t, b) ==> a == b
  {
    assert TaskOk(t, db.tasks[t], db.attempts);
    assert forall a :: Succeeded(db.attempts, t, a) ==> AttemptOk(a, db.attempts[a], db.tasks[t]);
    if db.tasks[t].state == Completed {
      var a :| IsSlot(db.attempts, t, db.tasks[t].currentFence, a) && db.attempts[a].state == AttemptSucceeded;
      assert Succeeded(db.attempts, t, a);
    }
  }
}
