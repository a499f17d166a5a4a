/** The job table is a faithful projection of the kernel tasks it is mapped to. */
module JobInvariants {
  import opened Inputs
  import opened TaskInvariants
  import opened Tables
  import opened Wrappers
  import Checkpoints
  import CheckpointInvariants
  import Recovery
  import Tasks

  // ----- the relation between the two tables

  /** A job that waits has a task that can be claimed as soon as the job is due. */
  ghost predicate WaitsWith(job: Job, task: Task) {
    task.active.None? && task.nextRunAt <= job.nextRunAt && task.attemptsStarted < task.maxAttempts
  }

  ghost predicate RunsWith(job: Job, m: Mapping, task: Task, attempts: map<string, Attempt>) {
    && task.state == Running && m.attemptId.Some? && task.active == m.attemptId && m.fence == Some(task.currentFence)
    && m.attemptId.value in attempts && job.leaseUntil == Some(attempts[m.attemptId.value].leaseUntil)
  }

  ghost predicate StatusMatches(job: Job, m: Mapping, task: Task, attempts: map<string, Attempt>) {
    match job.status
    case JobQueued => task.state in {Created, Retrying} && WaitsWith(job, task)
    case JobRetry => task.state == Retrying && WaitsWith(job, task)
    case JobRunning => RunsWith(job, m, task, attempts)
    case JobSucceeded => task.state == Completed
    case JobDead => task.state == Failed
    case JobCancelled => task.state == Cancelled
  }

  ghost predicate Projected(job: Job, m: Mapping, tasks: map<string, Task>, attempts: map<string, Attempt>) {
    && m.taskId in tasks
    && job.attempt == tasks[m.taskId].attemptsStarted && job.maxAttempts == tasks[m.taskId].maxAttempts
    && (m.attemptId.Some? ==> m.attemptId.value in attempts && attempts[m.attemptId.value].taskId == m.taskId)
    && StatusMatches(job, m, tasks[m.taskId], attempts)
  }

  ghost predicate OneJob(mappings: map<string, Mapping>) {
    forall j, k :: j in mappings && k in mappings && mappings[j].taskId == mappings[k].taskId ==> j == k
  }

  ghost predicate ProjectionInv(db: Db) {
    && OneJob(db.mappings)
    && forall j :: j in db.mappings ==> j in db.jobs && Projected(db.jobs[j], db.mappings[j], db.tasks, db.attempts)
  }

  // ----- steps on other tasks

  lemma ProjectedElsewhere(db: Db, after: Db, j: string, t: string)
    requires j in db.mappings && j in db.jobs && Projected(db.jobs[j], db.mappings[j], db.tasks, db.attempts)
    requires Touches(db, after, t) && db.mappings[j].taskId != t
    ensures Projected(db.jobs[j], db.mappings[j], after.tasks, after.attempts)
  {
    hide Inv;
    var m := db.mappings[j];
    if m.attemptId.Some? {
      assert after.attempts[m.attemptId.value] == db.attempts[m.attemptId.value];
    }
  }

  /** A change of a task that no job is mapped to leaves the projection alone. */
  lemma ProjectionFrame(db: Db, after: Db, t: string)
    requires ProjectionInv(db) && Touches(db, after, t) && !Tasks.IsMapped(db, t)
    ensures ProjectionInv(after)
  {
    hide Inv, Projected;
    forall j | j in after.mappings
      ensures j in after.jobs && Projected(after.jobs[j], after.mappings[j], after.tasks, after.attempts)
    {
      ProjectedElsewhere(db, after, j, t);
    }
  }

  lemma {:induction false} RecoverProjects(db: Db, stamps: seq<Stamp>, rows: seq<string>, now: Time)
    requires Inv(db) && ProjectionInv(db) && |stamps| == |rows| && Recovery.Expirable(db, rows, now)
    ensures ProjectionInv(Commit(db, Tasks.Recover(db, stamps, rows, now)))
    decreases |rows|
  {
    hide Inv, ProjectionInv, Tasks.Expire, Recovery.Swept, Tasks.HasExpired;
    if rows != [] {
      Recovery.RecoverUnfolds(db, stamps, rows, now);
      Recovery.FirstKept(db, stamps[0], rows, now);
      hide Tasks.Recover, Recovery.Expirable;
      var o := Recovery.FirstExpired(db, stamps[0], rows[0], now);
      if o.Done? {
        FirstProjects(db, stamps[0], rows[0], now);
        RecoverProjects(o.db, stamps[1..], rows[1..], now);
      }
    }
  }

  lemma FirstProjects(db: Db, stamp: Stamp, a: string, now: Time)
    requires Inv(db) && ProjectionInv(db) && Tasks.HasExpired(db, a, now)
    requires Recovery.FirstExpired(db, stamp, a, now).Done?
    ensures ProjectionInv(Recovery.FirstExpired(db, stamp, a, now).db)
  {
    hide Inv, ProjectionInv, Tasks.Expire, Evolves;
    var t := db.attempts[a].taskId;
    ExpireKeeps(db, stamp, t, a, Tasks.RecoveryState(db.tasks[t]), now);
    ProjectionFrame(db, Recovery.FirstExpired(db, stamp, a, now).db, t);
  }

  // ----- steps on the task of one job

  /** One job, its mapping, and its task change together. */
  ghost predicate JobStep(db: Db, kernel: Db, after: Db, j: string, m: Mapping, job: Job) {
    && j in db.mappings && m.taskId == db.mappings[j].taskId
    && Touches(db, kernel, m.taskId)
    && after == kernel.(jobs := db.jobs[j := job], mappings := db.mappings[j := m])
    && Projected(job, m, after.tasks, after.attempts)
  }

  lemma JobStepProjects(db: Db, kernel: Db, after: Db, j: string, m: Mapping, job: Job)
    requires ProjectionInv(db) && JobStep(db, kernel, after, j, m, job)
    ensures ProjectionInv(after)
  {
    hide Projected;
    forall k | k in after.mappings
      ensures k in after.jobs && Projected(after.jobs[k], after.mappings[k], after.tasks, after.attempts)
    {
      if k != j {
        ProjectedElsewhere(db, kernel, k, m.taskId);
      }
    }
  }

  /** The kernel's invariants do not look at the job tables. */
  lemma JobsApart(kernel: Db, after: Db, sha: Checkpoints.Sha)
    requires Sound(kernel, sha) && after == kernel.(jobs := after.jobs, mappings := after.mappings)
    ensures Sound(after, sha)
  {
    hide FencingInv, HistoryInv, EventsInv, RowsInv;
    forall i | 0 <= i < |after.checkpoints|
      ensures CheckpointInvariants.WrittenUnder(after, after.checkpoints[i])
    {
      assert CheckpointInvariants.WrittenUnder(kernel, kernel.checkpoints[i]);
    }
    hide CheckpointInvariants.WrittenUnder;
    ChainsApart(kernel, after, sha);
    forall i | 0 <= i < |after.events| && after.events[i].source == Checkpoints.SOURCE
      ensures CheckpointInvariants.ExecAccounted(after, after.events[i].dedupKey)
    {
      assert CheckpointInvariants.ExecAccounted(kernel, kernel.events[i].dedupKey);
      CheckpointInvariants.GrownAccounted(kernel, after, after.events[i].dedupKey);
    }
  }

  lemma ChainsApart(kernel: Db, after: Db, sha: Checkpoints.Sha)
    requires CheckpointInvariants.CheckpointInv(kernel, sha) && after == kernel.(jobs := after.jobs, mappings := after.mappings)
    ensures forall t :: CheckpointInvariants.ChainInv(after, sha, t)
  {
    hide CheckpointInvariants.WrittenUnder, CheckpointInvariants.ExecAccounted;
    EvolvesReflexive(kernel, after);
    forall t
      ensures CheckpointInvariants.ChainInv(after, sha, t)
    {
      assert CheckpointInvariants.ChainInv(kernel, sha, t);
      CheckpointInvariants.ChainKept(kernel, after, sha, t, 0.0);
    }
  }

  lemma EvolvesReflexive(kernel: Db, after: Db)
    requires after == kernel.(jobs := after.jobs, mappings := after.mappings)
    ensures forall now :: Evolves(kernel, after, now)
  {
  }

  // ----- both together

  ghost predicate Consistent(db: Db, sha: Checkpoints.Sha) {
    Sound(db, sha) && ProjectionInv(db)
  }

  lemma EvolvesApart(db: Db, kernel: Db, after: Db, now: Time)
    requires Evolves(db, kernel, now) && after == kernel.(jobs := after.jobs, mappings := after.mappings)
    ensures Evolves(db, after, now)
  {
    hide AttemptsEvolve, TaskEvolves;
  }

  /** A sound step on the task of one job, with the job row and mapping that go with it. */
  lemma JobStepKeeps(db: Db, kernel: Db, after: Db, sha: Checkpoints.Sha, j: string, m: Mapping, job: Job, now: Time)
    requires Consistent(db, sha) && Kept(db, kernel, m.taskId, now) && JobStep(db, kernel, after, j, m, job)
    ensures Consistent(after, sha) && Evolves(db, after, now)
  {
    hide Sound, ProjectionInv, Evolves, Kept, Touches, Projected;
    KeptSound(db, kernel, sha, m.taskId, now);
    JobsApart(kernel, after, sha);
    EvolvesApart(db, kernel, after, now);
    JobStepProjects(db, kernel, after, j, m, job);
  }

  /** Job rows without a task may change freely. */
  lemma UnmappedKeeps(db: Db, after: Db, sha: Checkpoints.Sha, now: Time)
    requires Consistent(db, sha) && after == db.(jobs := after.jobs)
    requires forall j :: j in db.mappings && j in db.jobs ==> j in after.jobs && after.jobs[j] == db.jobs[j]
    ensures Consistent(after, sha) && Evolves(db, after, now)
  {
    hide Sound, Evolves, Projected;
    JobsApart(db, after, sha);
    EvolvesReflexive(db, after);
  }

  lemma ConsistentReflexive(db: Db, sha: Checkpoints.Sha, now: Time)
    requires Consistent(db, sha)
    ensures Evolves(db, db, now)
  {
    hide Sound, ProjectionInv;
    EvolvesReflexive(db, db);
  }

  /** What the projection says of one mapped job. */
  lemma ProjectionOf(db: Db, j: string)
    requires ProjectionInv(db) && j in db.mappings
    ensures j in db.jobs && Projected(db.jobs[j], db.mappings[j], db.tasks, db.attempts)
  {
    hide Projected;
  }
}
