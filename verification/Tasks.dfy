/**
 The fenced task protocol (harness2/kernel/tasks.py), each transaction as a function from
 the database before it to its outcome.
 */
module Tasks {
  import opened Tables
  import opened Wrappers
  import EventLog
  import Keys

  const SOURCE: string := "kernel.tasks"

  datatype Request = Request(
    taskId: string, requestHash: string, taskType: string, source: string, reason: string,
    priority: int, authority: string, idempotencyKey: Option<string>, maxAttempts: int)

  function SubmissionOf(r: Request): Submission {
    Submission(r.requestHash, r.taskType, r.source, r.reason, r.priority, r.authority, Max(1, r.maxAttempts))
  }

  function KernelEvent(stamp: Stamp, eventType: string, t: string, key: Keys.Key, payload: Payload): Event {
    Event(stamp.eventId, eventType, 1, SOURCE, Some(t), t, None, stamp.occurredAt, payload, "{}", Some(Keys.Render(key)))
  }

  predicate TransitionClashes(rows: seq<TransitionRow>, id: string, eventId: string) {
    exists i :: 0 <= i < |rows| && (rows[i].id == id || rows[i].eventId == eventId)
  }

  function RecordTransition(db: Db, row: TransitionRow): Outcome<()> {
    if TransitionClashes(db.transitions, row.id, row.eventId) then Raised(IntegrityError)
    else Done(db.(transitions := db.transitions + [row]), ())
  }

  /** Writes a task row and its attempts, then the event and the transition that record the change. */
  function Advance(db: Db, t: string, row: Task, attempts: map<string, Attempt>, event: Event,
                   transition: TransitionRow): Outcome<Task>
  {
    match EventLog.Append(db.(tasks := db.tasks[t := row], attempts := attempts), event)
    case Raised(e) => Raised(e)
    case Done(db1, recorded) =>
      match RecordTransition(db1, transition.(eventId := recorded.id))
      case Raised(e) => Raised(e)
      case Done(db2, _) => Done(db2, row)
  }

  function NewTransition(stamp: Stamp, t: string, attemptId: Option<string>, from: Option<TaskState>,
                         row: Task, reason: string, now: Time): TransitionRow
  {
    TransitionRow(stamp.transitionId, t, attemptId, from, row.state, reason, stamp.eventId, now, row.revision)
  }

  predicate KeyTaken(tasks: map<string, Task>, key: Option<string>) {
    key.Some? && exists t :: t in tasks && tasks[t].idempotencyKey == key
  }

  function Submit(db: Db, stamp: Stamp, r: Request, now: Time): Outcome<Task> {
    var submission := SubmissionOf(r);
    if r.taskId in db.tasks then
      var task := db.tasks[r.taskId];
      if task.submission == submission && task.idempotencyKey == r.idempotencyKey then Done(db, task)
      else Raised(IdempotencyConflict)
    else if KeyTaken(db.tasks, r.idempotencyKey) then
      Raised(if r.idempotencyKey == Some("") then IntegrityError else IdempotencyConflict)
    else
      var row := NewRow(r, now);
      Advance(db, r.taskId, row, db.attempts,
        KernelEvent(stamp, "task.created", r.taskId, Keys.Created(r.taskId), Submitted(submission)),
        NewTransition(stamp, r.taskId, None, None, row, "submitted", now))
  }

  function NewRow(r: Request, now: Time): Task {
    var submission := SubmissionOf(r);
    Task(submission, r.idempotencyKey, Created, submission.maxAttempts, 0, 0, None,
         now, None, None, now, now, None, 0)
  }

  function MovedRow(task: Task, to: TaskState, now: Time): Task {
    task.(state := to, updatedAt := now, revision := task.revision + 1,
          terminalAt := if Terminal(to) then Some(now) else None)
  }

  function MovedEvent(stamp: Stamp, t: string, eventType: string, task: Task, to: TaskState, reason: string): Event {
    KernelEvent(stamp, eventType, t, Keys.Revised(t, task.revision + 1), Moved(task.state, to, reason))
  }

  function Transition(db: Db, stamp: Stamp, t: string, to: TaskState, reason: string,
                      causation: Option<string>, now: Time): Outcome<Task>
  {
    if t !in db.tasks then Raised(UnknownTask)
    else
      var task := db.tasks[t];
      if task.active.Some? || to !in AllowedTransitions(task.state) then Raised(InvalidTransition)
      else
        var row := MovedRow(task, to, now);
        Advance(db, t, row, db.attempts,
          MovedEvent(stamp, t, "task." + StateName(to), task, to, reason).(causationId := causation),
          NewTransition(stamp, t, None, Some(task.state), row, reason, now))
  }

  /** One guarded step of `prepare`: a transition when the task is in the given state. */
  function PrepareStep(o: Outcome<Task>, from: TaskState, stamp: Stamp, t: string, to: TaskState, reason: string,
                       now: Time): Outcome<Task>
  {
    match o
    case Raised(e) => Raised(e)
    case Done(db, task) => if task.state == from then Transition(db, stamp, t, to, reason, None, now) else o
  }

  /** `prepare` inside one transaction. */
  function Prepare(db: Db, first: Stamp, second: Stamp, t: string, now: Time): Outcome<Task> {
    if t !in db.tasks then Raised(UnknownTask)
    else
      var planned := PrepareStep(Done(db, db.tasks[t]), Created, first, t, Planned, "plan.created", now);
      var ready := PrepareStep(planned, Planned, second, t, Ready, "plan.ready", now);
      PrepareStep(ready, Blocked, first, t, Ready, "plan.recheck", now)
  }

  // ----- leases

  /** The lease may still act for its attempt. */
  predicate Authoritative(db: Db, lease: Lease, now: Time) {
    && lease.taskId in db.tasks
    && lease.attemptId in db.attempts
    && var task := db.tasks[lease.taskId];
    && var attempt := db.attempts[lease.attemptId];
    && task.state == Running
    && task.active == Some(lease.attemptId)
    && task.currentFence == lease.fence
    && attempt.state == AttemptRunning
    && attempt.owner == lease.owner
    && attempt.fence == lease.fence
    && attempt.leaseUntil >= now
  }

  /** Ends a running attempt; without an outcome its outcome column stays as it is. */
  function CloseAttempt(attempts: map<string, Attempt>, a: string, state: AttemptState, outcome: Option<string>,
                        errorCode: Option<string>, now: Time): map<string, Attempt>
  {
    if a in attempts && attempts[a].state == AttemptRunning then
      attempts[a := attempts[a].(
        state := state, finishedAt := Some(now), errorCode := errorCode,
        outcomeHash := if outcome.Some? then outcome else attempts[a].outcomeHash)]
    else attempts
  }

  function Cancel(db: Db, stamp: Stamp, t: string, lease: Option<Lease>, now: Time): Outcome<Task> {
    if t !in db.tasks then Raised(UnknownTask)
    else
      var task := db.tasks[t];
      if Terminal(task.state) || Cancelled !in AllowedTransitions(task.state) then Raised(InvalidTransition)
      else if task.active.Some? && (lease.None? || !Authoritative(db, lease.value, now)) then Raised(StaleLease)
      else
        var row := CancelledRow(task, now);
        Advance(db, t, row, CancelledAttempts(db, task, now),
          MovedEvent(stamp, t, "task.cancelled", task, Cancelled, "user.cancelled"),
          NewTransition(stamp, t, task.active, Some(task.state), row, "user.cancelled", now))
  }

  function CancelledRow(task: Task, now: Time): Task {
    MovedRow(task, Cancelled, now).(active := None, errorCode := Some("task_cancelled"))
  }

  function CancelledAttempts(db: Db, task: Task, now: Time): map<string, Attempt> {
    match task.active
    case None => db.attempts
    case Some(a) => CloseAttempt(db.attempts, a, AttemptCancelled, None, Some("task_cancelled"), now)
  }

  function Retry(db: Db, stamp: Stamp, t: string, now: Time): Outcome<Task> {
    if t !in db.tasks then Raised(UnknownTask)
    else
      var task := db.tasks[t];
      if task.state != Failed || task.attemptsStarted >= task.maxAttempts then Raised(InvalidTransition)
      else
        var row := RetriedRow(task, now);
        Advance(db, t, row, db.attempts,
          MovedEvent(stamp, t, "task.retrying", task, Retrying, "user.retry"),
          NewTransition(stamp, t, None, Some(task.state), row, "user.retry", now))
  }

  function RetriedRow(task: Task, now: Time): Task {
    MovedRow(task, Retrying, now).(nextRunAt := now, errorCode := None)
  }

  /** The attempt table's primary key and its two unique pairs. */
  predicate AttemptClashes(attempts: map<string, Attempt>, id: string, t: string, number: nat, fence: nat) {
    id in attempts
    || exists a :: a in attempts && attempts[a].taskId == t && (attempts[a].number == number || attempts[a].fence == fence)
  }

  predicate Claimable(task: Task, now: Time) {
    task.state in {Ready, Retrying, Recovering} && task.nextRunAt <= now && task.attemptsStarted < task.maxAttempts
  }

  function Claim(db: Db, stamp: Stamp, attemptId: string, t: string, plan: Plan, owner: string,
                 leaseSeconds: int, now: Time): Outcome<Lease>
  {
    if t !in db.tasks then Raised(UnknownTask)
    else
      var task := db.tasks[t];
      if !Claimable(task, now) then Raised(InvalidTransition)
      else
        var number, fence := task.attemptsStarted + 1, task.currentFence + 1;
        if AttemptClashes(db.attempts, attemptId, t, number, fence) then Raised(IntegrityError)
        else
          var attempt := NewAttempt(t, task, plan, owner, leaseSeconds, now);
          var row := ClaimedRow(task, attemptId, now);
          match Advance(db, t, row, db.attempts[attemptId := attempt],
            StartedEvent(stamp, t, attemptId, attempt),
            NewTransition(stamp, t, Some(attemptId), Some(task.state), row, "attempt.started", now))
          case Raised(e) => Raised(e)
          case Done(after, _) => Done(after, Lease(attemptId, t, number, fence, owner, attempt.leaseUntil, plan))
  }

  function NewAttempt(t: string, task: Task, plan: Plan, owner: string, leaseSeconds: int, now: Time): Attempt {
    Attempt(t, task.attemptsStarted + 1, task.currentFence + 1, AttemptRunning, owner,
            now + Max(1, leaseSeconds) as real, plan, now, now, None, None, None)
  }

  function ClaimedRow(task: Task, attemptId: string, now: Time): Task {
    task.(state := Running, attemptsStarted := task.attemptsStarted + 1, currentFence := task.currentFence + 1,
          active := Some(attemptId), updatedAt := now, revision := task.revision + 1)
  }

  function StartedEvent(stamp: Stamp, t: string, attemptId: string, attempt: Attempt): Event {
    KernelEvent(stamp, "task.started", t, Keys.Started(t, attempt.number),
                AttemptBegun(attemptId, attempt.number, attempt.fence, attempt.plan.runtimeId, attempt.plan.planId))
  }

  function Renew(db: Db, stamp: Stamp, lease: Lease, leaseSeconds: int, now: Time): Outcome<Lease> {
    if !Authoritative(db, lease, now) then Raised(StaleLease)
    else
      var attempt := RenewedAttempt(db.attempts[lease.attemptId], leaseSeconds, now);
      match EventLog.Append(db.(attempts := db.attempts[lease.attemptId := attempt]), RenewedEvent(stamp, lease, now))
      case Raised(e) => Raised(e)
      case Done(after, _) => Done(after, lease.(leaseUntil := attempt.leaseUntil))
  }

  function RenewedAttempt(attempt: Attempt, leaseSeconds: int, now: Time): Attempt {
    attempt.(leaseUntil := LaterOf(attempt.leaseUntil, now + Max(1, leaseSeconds) as real), renewedAt := now)
  }

  function RenewedEvent(stamp: Stamp, lease: Lease, now: Time): Event {
    KernelEvent(stamp, "task.lease.renewed", lease.taskId, Keys.Renewed(lease.attemptId, Truncate(now * 1000.0)),
                LeaseRenewed(lease.attemptId, lease.fence))
  }

  function Complete(db: Db, stamp: Stamp, lease: Lease, success: bool, outcomeHash: string,
                    errorCode: Option<string>, retryable: bool, retryAt: Option<Time>, now: Time): Outcome<Task>
  {
    if !Authoritative(db, lease, now) then Raised(StaleLease)
    else
      var t := lease.taskId;
      var task := db.tasks[t];
      var attempts := CloseAttempt(db.attempts, lease.attemptId,
        if success then AttemptSucceeded else AttemptFailed, Some(outcomeHash), errorCode, now);
      var row := CompletedRow(task, success, outcomeHash, errorCode, retryable, retryAt, now);
      Advance(db, t, row, attempts, CompletedEvent(stamp, lease, row.state, success, outcomeHash, errorCode),
        NewTransition(stamp, t, Some(lease.attemptId), Some(task.state), row, "attempt.completed", now))
  }

  function CompletionState(task: Task, success: bool, retryable: bool): TaskState {
    if success then Completed
    else if retryable && task.attemptsStarted < task.maxAttempts then Retrying
    else Failed
  }

  function CompletedRow(task: Task, success: bool, outcomeHash: string, errorCode: Option<string>, retryable: bool,
                        retryAt: Option<Time>, now: Time): Task
  {
    MovedRow(task, CompletionState(task, success, retryable), now).(
      active := None, nextRunAt := if retryAt.Some? then retryAt.value else now,
      resultHash := if success then Some(outcomeHash) else None, errorCode := errorCode)
  }

  function CompletedEvent(stamp: Stamp, lease: Lease, state: TaskState, success: bool, outcomeHash: string,
                          errorCode: Option<string>): Event
  {
    KernelEvent(stamp, "task." + StateName(state), lease.taskId, Keys.Completed(lease.attemptId),
                AttemptEnded(lease.attemptId, lease.number, lease.fence, success, outcomeHash, errorCode))
  }

  // ----- recovery of expired leases

  /** Ends the running attempt a of task t because its lease ran out. */
  function Expire(db: Db, stamp: Stamp, t: string, a: string, target: TaskState, now: Time): Outcome<Task>
    requires t in db.tasks
  {
    var task := db.tasks[t];
    var attempts := CloseAttempt(db.attempts, a, AttemptExpired, None, Some("lease_expired"), now);
    var row := ExpiredRow(task, target, now);
    Advance(db, t, row, attempts, ExpiredEvent(stamp, t, a, task, target),
      NewTransition(stamp, t, Some(a), Some(Running), row, "lease.expired", now))
  }

  function ExpiredRow(task: Task, target: TaskState, now: Time): Task {
    MovedRow(task, target, now).(active := None, errorCode := Some("lease_expired"), nextRunAt := now)
  }

  function ExpiredEvent(stamp: Stamp, t: string, a: string, task: Task, target: TaskState): Event {
    KernelEvent(stamp, "task.lease.expired", t, Keys.Expired(a), LeaseExpired(a, task.currentFence, target))
  }

  predicate IsMapped(db: Db, t: string) {
    exists j :: j in db.mappings && db.mappings[j].taskId == t
  }

  predicate HasExpired(db: Db, a: string, now: Time) {
    && a in db.attempts
    && var attempt := db.attempts[a];
    && attempt.state == AttemptRunning && attempt.leaseUntil < now
    && attempt.taskId in db.tasks
    && var task := db.tasks[attempt.taskId];
    && task.state == Running && task.active == Some(a) && task.currentFence == attempt.fence
    && !IsMapped(db, attempt.taskId)
  }

  function RecoveryState(task: Task): TaskState {
    if task.attemptsStarted < task.maxAttempts then Recovering else Failed
  }

  /** `recover_expired` over the rows its query answered with. */
  function Recover(db: Db, stamps: seq<Stamp>, rows: seq<string>, now: Time): Outcome<nat>
    requires |stamps| == |rows|
    decreases |rows|
  {
    if rows == [] then Done(db, 0)
    else if rows[0] !in db.attempts || db.attempts[rows[0]].taskId !in db.tasks then Recover(db, stamps[1..], rows[1..], now)
    else
      var t := db.attempts[rows[0]].taskId;
      match Expire(db, stamps[0], t, rows[0], RecoveryState(db.tasks[t]), now)
      case Raised(e) => Raised(e)
      case Done(db1, _) =>
        match Recover(db1, stamps[1..], rows[1..], now)
        case Raised(e) => Raised(e)
        case Done(db2, n) => Done(db2, n + 1)
  }

  /** A possible answer to the query: expired attempts, soonest lease first, at most limit of them, none passed over. */
  ghost predicate IsExpiredQuery(db: Db, rows: seq<string>, limit: int, now: Time) {
    && (forall i, j :: 0 <= i < j < |rows| ==> rows[i] != rows[j])
    && (forall i :: 0 <= i < |rows| ==> HasExpired(db, rows[i], now))
    && (forall i, j :: 0 <= i < j < |rows| ==> db.attempts[rows[i]].leaseUntil <= db.attempts[rows[j]].leaseUntil)
    && |rows| <= Max(1, Min(limit, 1000))
    && (forall a :: HasExpired(db, a, now) && a !in rows ==>
          && |rows| == Max(1, Min(limit, 1000))
          && forall i :: 0 <= i < |rows| ==> db.attempts[rows[i]].leaseUntil <= db.attempts[a].leaseUntil)
  }
}
