/**
 The tables of the kernel's database and the values that pass between its repositories
 (harness2/kernel/migrations.py, harness2/kernel/tasks.py, harness2/store.py). A
 transaction is a function from a database to the committed database and its answer, or
 to an error, in which case nothing is committed.
 */
module Tables {
  import opened Wrappers

  type Time = real

  datatype TaskState =
    | Created | Planned | Ready | Running | Waiting | Verifying | Completed
    | Failed | Cancelled | Blocked | Retrying | Degraded | Recovering

  datatype AttemptState = AttemptRunning | AttemptSucceeded | AttemptFailed | AttemptExpired | AttemptCancelled

  predicate Terminal(s: TaskState) {
    s == Completed || s == Failed || s == Cancelled
  }

  function AllowedTransitions(s: TaskState): set<TaskState> {
    match s
    case Created => {Planned, Cancelled, Blocked}
    case Planned => {Ready, Blocked, Cancelled}
    case Ready => {Running, Cancelled, Blocked}
    case Running => {Waiting, Degraded, Cancelled}
    case Waiting => {Ready, Running, Cancelled, Blocked}
    case Verifying => {Degraded}
    case Retrying => {Ready, Running, Failed, Cancelled}
    case Degraded => {Recovering, Retrying, Failed, Cancelled}
    case Recovering => {Ready, Running, Failed, Cancelled}
    case Blocked => {Ready, Cancelled, Failed}
    case Failed => {Retrying}
    case Completed => {}
    case Cancelled => {}
  }

  function StateName(s: TaskState): string {
    match s
    case Created => "created"
    case Planned => "planned"
    case Ready => "ready"
    case Running => "running"
    case Waiting => "waiting"
    case Verifying => "verifying"
    case Completed => "completed"
    case Failed => "failed"
    case Cancelled => "cancelled"
    case Blocked => "blocked"
    case Retrying => "retrying"
    case Degraded => "degraded"
    case Recovering => "recovering"
  }

  /** The fields covered by a submission's SHA-256 digest, which stands for them. */
  datatype Submission = Submission(
    requestHash: string, taskType: string, source: string, reason: string,
    priority: int, authority: string, maxAttempts: nat)

  datatype Task = Task(
    submission: Submission, idempotencyKey: Option<string>, state: TaskState,
    maxAttempts: nat, attemptsStarted: nat, currentFence: nat, active: Option<string>,
    nextRunAt: Time, resultHash: Option<string>, errorCode: Option<string>,
    createdAt: Time, updatedAt: Time, terminalAt: Option<Time>, revision: nat)

  datatype Plan = Plan(planId: string, taskId: string, runtimeId: string)

  datatype Attempt = Attempt(
    taskId: string, number: nat, fence: nat, state: AttemptState, owner: string,
    leaseUntil: Time, plan: Plan, startedAt: Time, renewedAt: Time,
    finishedAt: Option<Time>, outcomeHash: Option<string>, errorCode: Option<string>)

  datatype Lease = Lease(
    attemptId: string, taskId: string, number: nat, fence: nat, owner: string,
    leaseUntil: Time, plan: Plan)

  datatype TransitionRow = TransitionRow(
    id: string, taskId: string, attemptId: Option<string>, from: Option<TaskState>, to: TaskState,
    reason: string, eventId: string, occurredAt: Time, revision: nat)

  datatype Payload =
    | Submitted(submission: Submission)
    | Moved(from: TaskState, to: TaskState, reason: string)
    | AttemptBegun(attemptId: string, number: nat, fence: nat, runtimeId: string, planId: string)
    | AttemptEnded(attemptId: string, number: nat, fence: nat, success: bool, outcomeHash: string,
                   errorCode: Option<string>)
    | LeaseRenewed(attemptId: string, fence: nat)
    | LeaseExpired(attemptId: string, fence: nat, recovery: TaskState)
    | CheckpointMade(attemptId: string, fence: nat, checkpointId: string, number: nat,
                     payloadHash: string, workflowStep: string)
    | PayloadBound(referenceId: string, payloadHash: string, taskType: string)
    | JobQuarantined(jobId: string)
    | OtherPayload(text: string)

  /** A constructed TypedEvent: its mandatory texts are not blank. */
  datatype Event = Event(
    id: string, eventType: string, schemaVersion: nat, source: string, taskId: Option<string>,
    correlationId: string, causationId: Option<string>, occurredAt: Time,
    payload: Payload, metadata: string, dedupKey: Option<string>)

  datatype Reference = Reference(
    id: string, backendId: string, objectKey: string, contentHash: string, size: nat,
    schemaId: string, purpose: string, mac: string)

  datatype Checkpoint = Checkpoint(
    id: string, taskId: string, attemptId: string, fence: nat, number: nat, workflowStep: string,
    resourceVersions: string, referenceId: string, parentHash: string, integrityHash: string,
    resumable: bool, schemaVersion: nat, createdAt: Time, eventId: string)

  /** What the object store authenticates an object for. */
  datatype Binding =
    | InputOf(taskId: string, taskType: string)
    | CheckpointOf(taskId: string, attemptId: string, fence: nat)

  datatype StoredObject = StoredObject(reference: Reference, binding: Binding)

  datatype JobStatus = JobQueued | JobRetry | JobRunning | JobSucceeded | JobDead | JobCancelled

  datatype Job = Job(
    createdAt: Time, updatedAt: Time, status: JobStatus, engine: string, timeout: int,
    attempt: nat, maxAttempts: nat, nextRunAt: Time, leaseUntil: Option<Time>,
    workerPid: Option<int>, resultRunId: Option<string>, errorCode: Option<string>)

  datatype Mapping = Mapping(
    taskId: string, referenceId: string, attemptId: Option<string>, fence: Option<nat>,
    projection: nat, createdAt: Time)

  /** The tables, and beside them the files of the object store, keyed by object key. */
  datatype Db = Db(
    tasks: map<string, Task>,
    attempts: map<string, Attempt>,
    transitions: seq<TransitionRow>,
    events: seq<Event>,
    cursors: map<string, nat>,
    references: map<string, Reference>,
    inputs: map<string, string>,
    checkpoints: seq<Checkpoint>,
    jobs: map<string, Job>,
    mappings: map<string, Mapping>,
    objects: map<string, StoredObject>)

  const EMPTY: Db := Db(map[], map[], [], [], map[], map[], map[], [], map[], map[], map[])

  datatype Error =
    | UnknownTask | InvalidTransition | StaleLease | IdempotencyConflict
    | EventConflict | InvalidAcknowledgement | IntegrityError
    | PayloadIntegrity | InvalidPayload | MissingMapping

  datatype Outcome<+V> = Done(db: Db, value: V) | Raised(error: Error)

  /** The database after a transaction: an exception rolls everything back. */
  function Commit<V>(before: Db, o: Outcome<V>): Db {
    if o.Done? then o.db else before
  }

  function Answer<V>(o: Outcome<V>): Result<V, Error> {
    match o
    case Done(_, v) => Success(v)
    case Raised(e) => Failure(e)
  }

  /** What a recorded step draws from uuid4 and the clock. */
  datatype Stamp = Stamp(eventId: string, transitionId: string, occurredAt: Time)

  function Max(a: int, b: int): int {
    if a < b then b else a
  }

  function Min(a: int, b: int): int {
    if a < b then a else b
  }

  /** Python's int(float): toward zero. */
  function Truncate(x: real): int {
    if x >= 0.0 then x.Floor else -((-x).Floor)
  }

  function LaterOf(a: Time, b: Time): Time {
    if a < b then b else a
  }
}
