/**
 The durable rows that the managed-execution services share, and the tables they live in.

 Text identities are opaque.  Identities that the program derives by hashing (a managed root from its
 edict and idempotency key, a fire from its job and time, ...) are constructors applied to what is hashed:
 the hash is taken to be injective and the prefixes keep the kinds apart.
 */
module Durable {
  datatype Option<+T> = None | Some(value: T)

  type Time = int

  newtype EdictId = int
  newtype JobId = int
  newtype DagId = int
  newtype NodeId = int
  newtype DecisionId = int
  newtype IntentId = int
  newtype OwnerId = int
  newtype PrincipalId = int
  newtype Key = int
  newtype Ulid = int
  newtype Text = int

  datatype MemorialId =
    | SubmittedRoot(ulid: Ulid)
    | ManagedRoot(edict: EdictId, key: Key)
    | DagRetryRoot(dag: DagId, key: Key)
    | FireRoot(job: JobId, at: Time)
    | ManualRoot(job: JobId, key: Key)
    | WorkerMemorial(ulid: Ulid)

  datatype AttemptId =
    | ManagedAttempt(edict: EdictId, key: Key)
    | AdoptedAttempt(root: MemorialId, key: Key)
    | LegacyAttempt(legacy: LegacyEvent)
    | DagRetryAttempt(dag: DagId, key: Key)
    | FireAttempt(job: JobId, at: Time)
    | ManualAttempt(job: JobId, key: Key)
    | RetryAttempt(ulid: Ulid)

  // ---------------------------------------------------------------- root Memorials

  datatype TaskStatus =
    Submitted | Scheduled | Planning | Running | Auditing | NeedsReview | Completed | Failed | Cancelled

  predicate Terminal(s: TaskStatus) {
    s.Completed? || s.Failed? || s.Cancelled?
  }

  datatype Memorial = Memorial(
    edict: EdictId,
    isRoot: bool,
    status: TaskStatus,
    instruction: Text,
    parent: Option<MemorialId>,
    createdAt: Time,
    generation: nat,
    output: Option<Text>)

  // ---------------------------------------------------------------- execution attempts

  datatype AttemptStatus = Claimable | Claimed | Suspended | Succeeded | AttemptFailed | DeadLetter

  predicate Live(s: AttemptStatus) {
    s.Claimable? || s.Claimed? || s.Suspended?
  }

  datatype Lease = Lease(owner: OwnerId, heartbeat: Time, expires: Time)

  datatype Attempt = Attempt(
    memorial: MemorialId,
    no: nat,
    status: AttemptStatus,
    lease: Option<Lease>,
    token: nat,
    availableAt: Time,
    maxAttempts: nat,
    version: nat)

  /** A process-local copy of one durable lease. */
  datatype Authority = Authority(attempt: AttemptId, memorial: MemorialId, owner: OwnerId, token: nat)

  /** What the projection of a run is stored under. */
  datatype ProjectionKey = ProjectionKey(attempt: AttemptId, owner: OwnerId, token: nat)

  function KeyOf(a: Authority): ProjectionKey {
    ProjectionKey(a.attempt, a.owner, a.token)
  }

  datatype Disposition = DispSucceeded | DispFailed

  // ---------------------------------------------------------------- RunStates and Decisions

  datatype RunPhase =
    | PhaseSubmitted | PhasePlanning | PhaseExecuting | PhaseWaiting | PhasePaused | PhaseAuditing
    | PhaseCompleted | PhaseFailed

  datatype PlanHash = HashOf(document: Text)
  datatype PlanBinding = PlanBinding(planRef: Text, planHash: PlanHash)
  datatype ContinuationKind = AgentContinuation | OuterLoopContinuation

  datatype RunState = RunState(
    edict: EdictId,
    phase: RunPhase,
    kind: ContinuationKind,
    pending: Option<DecisionId>,
    resolved: Option<DecisionId>,
    pendingTool: bool,
    cursor: nat,
    plan: Option<PlanBinding>,
    version: nat,
    updatedAt: Time)

  /** A stored row decodes to a RunState or it does not. */
  datatype RunRow = Undecodable | Decoded(state: RunState)

  datatype DecisionKind = ToolDecision | OuterLoopDecision | PlanReviewDecision | GovernedApplyDecision
  datatype Action = Approve | Reject | Guide | Continue | AcceptAsIs | Abort | ModifyAcceptance
  datatype RequestKey = SideEffectKey(intent: IntentId) | OtherRequestKey(text: Text)
  datatype DecisionStatus = Pending | Resolved(action: Action, resolvedAt: Time) | Expired | DecisionDropped
  datatype PlanPayload = PlanPayload(document: Text, planRef: Text, planHash: PlanHash)

  datatype Decision = Decision(
    kind: DecisionKind,
    edict: EdictId,
    memorial: MemorialId,
    requestKey: RequestKey,
    plan: Option<PlanPayload>,
    status: DecisionStatus,
    updatedAt: Time)

  datatype Intent = Intent(memorial: MemorialId, sequenceNo: nat)

  // ---------------------------------------------------------------- outbox

  datatype FailureCode = BindingInvalid | ReviewRejected
  datatype PlanIdentity = ByDecision(decision: DecisionId) | ByAttempt(attempt: AttemptId)

  datatype EventId =
    | RunEvent(attempt: AttemptId, owner: OwnerId, token: nat, disposition: Disposition)
    | RootCancelledEvent(root: MemorialId)
    | DeadLetterEvent(attempt: AttemptId)
    | ResumeEvent(decision: DecisionId)
    | DecisionCancelEvent(decision: DecisionId)
    | PlanFailedEvent(identity: PlanIdentity, code: FailureCode)
    | ManagedEvent(edict: EdictId, key: Key)
    | DagRetryEvent(dag: DagId, key: Key)
    | SubmittedEvent(ulid: Ulid)

  datatype IngressType = FollowupSubmitted | OtherIngress(text: Text)
  datatype LegacyType = EdictScheduled | PlanCompleted(decision: Option<DecisionId>) | EdictResume
  datatype LegacyEvent =
    LegacyEvent(id: Text, eventType: LegacyType, edict: EdictId, root: MemorialId, timestamp: Time, payload: Text)

  datatype EventKind =
    | ExecutionCompleted | ExecutionFailed | ExecutionCancelled
    | ResumeRequested | EdictSubmitted | DagRetryRequested
    | Ingress(ingress: IngressType)

  datatype StartCommand = StartCommand(
    edict: EdictId, key: Key, instruction: Text, eventType: IngressType, payload: Text, parent: Option<MemorialId>)
  datatype DagRetryCommand = DagRetryCommand(dag: DagId, key: Key, fromNodes: Option<set<NodeId>>)

  datatype Payload =
    | Plain
    | ManagedPayload(command: StartCommand)
    | DagRetryPayload(request: DagRetryCommand, reset: set<NodeId>)

  datatype Event = Event(kind: EventKind, edict: EdictId, memorial: MemorialId, payload: Payload)

  predicate TerminalKind(k: EventKind) {
    k.ExecutionCompleted? || k.ExecutionFailed? || k.ExecutionCancelled?
  }

  /** The status a root has when its terminal event is of kind `k`. */
  function StatusOf(k: EventKind): TaskStatus
    requires TerminalKind(k)
  {
    match k
    case ExecutionCompleted => Completed
    case ExecutionFailed => Failed
    case ExecutionCancelled => Cancelled
  }

  // ---------------------------------------------------------------- DAGs, schedules, submissions

  datatype NodeStatus = NodePending | NodeReady | NodeRunning | NodeCompleted | NodeFailed | NodeCancelled
  datatype DagNode = DagNode(id: NodeId, status: NodeStatus, dependsOn: set<NodeId>)
  datatype DagStatus = DagPending | DagRunning | DagCompleted | DagFailed | DagCancelled
  datatype Dag = Dag(edict: EdictId, status: DagStatus, root: MemorialId, rows: seq<DagNode>)

  newtype CronExpr = int
  newtype Zone = int
  datatype Timing =
    | Immediate
    | Once(at: Option<Time>)
    | Cron(expr: Option<CronExpr>, zone: Zone)
    | Interval(seconds: Option<int>)
  datatype Policy = Skip | Allow
  datatype Schedule = Schedule(timing: Timing, policy: Policy)
  datatype Edict = Edict(open: bool, archived: bool, goal: Text, schedule: Schedule, retryLimit: int)

  datatype JobStatus = JobActive | JobPaused | JobCompleted | JobCancelled
  datatype JobTiming = ImmediateJob | OnceJob | CronJob(expr: Option<CronExpr>) | IntervalJob(seconds: Option<int>)

  /** The identity of a submitted job is derived from its submission event. */
  datatype Job = Job(edict: EdictId, timing: JobTiming, submission: EventId, cursor: Option<Time>, status: JobStatus)

  datatype FireId = TimerFire(job: JobId, at: Time) | ManualFire(job: JobId, key: Key)
  datatype FireStatus = FirePrepared | FireSkipped

  /** What the stored fingerprint of a fire digests. */
  datatype Envelope =
    | TimerEnvelope(edict: EdictId, timing: JobTiming, schedule: Schedule, at: Time, next: Option<Time>,
                    initial: Option<MemorialId>, status: FireStatus, maxAttempts: int)
    | ManualEnvelope(edict: EdictId, maxAttempts: int, at: Time, next: Option<Time>)

  datatype FireRow = FireRow(edict: EdictId, status: FireStatus, startedAt: Time, envelope: Envelope)

  datatype SubmissionKey = SubmissionKey(principal: PrincipalId, key: Key)
  datatype Submission = Submission(request: Text, edict: EdictId, memorial: MemorialId, event: EventId)

  // ---------------------------------------------------------------- the database

  datatype Db = Db(
    edicts: map<EdictId, Edict>,
    memorials: map<MemorialId, Memorial>,
    attempts: map<AttemptId, Attempt>,
    runStates: map<MemorialId, RunRow>,
    decisions: map<DecisionId, Decision>,
    intents: map<IntentId, Intent>,
    outbox: map<EventId, Event>,
    dags: map<DagId, Dag>,
    jobs: map<JobId, Job>,
    fires: map<FireId, FireRow>,
    submissions: map<SubmissionKey, Submission>)

  const EMPTY: Db := Db(map[], map[], map[], map[], map[], map[], map[], map[], map[], map[], map[])

  datatype Fault = FenceLost | Conflict | Unavailable | Busy | InvalidRequest | DecodeError

  /** A unit of work either commits one new database with a value, or raises and leaves the old one. */
  datatype Outcome<+T> = Committed(db: Db, value: T) | Raised(fault: Fault) {
    function After(before: Db): Db {
      if Committed? then db else before
    }
  }

  /** The shared connection.  A service method works on a local copy and assigns it back when it commits. */
  class Storage {
    var db: Db

    constructor ()
      ensures db == EMPTY
    {
      db := EMPTY;
    }
  }

  function Max(x: Time, y: Time): (r: Time)
    ensures x <= r && y <= r && (r == x || r == y)
  {
    if x < y then y else x
  }

  predicate Root(db: Db, m: MemorialId) {
    m in db.memorials && db.memorials[m].isRoot
  }

  predicate ActiveRoot(db: Db, m: MemorialId) {
    Root(db, m) && !Terminal(db.memorials[m].status)
  }
}
