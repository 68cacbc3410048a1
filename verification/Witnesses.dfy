/** Runs from the empty database that show the failures the code allows. */
module Witnesses {
  import opened Durable
  import opened Invariant
  import opened AttemptLedger
  import opened RunStateRepository
  import opened RunStateWriters
  import opened Protocol
  import FC = FencedCompletion
  import DR = DeadLetterReconciliation
  import CR = ContinuationRecovery
  import PR = PlanReview
  import MI = ManagedIngress
  import DG = DagRetry
  import SR = ScheduledRuns
  import ES = EdictSubmission
  import AP = ApprovalProjection
  import SP = SkipPolicy
  import RN = SuspensionRuns
  import RV = ReviewRuns
  import DX = DecisionRuns

  /** Some run from the empty database ends in this one. */
  ghost predicate Reachable(cron: SR.CronNext, db: Db) {
    exists dbs, steps :: Run(cron, dbs, steps) && dbs[|steps|] == db
  }

  lemma ReachEmpty(cron: SR.CronNext)
    ensures Reachable(cron, EMPTY)
  {
    assert Run(cron, [EMPTY], []);
  }

  lemma Reach(cron: SR.CronNext, db: Db, s: Step)
    requires Reachable(cron, db) && Enabled(db, s)
    ensures Reachable(cron, Next(db, cron, s))
  {
    var dbs, steps :| Run(cron, dbs, steps) && dbs[|steps|] == db;
    var more, longer := dbs + [Next(db, cron, s)], steps + [s];
    forall i | 0 <= i < |longer| ensures StepAt(cron, more, longer, i) {
      if i < |steps| {
        assert StepAt(cron, dbs, steps, i);
      }
    }
    assert Run(cron, more, longer);
  }

  lemma ReachSubmit(cron: SR.CronNext, db: Db, c: ES.Submit, draw: ES.Draw)
    requires Reachable(cron, db)
    ensures Reachable(cron, ES.SubmitOnce(db, c, draw).After(db))
  {
    Reach(cron, db, Submits(c, draw));
  }

  lemma ReachStart(cron: SR.CronNext, db: Db, c: StartCommand, found: Option<MemorialId>, now: Time)
    requires Reachable(cron, db) && MI.IsNewestRoot(db, c.edict, found)
    ensures Reachable(cron, MI.Start(db, c, found, now).After(db))
  {
    Reach(cron, db, Starts(c, found, now));
  }

  lemma ReachClaim(cron: SR.CronNext, db: Db, m: MemorialId, owner: OwnerId, now: Time, seconds: int, ulid: Ulid)
    requires Reachable(cron, db)
    ensures Reachable(cron, Claim(db, m, owner, now, seconds, ulid).After(db))
  {
    Reach(cron, db, Claims(m, owner, now, seconds, ulid));
  }

  lemma ReachCancel(cron: SR.CronNext, db: Db, m: MemorialId, at: Time)
    requires Reachable(cron, db)
    ensures Reachable(cron, FC.CancelRoot(db, m, at).After(db))
  {
    Reach(cron, db, Cancels(m, at));
  }

  lemma ReachDraft(cron: SR.CronNext, db: Db, m: MemorialId, candidate: RunState)
    requires Reachable(cron, db)
    ensures Reachable(cron, DraftState(db, m, candidate).After(db))
  {
    Reach(cron, db, Drafts(m, candidate));
  }

  lemma ReachSave(cron: SR.CronNext, db: Db, auth: Authority, now: Time, candidate: RunState)
    requires Reachable(cron, db)
    ensures Reachable(cron, SaveState(db, auth, now, candidate).After(db))
  {
    Reach(cron, db, Saves(auth, now, candidate));
  }

  lemma ReachSuspend(cron: SR.CronNext, db: Db, auth: Authority, now: Time)
    requires Reachable(cron, db)
    ensures Reachable(cron, Suspend(db, auth, now).After(db))
  {
    Reach(cron, db, Suspends(auth, now));
  }

  lemma ReachDelivery(cron: SR.CronNext, db: Db, ev: CR.ResolvedEvent, now: Time)
    requires Reachable(cron, db)
    ensures Reachable(cron, CR.Handle(db, ev, now).After(db))
  {
    Reach(cron, db, Resolves(ev, now));
  }

  lemma ReachManual(cron: SR.CronNext, db: Db, c: SR.ManualCommand)
    requires Reachable(cron, db)
    ensures Reachable(cron, SR.PrepareManual(db, c).After(db))
  {
    Reach(cron, db, FiresManually(c));
  }

  lemma ReachProjection(cron: SR.CronNext, db: Db, d: DecisionId)
    requires Reachable(cron, db)
    ensures Reachable(cron, ProjectDecision(db, d).After(db))
  {
    Reach(cron, db, Projects(d));
  }

  lemma ReachDagRetry(cron: SR.CronNext, db: Db, c: DagRetryCommand, now: Time)
    requires Reachable(cron, db)
    ensures Reachable(cron, DG.RetryDag(db, c, now).After(db))
  {
    Reach(cron, db, RetriesDag(c, now));
  }

  lemma ReachForeign(cron: SR.CronNext, db: Db, next: Db)
    requires Reachable(cron, db) && ForeignStep(db, next)
    ensures Reachable(cron, next)
  {
    Reach(cron, db, Foreign(next));
  }

  // ---------------------------------------------------------------- an edict, a managed root and its claim

  const EDICT: Edict := Edict(true, false, 7, Schedule(Interval(Some(60)), Skip), 0)
  const SUBMIT: ES.Submit := ES.Submit(1, 1, 1, 1, EDICT)
  const DRAW: ES.Draw := ES.Draw(1, 1, 0)
  const START: StartCommand := StartCommand(1, 2, 3, OtherIngress(4), 5, None)
  const ROOT: MemorialId := ManagedRoot(1, 2)
  const ATTEMPT: AttemptId := ManagedAttempt(1, 2)
  const FOUND: Option<MemorialId> := Some(SubmittedRoot(1))
  const AUTH: Authority := Authority(ATTEMPT, ROOT, 1, 1)

  const SUBMITTED: Db := ES.Inserted(EMPTY, SUBMIT, DRAW)

  const STARTED: Db :=
    Post(Birth(SUBMITTED, ROOT, MI.StartRow(START, FOUND, 5), ATTEMPT, Initial(ROOT, 5, 1)),
         ManagedEvent(1, 2), MI.StartEvent(START))

  const CLAIMED: Db := Update(STARTED, ATTEMPT, TakenBy(Initial(ROOT, 5, 1), 1, 10, 60))

  lemma SubmitIs()
    ensures ES.SubmitOnce(EMPTY, SUBMIT, DRAW).After(EMPTY) == SUBMITTED
  {
  }

  lemma NewestIs()
    ensures MI.IsNewestRoot(SUBMITTED, 1, FOUND)
  {
  }

  lemma StartIs()
    ensures MI.Start(SUBMITTED, START, FOUND, 5) == Committed(STARTED, MI.RunResult(ROOT, ATTEMPT, false))
  {
    assert SUBMITTED.attempts == map[];
    assert !HasFirst(SetMemorial(SUBMITTED, ROOT, MI.StartRow(START, FOUND, 5)).attempts, ROOT);
  }

  lemma OnlyAttempt(db: Db)
    requires db.attempts.Keys == {ATTEMPT} && db.attempts[ATTEMPT].memorial == ROOT
    ensures Live(db.attempts[ATTEMPT].status) ==> LiveOf(db, ROOT) == Some(ATTEMPT)
    ensures db.attempts[ATTEMPT].no == 1 ==> FirstOf(db, ROOT) == Some(ATTEMPT)
  {
    if Live(db.attempts[ATTEMPT].status) {
      assert IsLive(db.attempts, ATTEMPT, ROOT);
    }
    if db.attempts[ATTEMPT].no == 1 {
      assert IsFirst(db.attempts, ATTEMPT, ROOT);
    }
  }

  lemma ClaimIs()
    ensures Claim(STARTED, ROOT, 1, 10, 60, 9).After(STARTED) == CLAIMED
  {
    assert STARTED.attempts == map[ATTEMPT := Initial(ROOT, 5, 1)];
    OnlyAttempt(STARTED);
  }

  lemma SubmittedIsReachable(cron: SR.CronNext)
    ensures Reachable(cron, SUBMITTED)
  {
    ReachEmpty(cron);
    ReachSubmit(cron, EMPTY, SUBMIT, DRAW);
    SubmitIs();
  }

  lemma StartedIsReachable(cron: SR.CronNext)
    ensures Reachable(cron, STARTED)
  {
    SubmittedIsReachable(cron);
    NewestIs();
    ReachStart(cron, SUBMITTED, START, FOUND, 5);
    StartIs();
  }

  lemma ClaimedIsReachable(cron: SR.CronNext)
    ensures Reachable(cron, CLAIMED)
  {
    StartedIsReachable(cron);
    ReachClaim(cron, STARTED, ROOT, 1, 10, 60, 9);
    ClaimIs();
  }

  // ---------------------------------------------------------------- a plan saved after the cancellation

  const PLAN: RunState := RunState(1, PhasePlanning, AgentContinuation, None, None, false, 0, None, 1, 30)

  const CANCELLED: Db :=
    Settle(CLAIMED, ROOT, FC.Finished(CLAIMED.memorials[ROOT], Cancelled, None), FC.RetireAll(CLAIMED.attempts, ROOT),
           CLAIMED.runStates, RootCancelledEvent(ROOT), Event(ExecutionCancelled, 1, ROOT, Plain))

  const LATE: Db := SetState(CANCELLED, ROOT, Decoded(PLAN))

  lemma CancelIs()
    ensures FC.CancelRoot(CLAIMED, ROOT, 20).After(CLAIMED) == CANCELLED
  {
  }

  lemma LateIs()
    ensures DraftState(CANCELLED, ROOT, PLAN).After(CANCELLED) == LATE
  {
  }

  lemma LateIsMismatch()
    ensures Finished(LATE, ROOT) && ROOT in LATE.runStates && !RN.MatchesAt(LATE, ROOT)
  {
  }

  /** The root is claimed and cancelled while its planner waits for a model; the planner then stores its plan, and
      the cancelled root has a RunState in planning. */
  lemma LatePlanUnderCancelledRoot(cron: SR.CronNext)
    ensures Reachable(cron, LATE) && Finished(LATE, ROOT) && ROOT in LATE.runStates && !RN.MatchesAt(LATE, ROOT)
  {
    ClaimedIsReachable(cron);
    ReachCancel(cron, CLAIMED, ROOT, 20);
    CancelIs();
    ReachDraft(cron, CANCELLED, ROOT, PLAN);
    LateIs();
    LateIsMismatch();
  }

  // ---------------------------------------------------------------- a damaged RunState under a dead letter

  const PLANNED: Db := SetState(CLAIMED, ROOT, Decoded(PLAN))
  const DAMAGED: Db := SetState(CLAIMED, ROOT, Undecodable)
  const DEAD: Db := Update(DAMAGED, ATTEMPT, Retire(DAMAGED.attempts[ATTEMPT], DeadLetter))

  lemma PlannedIs()
    ensures DraftState(CLAIMED, ROOT, PLAN).After(CLAIMED) == PLANNED
  {
  }

  lemma DamageIsForeign()
    ensures ForeignStep(PLANNED, DAMAGED)
  {
  }

  lemma DeadIs()
    ensures Claim(DAMAGED, ROOT, 2, 100, 60, 9).After(DAMAGED) == DEAD
  {
    OnlyAttempt(DAMAGED);
  }

  lemma DeadIsBlocked(at: Time)
    ensures DR.IsScan(DEAD, 100, [ATTEMPT]) && DR.Reconcile(DEAD, [ATTEMPT], at).Raised?
    ensures DR.Backlogged(DEAD, ATTEMPT)
  {
    var rows := [ATTEMPT];
    assert rows[..0] == [] && DR.Reconcile(DEAD, rows[..0], at) == Committed(DEAD, 0);
    assert DR.ReconcileRow(DEAD, ATTEMPT, at).Raised?;
  }

  /** A RunState row is damaged, the only attempt's lease expires with the budget spent, and the reconciliation pass
      that should fail the root raises at any time. */
  lemma DamagedRowBlocksReconciliation(cron: SR.CronNext, at: Time)
    ensures Reachable(cron, DEAD) && DR.Backlogged(DEAD, ATTEMPT)
    ensures DR.IsScan(DEAD, 100, [ATTEMPT]) && DR.Reconcile(DEAD, [ATTEMPT], at).Raised?
  {
    ClaimedIsReachable(cron);
    ReachDraft(cron, CLAIMED, ROOT, PLAN);
    PlannedIs();
    DamageIsForeign();
    ReachForeign(cron, PLANNED, DAMAGED);
    ReachClaim(cron, DAMAGED, ROOT, 2, 100, 60, 9);
    DeadIs();
    DeadIsBlocked(at);
  }

  // ---------------------------------------------------------------- a suspension on an outer-loop decision

  const QUESTION: Decision := Decision(OuterLoopDecision, 1, ROOT, OtherRequestKey(1), None, Pending, 15)
  const ANSWER: Decision := QUESTION.(status := Resolved(Continue, 25), updatedAt := 25)
  const WAITING: RunState := RunState(1, PhaseWaiting, OuterLoopContinuation, Some(1), None, false, 0, None, 1, 15)
  const EVENT: CR.ResolvedEvent := CR.ResolvedEvent(1, 1, ROOT, OuterLoopDecision, Continue)

  const ASKED: Db := CLAIMED.(decisions := map[1 := QUESTION])
  const BOUND: Db := SetState(ASKED, ROOT, Decoded(WAITING))
  const PARKED: Db := Update(BOUND, ATTEMPT, Retire(BOUND.attempts[ATTEMPT], Suspended))

  lemma DecidingIsForeign(db: Db, ds: map<DecisionId, Decision>)
    requires DecisionsAdvance(db.decisions, ds)
    ensures ForeignStep(db, db.(decisions := ds))
  {
  }

  lemma AskIsForeign()
    ensures ForeignStep(CLAIMED, ASKED)
  {
    DecidingIsForeign(CLAIMED, map[1 := QUESTION]);
  }

  lemma BoundIs()
    ensures SaveState(ASKED, AUTH, 20, WAITING).After(ASKED) == BOUND
  {
  }

  lemma ParkedIs()
    ensures Suspend(BOUND, AUTH, 20).After(BOUND) == PARKED
  {
  }

  lemma ParkedIsReachable(cron: SR.CronNext)
    ensures Reachable(cron, PARKED)
  {
    ClaimedIsReachable(cron);
    AskIsForeign();
    ReachForeign(cron, CLAIMED, ASKED);
    ReachSave(cron, ASKED, AUTH, 20, WAITING);
    BoundIs();
    ReachSuspend(cron, BOUND, AUTH, 20);
    ParkedIs();
  }

  lemma ParkedIsScanned()
    ensures PR.IsSuspendedScan(PARKED, 100, [ATTEMPT]) && PR.WaitsForOther(PARKED, ATTEMPT, 1)
    ensures PARKED.decisions[1].status.Pending? && ActiveRoot(PARKED, ROOT)
  {
  }

  lemma ReachableIsWell(cron: SR.CronNext, db: Db, limit: int, rows: seq<AttemptId>, now: Time)
    requires Reachable(cron, db) && PR.IsSuspendedScan(db, limit, rows)
    ensures Inv(db) && PR.Review(db, rows, now).Committed?
  {
    var dbs, steps :| Run(cron, dbs, steps) && dbs[|steps|] == db;
    RunInv(cron, dbs, steps, |steps|);
    RV.PassNeverRaises(cron, dbs, steps, |steps|, limit, rows, now);
  }

  /** An attempt waits for an outer-loop decision that nobody has answered yet; the next review pass commits and
      fails it together with its root. */
  lemma ReviewFailsOuterLoopSuspension(cron: SR.CronNext, now: Time)
    ensures Reachable(cron, PARKED) && ActiveRoot(PARKED, ROOT) && PR.IsSuspendedScan(PARKED, 100, [ATTEMPT])
    ensures PARKED.decisions[1].kind.OuterLoopDecision? && PARKED.decisions[1].status.Pending?
    ensures var o := PR.Review(PARKED, [ATTEMPT], now);
            && o.Committed? && ATTEMPT in o.db.attempts && o.db.attempts[ATTEMPT].status.AttemptFailed?
            && !ActiveRoot(o.db, ROOT)
  {
    ParkedIsReachable(cron);
    ParkedIsScanned();
    ReachableIsWell(cron, PARKED, 100, [ATTEMPT], now);
    PR.ScanReviewable(PARKED, 100, [ATTEMPT]);
    PR.OtherSuspensionsFail(PARKED, [ATTEMPT], now, 0, 1);
  }

  // ---------------------------------------------------------------- a resumed root refuses the replay of its start

  const ANSWERED: Db := PARKED.(decisions := map[1 := ANSWER])
  const GOING: RunState := CR.ResumedState(ANSWERED, ANSWER, 1, WAITING, 40)
  const RESUMED: Db :=
    Post(Update(SetState(ANSWERED, ROOT, Decoded(Saved(GOING))), ATTEMPT, CR.Resumed(PARKED.attempts[ATTEMPT], 40)),
         ResumeEvent(1), Event(ResumeRequested, 1, ROOT, Plain))

  lemma AnswerIsForeign()
    ensures ForeignStep(PARKED, ANSWERED)
  {
    DecidingIsForeign(PARKED, map[1 := ANSWER]);
  }

  lemma AnsweredCanResume()
    ensures CR.CanResumeState(ANSWERED, ANSWER, 1, WAITING, 40)
    ensures CR.ResumeState(ANSWERED, ANSWER, 1, WAITING, 40) == SetState(ANSWERED, ROOT, Decoded(Saved(GOING)))
  {
  }

  lemma ResumeIs()
    ensures CR.Supported(ANSWERED, 1) && ATTEMPT in ANSWERED.attempts
    ensures CR.Resume(ANSWERED, 1, WAITING, ATTEMPT, 40) == Committed(RESUMED, true)
  {
    AnsweredCanResume();
  }

  lemma ActIs()
    ensures CR.Supported(ANSWERED, 1) && ActiveRoot(ANSWERED, ROOT)
    ensures CR.Act(ANSWERED, 1, 40) == Committed(RESUMED, true)
  {
    OnlyAttempt(ANSWERED);
    ResumeIs();
  }

  lemma HandleIs()
    ensures CR.Handle(ANSWERED, EVENT, 40) == Committed(RESUMED, true)
  {
    ActIs();
  }

  lemma ReplayIsRefused(found: Option<MemorialId>, now: Time)
    ensures ROOT in RESUMED.memorials && MI.SameEnvelope(RESUMED, START) && MI.Start(RESUMED, START, found, now).Raised?
  {
    assert RESUMED.attempts.Keys == {ATTEMPT};
    OnlyAttempt(RESUMED);
  }

  /** A managed root is claimed, suspended on a decision and resumed.  Its root and event are still those of the
      command that started it, and yet replaying that very command raises, at any time. */
  lemma ResumeBreaksReplay(cron: SR.CronNext, found: Option<MemorialId>, now: Time)
    ensures MI.Start(SUBMITTED, START, FOUND, 5).Committed? && Reachable(cron, RESUMED)
    ensures ROOT in RESUMED.memorials && MI.SameEnvelope(RESUMED, START) && MI.Start(RESUMED, START, found, now).Raised?
  {
    StartIs();
    ParkedIsReachable(cron);
    AnswerIsForeign();
    ReachForeign(cron, PARKED, ANSWERED);
    ReachDelivery(cron, ANSWERED, EVENT, 40);
    HandleIs();
    ReplayIsRefused(found, now);
  }

  // ---------------------------------------------------------------- a manual fire beside an active root

  const JOB: Job := Job(1, IntervalJob(Some(60)), SubmittedEvent(1), Some(60), JobActive)
  const FIRE: SR.ManualCommand := SR.ManualCommand(1, 3, 5)
  const SCHEDULED: Db := SUBMITTED.(jobs := map[1 := JOB])
  const FIRED: Db :=
    SR.File(Birth(SCHEDULED, ManualRoot(1, 3), SR.ScheduledRoot(SCHEDULED, 1, 5), ManualAttempt(1, 3),
                  Initial(ManualRoot(1, 3), 5, 1)),
            ManualFire(1, 3), SR.ManualRow(SCHEDULED, FIRE), 1, JOB)

  lemma JobIsForeign()
    ensures ForeignStep(SUBMITTED, SCHEDULED)
  {
  }

  lemma ManualIs()
    ensures SR.PrepareManual(SCHEDULED, FIRE).After(SCHEDULED) == FIRED
  {
    assert SCHEDULED.attempts == map[];
    assert !HasFirst(SetMemorial(SCHEDULED, ManualRoot(1, 3), SR.ScheduledRoot(SCHEDULED, 1, 5)).attempts, ManualRoot(1, 3));
  }

  lemma TwoActive()
    ensures FIRED.edicts[1].schedule.policy.Skip? && !SP.OneActive(FIRED.memorials, 1)
  {
    assert SP.ActiveOf(FIRED.memorials, SubmittedRoot(1), 1) && SP.ActiveOf(FIRED.memorials, ManualRoot(1, 3), 1);
  }

  /** An interval edict under the skip policy is submitted and fired by hand while its first root is active. */
  lemma ManualFireBreaksSkip(cron: SR.CronNext)
    ensures Reachable(cron, FIRED) && FIRED.edicts[1].schedule.policy.Skip? && !SP.OneActive(FIRED.memorials, 1)
  {
    SubmittedIsReachable(cron);
    JobIsForeign();
    ReachForeign(cron, SUBMITTED, SCHEDULED);
    ReachManual(cron, SCHEDULED, FIRE);
    ManualIs();
    TwoActive();
  }

  // ---------------------------------------------------------------- a start and a DAG retry beside an active root

  lemma StartAddsSecond()
    ensures STARTED.edicts[1].schedule.policy.Skip? && !SP.OneActive(STARTED.memorials, 1)
  {
    assert SP.ActiveOf(STARTED.memorials, SubmittedRoot(1), 1) && SP.ActiveOf(STARTED.memorials, ROOT, 1);
  }

  /** An interval edict under the skip policy is submitted and started once more while its first root is active. */
  lemma StartBreaksSkip(cron: SR.CronNext)
    ensures Reachable(cron, STARTED) && STARTED.edicts[1].schedule.policy.Skip? && !SP.OneActive(STARTED.memorials, 1)
  {
    StartedIsReachable(cron);
    StartAddsSecond();
  }

  const STOPPED: Db :=
    Settle(STARTED, SubmittedRoot(1), FC.Finished(STARTED.memorials[SubmittedRoot(1)], Cancelled, None), STARTED.attempts,
           STARTED.runStates, RootCancelledEvent(SubmittedRoot(1)), Event(ExecutionCancelled, 1, SubmittedRoot(1), Plain))
  const DAG: Dag := Dag(1, DagFailed, SubmittedRoot(1), [DagNode(1, NodeFailed, {})])
  const BROKEN: Db := STOPPED.(dags := map[1 := DAG])
  const RETRY: DagRetryCommand := DagRetryCommand(1, 4, None)

  lemma StopIs()
    ensures FC.CancelRoot(STARTED, SubmittedRoot(1), 20).After(STARTED) == STOPPED
  {
    assert FC.RetireAll(STARTED.attempts, SubmittedRoot(1)) == STARTED.attempts;
  }

  lemma BreakIsForeign()
    ensures ForeignStep(STOPPED, BROKEN)
  {
  }

  lemma BrokenIsReachable(cron: SR.CronNext)
    ensures Reachable(cron, BROKEN)
  {
    StartedIsReachable(cron);
    ReachCancel(cron, STARTED, SubmittedRoot(1), 20);
    StopIs();
    BreakIsForeign();
    ReachForeign(cron, STOPPED, BROKEN);
  }

  lemma RetryWorks(now: Time)
    ensures DG.RetryDag(BROKEN, RETRY, now).Committed? && DG.RetryRoot(RETRY) !in BROKEN.memorials
  {
    assert 1 in DG.FailedIds(DAG.rows) by {
      assert DAG.rows[0].status.NodeFailed? && DAG.rows[0].id == 1;
    }
    assert DG.TargetsKnown(BROKEN, RETRY);
  }

  /** A DAG of the submitted root has failed and that root is cancelled, while a started root of the edict is active:
      the retry adds a second one. */
  lemma DagRetryBreaksSkip(cron: SR.CronNext, now: Time)
    ensures var next := DG.RetryDag(BROKEN, RETRY, now).After(BROKEN);
            Reachable(cron, next) && BROKEN.edicts[1].schedule.policy.Skip? && !SP.OneActive(next.memorials, 1)
  {
    BrokenIsReachable(cron);
    ReachDagRetry(cron, BROKEN, RETRY, now);
    RetryWorks(now);
    ReachableIsInv(cron, BROKEN);
    SP.DagRetryIgnoresPolicy(BROKEN, RETRY, now);
    assert SP.ActiveOf(BROKEN.memorials, ROOT, 1);
  }

  lemma ReachableIsInv(cron: SR.CronNext, db: Db)
    requires Reachable(cron, db)
    ensures Inv(db)
  {
    var dbs, steps :| Run(cron, dbs, steps) && dbs[|steps|] == db;
    RunInv(cron, dbs, steps, |steps|);
  }

  // ---------------------------------------------------------------- a tool decision projected before it is delivered

  const INTENT: Intent := Intent(ROOT, 0)
  const PROPOSAL: Decision := Decision(ToolDecision, 1, ROOT, SideEffectKey(1), None, Pending, 15)
  const RUNNING: RunState := RunState(1, PhaseExecuting, AgentContinuation, None, None, false, 0, None, 1, 12)
  const HALTED: RunState := RUNNING.(phase := PhaseWaiting, pending := Some(1), pendingTool := true, updatedAt := 15)

  const WORKING: Db := SetState(CLAIMED, ROOT, Decoded(RUNNING))
  const PROPOSED: Db := WORKING.(decisions := map[1 := PROPOSAL], intents := map[1 := INTENT])
  const HELD: Db := SetState(PROPOSED, ROOT, Decoded(Saved(HALTED)))
  const SUSPENDED: Db := Update(HELD, ATTEMPT, Retire(HELD.attempts[ATTEMPT], Suspended))

  function Decided(act: Action): Decision {
    PROPOSAL.(status := Resolved(act, 25), updatedAt := 25)
  }

  function DecidedDb(act: Action): Db {
    SUSPENDED.(decisions := map[1 := Decided(act)])
  }

  /** The RunState as the projection of the decision leaves it. */
  function Going(act: Action): RunState {
    Saved(Released(Saved(HALTED), Decided(act), 1))
  }

  function ProjectedDb(act: Action): Db {
    SetState(DecidedDb(act), ROOT, Decoded(Going(act)))
  }

  function ToolEvent(act: Action): CR.ResolvedEvent {
    CR.ResolvedEvent(1, 1, ROOT, ToolDecision, act)
  }

  lemma WorkingIs()
    ensures DraftState(CLAIMED, ROOT, RUNNING).After(CLAIMED) == WORKING
  {
  }

  lemma ProposeIsForeign()
    ensures ForeignStep(WORKING, PROPOSED)
  {
  }

  lemma HeldIs()
    ensures SaveState(PROPOSED, AUTH, 20, HALTED).After(PROPOSED) == HELD
  {
  }

  lemma SuspendedIs()
    ensures Suspend(HELD, AUTH, 20).After(HELD) == SUSPENDED
  {
  }

  lemma SuspendedIsReachable(cron: SR.CronNext)
    ensures Reachable(cron, SUSPENDED)
  {
    ClaimedIsReachable(cron);
    ReachDraft(cron, CLAIMED, ROOT, RUNNING);
    WorkingIs();
    ProposeIsForeign();
    ReachForeign(cron, WORKING, PROPOSED);
    ReachSave(cron, PROPOSED, AUTH, 20, HALTED);
    HeldIs();
    ReachSuspend(cron, HELD, AUTH, 20);
    SuspendedIs();
  }

  lemma DecideIsForeign(act: Action)
    ensures ForeignStep(SUSPENDED, DecidedDb(act))
  {
    DecidingIsForeign(SUSPENDED, map[1 := Decided(act)]);
  }

  lemma ProjectionIs(act: Action)
    ensures ProjectDecision(DecidedDb(act), 1).After(DecidedDb(act)) == ProjectedDb(act)
  {
    assert DecidedDb(act).runStates[ROOT] == Decoded(Saved(HALTED));
  }

  lemma ProjectedIsReachable(cron: SR.CronNext, act: Action)
    ensures Reachable(cron, ProjectedDb(act))
  {
    SuspendedIsReachable(cron);
    DecideIsForeign(act);
    ReachForeign(cron, SUSPENDED, DecidedDb(act));
    ReachProjection(cron, DecidedDb(act), 1);
    ProjectionIs(act);
  }

  lemma ProjectedIsBound(act: Action)
    ensures CR.Supported(ProjectedDb(act), 1) && CR.BoundTo(ProjectedDb(act), 1, Going(act))
    ensures ActiveRoot(ProjectedDb(act), ROOT) && LiveOf(ProjectedDb(act), ROOT) == Some(ATTEMPT)
  {
    OnlyAttempt(ProjectedDb(act));
  }

  lemma HandleIsAct(act: Action, now: Time)
    ensures CR.Supported(ProjectedDb(act), 1) && ActiveRoot(ProjectedDb(act), ROOT)
    ensures CR.Handle(ProjectedDb(act), ToolEvent(act), now) == CR.Act(ProjectedDb(act), 1, now)
  {
    ProjectedIsBound(act);
  }

  lemma ProjectedActs(act: Action, now: Time)
    ensures CR.Acts(ProjectedDb(act), ToolEvent(act), now) && CR.Supported(ProjectedDb(act), 1)
  {
    HandleIsAct(act, now);
    ProjectedIsBound(act);
    if act.Reject? {
      RejectCancels(now);
    } else {
      ApproveResumes(act, now);
    }
  }

  lemma RejectCancels(now: Time)
    ensures CR.Supported(ProjectedDb(Reject), 1) && ActiveRoot(ProjectedDb(Reject), ROOT)
    ensures CR.Cancel(ProjectedDb(Reject), 1, Going(Reject), ATTEMPT, now).Committed?
    ensures CR.Cancel(ProjectedDb(Reject), 1, Going(Reject), ATTEMPT, now).value
  {
  }

  lemma ApproveResumes(act: Action, now: Time)
    ensures CR.Supported(ProjectedDb(act), 1)
    ensures CR.Resume(ProjectedDb(act), 1, Going(act), ATTEMPT, now).Committed?
    ensures CR.Resume(ProjectedDb(act), 1, Going(act), ATTEMPT, now).value
  {
  }

  /** A tool decision is approved and projected onto the RunState before it is delivered to the continuation service.
      The delivery acts, at any time, and leaves the RunState as it is: the cursor has not passed the intent, and the
      proposal is still there. */
  lemma ProjectedResumeKeepsProposal(cron: SR.CronNext, now: Time)
    ensures Reachable(cron, ProjectedDb(Approve)) && CR.Resumes(ProjectedDb(Approve), ToolEvent(Approve), now)
    ensures CR.IntentBound(ProjectedDb(Approve), Decided(Approve))
    ensures var next := CR.Handle(ProjectedDb(Approve), ToolEvent(Approve), now).db;
            && ROOT in next.runStates && next.runStates[ROOT] == Decoded(Going(Approve))
            && Going(Approve).cursor <= INTENT.sequenceNo && Going(Approve).pendingTool
  {
    ProjectedIsReachable(cron, Approve);
    ProjectedActs(Approve, now);
    CR.ToolResumePassesIntent(ProjectedDb(Approve), ToolEvent(Approve), now);
  }

  /** A tool decision is rejected and projected before it is delivered: the projection sets the run going, the delivery
      fails it. */
  lemma RejectionMovesTwice(cron: SR.CronNext, now: Time)
    ensures Reachable(cron, ProjectedDb(Reject)) && Going(Reject).phase.PhaseExecuting?
    ensures DecidedDb(Reject).runStates[ROOT] != ProjectedDb(Reject).runStates[ROOT]
    ensures CR.Acts(ProjectedDb(Reject), ToolEvent(Reject), now)
    ensures CR.Handle(ProjectedDb(Reject), ToolEvent(Reject), now).db.runStates != ProjectedDb(Reject).runStates
  {
    ProjectedIsReachable(cron, Reject);
    ProjectedActs(Reject, now);
    DX.DeliveryWrites(ProjectedDb(Reject), ToolEvent(Reject), now);
  }

  // ---------------------------------------------------------------- a cancellation after a rejected plan review

  const REVIEW: Decision :=
    Decision(PlanReviewDecision, 1, ROOT, OtherRequestKey(1), Some(PlanPayload(8, 9, HashOf(8))), Pending, 15)
  const REFUSAL: Decision := REVIEW.(status := Resolved(Reject, 25), updatedAt := 25)
  const DRAFTED: RunState :=
    RunState(1, PhaseWaiting, AgentContinuation, Some(1), None, false, 0, Some(PlanBinding(9, HashOf(8))), 1, 15)

  const HALTING: Db := SetMemorial(CLAIMED, ROOT, CLAIMED.memorials[ROOT].(status := NeedsReview))
  const PENDING: Db := HALTING.(decisions := map[1 := REVIEW])
  const SHOWN: Db := SetState(PENDING, ROOT, Decoded(DRAFTED))
  const AWAITING: Db := Update(SHOWN, ATTEMPT, Retire(SHOWN.attempts[ATTEMPT], Suspended))
  const REFUSED: Db := AWAITING.(decisions := map[1 := REFUSAL])

  lemma ProgressIsForeign(db: Db, m: MemorialId, status: TaskStatus)
    requires ActiveRoot(db, m) && !Terminal(status)
    ensures ForeignStep(db, SetMemorial(db, m, db.memorials[m].(status := status)))
  {
  }

  lemma ShownIs()
    ensures SaveState(PENDING, AUTH, 20, DRAFTED).After(PENDING) == SHOWN
  {
  }

  lemma AwaitingIs()
    ensures Suspend(SHOWN, AUTH, 20).After(SHOWN) == AWAITING
  {
  }

  lemma RefusedIsReachable(cron: SR.CronNext)
    ensures Reachable(cron, REFUSED)
  {
    ClaimedIsReachable(cron);
    ProgressIsForeign(CLAIMED, ROOT, NeedsReview);
    ReachForeign(cron, CLAIMED, HALTING);
    DecidingIsForeign(HALTING, map[1 := REVIEW]);
    ReachForeign(cron, HALTING, PENDING);
    ReachSave(cron, PENDING, AUTH, 20, DRAFTED);
    ShownIs();
    ReachSuspend(cron, SHOWN, AUTH, 20);
    AwaitingIs();
    DecidingIsForeign(AWAITING, map[1 := REFUSAL]);
    ReachForeign(cron, AWAITING, REFUSED);
  }

  lemma RefusedIsRejected()
    ensures IsLive(REFUSED.attempts, ATTEMPT, ROOT) && ROOT in REFUSED.memorials
    ensures PR.VerdictOn(REFUSED, ATTEMPT).Rejected? && REFUSED.memorials[ROOT].status.NeedsReview?
  {
  }

  /** A plan review is rejected, the approval manager fails the root, and a cancellation comes before the pass that
      would announce it: the root is finished, nothing of it is live, and it has no terminal event. */
  lemma RejectedReviewEndsSilently(cron: SR.CronNext, at: Time)
    ensures Reachable(cron, REFUSED) && PR.VerdictOn(REFUSED, ATTEMPT).Rejected?
    ensures var o := FC.CancelRoot(AP.FailRoot(REFUSED, ROOT), ROOT, at);
            && o.Committed? && Finished(o.db, ROOT) && !HasTerminalEvent(o.db.outbox, ROOT)
            && forall b :: !IsLive(o.db.attempts, b, ROOT)
  {
    RefusedIsReachable(cron);
    RefusedIsRejected();
    ReachableIsInv(cron, REFUSED);
    AP.CancelInWindowIsSilent(REFUSED, ATTEMPT, ROOT, at);
  }
}
