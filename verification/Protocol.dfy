/**
 The managed-execution protocol as one state machine: every service call is one atomic step, in any order, by any
 number of processes, beside foreign writers of the same tables.  The theorems here are about all its runs.
 */
module Protocol {
  import opened Durable
  import opened Invariant
  import opened AttemptLedger
  import opened RunStateWriters
  import FC = FencedCompletion
  import DR = DeadLetterReconciliation
  import CR = ContinuationRecovery
  import PR = PlanReview
  import MI = ManagedIngress
  import DG = DagRetry
  import SR = ScheduledRuns
  import ES = EdictSubmission

  datatype Step =
    | Claims(root: MemorialId, owner: OwnerId, now: Time, seconds: int, ulid: Ulid)
    | Beats(auth: Authority, now: Time)
    | Suspends(auth: Authority, now: Time)
    | Saves(auth: Authority, now: Time, candidate: RunState)
    | Drafts(root: MemorialId, candidate: RunState)
    | Projects(decision: DecisionId)
    | Completes(completion: FC.Completion)
    | Retries(auth: Authority, at: Time, retryAt: Time, ulid: Ulid)
    | Cancels(root: MemorialId, at: Time)
    | Reconciles(limit: int, rows: seq<AttemptId>, at: Time)
    | Resolves(event: CR.ResolvedEvent, now: Time)
    | Reviews(limit: int, rows: seq<AttemptId>, now: Time)
    | Starts(start: StartCommand, found: Option<MemorialId>, now: Time)
    | AdoptsRoot(root: MemorialId, key: Key, availableAt: Time)
    | AdoptsLegacy(legacy: LegacyEvent)
    | RetriesDag(retry: DagRetryCommand, now: Time)
    | Fires(fire: SR.FireCommand)
    | FiresManually(manual: SR.ManualCommand)
    | Submits(submit: ES.Submit, draw: ES.Draw)
    | Foreign(after: Db)

  /** A row that no longer decodes, or names another edict. */
  predicate Corrupted(x: RunRow, y: RunRow) {
    y == x || y.Undecodable? || (x.Decoded? && y == Decoded(x.state.(edict := y.state.edict)))
  }

  ghost predicate MayCorrupt(rs: RunStates, ss: RunStates) {
    ss.Keys == rs.Keys && forall m :: m in rs ==> Corrupted(rs[m], ss[m])
  }

  ghost predicate DagsProgress(ms: Memorials, ds: Dags, es: Dags) {
    && ds.Keys <= es.Keys
    && (forall d :: d in ds ==> es[d].root == ds[d].root)
    && (forall d :: d in es && d !in ds ==> es[d].root in ms)
  }

  /** What the rest of the program may do in one step: move active roots between non-terminal statuses, run DAG
      workers, request and resolve decisions, record intents, run DAGs, create and edit jobs and edicts, and damage
      RunState rows.  Writers that finish or reopen a root by themselves are not among these: the auditor, the plan
      review projection of the approval manager, and a planner that writes back a root it read before an await. */
  ghost predicate ForeignStep(db: Db, next: Db) {
    && next.attempts == db.attempts && next.outbox == db.outbox
    && next.fires == db.fires && next.submissions == db.submissions
    && MemorialsAdvance(db.memorials, next.memorials) && SameTerminals(db.memorials, next.memorials)
    && (forall m :: m in next.memorials && m !in db.memorials ==>
          m.WorkerMemorial? && !next.memorials[m].isRoot && next.memorials[m].edict in next.edicts)
    && MayCorrupt(db.runStates, next.runStates)
    && DecisionsAdvance(db.decisions, next.decisions) && Grows(db.intents, next.intents)
    && DagsProgress(db.memorials, db.dags, next.dags)
    && JobsAdvance(db.jobs, next.jobs) && db.edicts.Keys <= next.edicts.Keys
  }

  /** Inputs a step is given by its environment are what the environment promises: scans are answers to their
      queries, foreign writers keep to their tables. */
  ghost predicate Enabled(db: Db, s: Step) {
    match s
    case Reconciles(limit, rows, _) => 0 < limit && DR.IsScan(db, limit, rows)
    case Reviews(limit, rows, _) => PR.IsSuspendedScan(db, limit, rows)
    case Starts(start, found, _) => MI.IsNewestRoot(db, start.edict, found)
    case Foreign(after) => ForeignStep(db, after)
    case _ => true
  }

  ghost function Next(db: Db, cron: SR.CronNext, s: Step): Db
    requires Enabled(db, s)
  {
    match s
    case Claims(m, owner, now, seconds, ulid) => Claim(db, m, owner, now, seconds, ulid).After(db)
    case Beats(auth, now) => Heartbeat(db, auth, now).After(db)
    case Suspends(auth, now) => Suspend(db, auth, now).After(db)
    case Saves(auth, now, candidate) => SaveState(db, auth, now, candidate).After(db)
    case Drafts(m, candidate) => DraftState(db, m, candidate).After(db)
    case Projects(d) => ProjectDecision(db, d).After(db)
    case Completes(c) => FC.Complete(db, c).After(db)
    case Retries(auth, at, retryAt, ulid) => FC.RetryOrDeadLetter(db, auth, at, retryAt, ulid).After(db)
    case Cancels(m, at) => FC.CancelRoot(db, m, at).After(db)
    case Reconciles(_, rows, at) => DR.Reconcile(db, rows, at).After(db)
    case Resolves(ev, now) => CR.Handle(db, ev, now).After(db)
    case Reviews(_, rows, now) => PR.Review(db, rows, now).After(db)
    case Starts(c, found, now) => MI.Start(db, c, found, now).After(db)
    case AdoptsRoot(m, key, at) => MI.AdoptExisting(db, m, key, at).After(db)
    case AdoptsLegacy(ev) => MI.AdoptLegacy(db, ev).After(db)
    case RetriesDag(c, now) => DG.RetryDag(db, c, now).After(db)
    case Fires(c) => SR.Prepare(db, cron, c).After(db)
    case FiresManually(c) => SR.PrepareManual(db, c).After(db)
    case Submits(c, draw) => ES.SubmitOnce(db, c, draw).After(db)
    case Foreign(after) => after
  }

  // ---------------------------------------------------------------- every step keeps the invariant

  lemma CorruptWell(ms: Memorials, rs: RunStates, ss: RunStates)
    requires StatesWell(ms, rs) && MayCorrupt(rs, ss)
    ensures StatesWell(ms, ss) && MatchKept(ms, rs, ms, ss)
  {
    forall m | m in ss ensures m in ms && (ss[m].Decoded? ==> DecisionBound(ss[m].state)) {
      assert Corrupted(rs[m], ss[m]);
    }
  }

  lemma ProgressWell(ms: Memorials, ns: Memorials, ds: Dags, es: Dags)
    requires DagsWell(ms, ds) && DagsProgress(ms, ds, es) && MemorialsAdvance(ms, ns)
    requires forall m :: m in ns && m !in ms ==> !m.DagRetryRoot?
    ensures DagsWell(ns, es)
  {
    DagsFrame(ms, ns, ds);
    forall m | m in ns && m.DagRetryRoot? ensures RetryRootWell(ns, es, m) {
      assert RetryRootWell(ns, ds, m);
    }
  }

  lemma ForeignTables(db: Db, next: Db)
    requires Inv(db) && ForeignStep(db, next)
    ensures ManagedWell(next.memorials, next.attempts) && AttemptsWell(next.memorials, next.attempts)
    ensures EventsWell(next.memorials, next.outbox) && DagsWell(next.memorials, next.dags)
    ensures StatesWell(next.memorials, next.runStates)
    ensures MatchKept(db.memorials, db.runStates, next.memorials, next.runStates)
  {
    AdvancesSame(db);
    ManagedFrame(db.memorials, next.memorials, db.attempts, next.attempts);
    AttemptsFrame(db.memorials, next.memorials, db.attempts);
    EventsFrame(db.memorials, next.memorials, db.outbox);
    CorruptWell(db.memorials, db.runStates, next.runStates);
    StatesFrame(db.memorials, next.memorials, next.runStates);
    ProgressWell(db.memorials, next.memorials, db.dags, next.dags);
  }

  lemma ForeignKeeps(db: Db, next: Db)
    requires Inv(db) && ForeignStep(db, next)
    ensures Inv(next) && Advances(db, next)
  {
    ForeignTables(db, next);
  }

  /** The services proper: all steps but the writes of runners and of foreigners. */
  predicate IsService(s: Step) {
    !s.Saves? && !s.Drafts? && !s.Foreign?
  }

  /** Every service step but a suspension suspends nothing. */
  lemma ServiceKeeps(db: Db, cron: SR.CronNext, s: Step)
    requires Inv(db) && Enabled(db, s) && IsService(s) && !s.Suspends?
    ensures Keeps(db, Next(db, cron, s))
  {
    match s
    case Claims(m, owner, now, seconds, ulid) => ClaimKeeps(db, m, owner, now, seconds, ulid);
    case Beats(auth, now) => HeartbeatKeeps(db, auth, now);
    case Projects(d) => ProjectDecisionKeeps(db, d);
    case Completes(c) => FC.CompleteKeeps(db, c);
    case Retries(auth, at, retryAt, ulid) => FC.RetryOrDeadLetterKeeps(db, auth, at, retryAt, ulid);
    case Cancels(m, at) => FC.CancelRootKeeps(db, m, at);
    case Reconciles(_, rows, at) => DR.ReconcileKeeps(db, rows, at);
    case Resolves(ev, now) => CR.HandleKeeps(db, ev, now);
    case Reviews(limit, rows, now) => PR.ScanReviewable(db, limit, rows); PR.ReviewKeeps(db, rows, now);
    case Starts(c, found, now) => MI.StartKeeps(db, c, found, now);
    case AdoptsRoot(m, key, at) => MI.AdoptExistingKeeps(db, m, key, at);
    case AdoptsLegacy(ev) => MI.AdoptLegacyKeeps(db, ev);
    case RetriesDag(c, now) => DG.RetryDagKeeps(db, c, now);
    case Fires(c) => SR.PrepareKeeps(db, cron, c);
    case FiresManually(c) => SR.PrepareManualKeeps(db, c);
    case Submits(c, draw) => ES.SubmitKeeps(db, c, draw);
  }

  lemma ServiceConserves(db: Db, cron: SR.CronNext, s: Step)
    requires Inv(db) && Enabled(db, s) && IsService(s)
    ensures Conserves(db, Next(db, cron, s))
  {
    if s.Suspends? {
      SuspendConserves(db, s.auth, s.now);
    } else {
      ServiceKeeps(db, cron, s);
    }
  }

  lemma StepKeeps(db: Db, cron: SR.CronNext, s: Step)
    requires Inv(db) && Enabled(db, s)
    ensures Inv(Next(db, cron, s)) && Advances(db, Next(db, cron, s))
  {
    if s.Saves? {
      SaveKeeps(db, s.auth, s.now, s.candidate);
    } else if s.Drafts? {
      DraftKeeps(db, s.root, s.candidate);
    } else if s.Foreign? {
      ForeignKeeps(db, s.after);
    } else {
      ServiceConserves(db, cron, s);
    }
  }

  // ---------------------------------------------------------------- runs

  /** Step `i` leads from database `i` to the next one. */
  ghost predicate StepAt(cron: SR.CronNext, dbs: seq<Db>, steps: seq<Step>, i: nat)
    requires |dbs| == |steps| + 1 && i < |steps|
  {
    Enabled(dbs[i], steps[i]) && dbs[i + 1] == Next(dbs[i], cron, steps[i])
  }

  /** A run from the empty database. */
  ghost predicate Run(cron: SR.CronNext, dbs: seq<Db>, steps: seq<Step>) {
    && |dbs| == |steps| + 1 && dbs[0] == EMPTY
    && forall i :: 0 <= i < |steps| ==> StepAt(cron, dbs, steps, i)
  }

  lemma EmptyInv()
    ensures Inv(EMPTY)
  {
  }

  lemma {:induction false} RunInv(cron: SR.CronNext, dbs: seq<Db>, steps: seq<Step>, i: nat)
    requires Run(cron, dbs, steps) && i < |dbs|
    ensures Inv(dbs[i])
  {
    if i == 0 {
      EmptyInv();
    } else {
      RunInv(cron, dbs, steps, i - 1);
      InvStep(cron, dbs, steps, i - 1);
    }
  }

  lemma InvStep(cron: SR.CronNext, dbs: seq<Db>, steps: seq<Step>, i: nat)
    requires Run(cron, dbs, steps) && i < |steps| && Inv(dbs[i])
    ensures Inv(dbs[i + 1])
  {
    assert StepAt(cron, dbs, steps, i);
    StepKeeps(dbs[i], cron, steps[i]);
  }

  lemma RunStep(cron: SR.CronNext, dbs: seq<Db>, steps: seq<Step>, i: nat)
    requires Run(cron, dbs, steps) && i < |steps|
    ensures Inv(dbs[i]) && Inv(dbs[i + 1]) && Advances(dbs[i], dbs[i + 1])
  {
    RunInv(cron, dbs, steps, i);
    assert StepAt(cron, dbs, steps, i);
    StepKeeps(dbs[i], cron, steps[i]);
  }

  lemma AdvancesSame(db: Db)
    ensures Advances(db, db)
  {
  }

  lemma StepAdvances(cron: SR.CronNext, dbs: seq<Db>, steps: seq<Step>, i: nat)
    requires Run(cron, dbs, steps) && i < |steps|
    ensures Advances(dbs[i], dbs[i + 1])
  {
    RunStep(cron, dbs, steps, i);
  }

  /** Along a run every row only advances. */
  lemma {:induction false} RunAdvances(cron: SR.CronNext, dbs: seq<Db>, steps: seq<Step>, i: nat, j: nat)
    requires Run(cron, dbs, steps) && i <= j < |dbs|
    ensures Advances(dbs[i], dbs[j])
  {
    if i == j {
      AdvancesSame(dbs[i]);
    } else {
      RunAdvances(cron, dbs, steps, i, j - 1);
      StepAdvances(cron, dbs, steps, j - 1);
      AdvancesTransitive(dbs[i], dbs[j - 1], dbs[j]);
    }
  }

  predicate Finished(db: Db, m: MemorialId) {
    Root(db, m) && Terminal(db.memorials[m].status)
  }

  // ---------------------------------------------------------------- which steps touch roots and timers

  /** Steps that insert no Memorial and leave edicts, jobs, fires and submissions alone. */
  predicate IsQuiet(s: Step) {
    match s
    case Starts(_, _, _) => false
    case RetriesDag(_, _) => false
    case Fires(_) => false
    case FiresManually(_) => false
    case Submits(_, _) => false
    case Foreign(_) => false
    case _ => true
  }

  lemma QuietSteps(db: Db, cron: SR.CronNext, s: Step)
    requires Enabled(db, s) && IsQuiet(s)
    ensures Quiet(db, Next(db, cron, s))
  {
    match s
    case Claims(m, owner, now, seconds, ulid) => ClaimStill(db, m, owner, now, seconds, ulid);
    case Beats(auth, now) => HeartbeatStill(db, auth, now);
    case Suspends(auth, now) => SuspendStill(db, auth, now);
    case Saves(auth, now, candidate) => SaveQuiet(db, auth, now, candidate);
    case Drafts(m, candidate) => DraftQuiet(db, m, candidate);
    case Projects(d) => ProjectDecisionQuiet(db, d);
    case Completes(c) => FC.CompleteStill(db, c);
    case Retries(auth, at, retryAt, ulid) => FC.RetryStill(db, auth, at, retryAt, ulid);
    case Cancels(m, at) => FC.CancelRootStill(db, m, at);
    case Reconciles(_, rows, at) => DR.ReconcileStill(db, rows, at);
    case Resolves(ev, now) => CR.HandleQuiet(db, ev, now);
    case Reviews(_, rows, now) => PR.ReviewStill(db, rows, now);
    case AdoptsRoot(m, key, at) => MI.AdoptExistingStill(db, m, key, at);
    case AdoptsLegacy(ev) => MI.AdoptLegacyStill(db, ev);
  }

  ghost predicate TimersKept(db: Db, next: Db) {
    next.jobs == db.jobs && next.fires == db.fires && Grows(db.edicts, next.edicts)
  }

  /** Only the scheduler's own steps and foreign writers touch jobs and fires. */
  lemma OthersKeepTimers(db: Db, cron: SR.CronNext, s: Step)
    requires Inv(db) && Enabled(db, s) && !s.Fires? && !s.FiresManually? && !s.Foreign?
    ensures TimersKept(db, Next(db, cron, s))
  {
    if s.Starts? {
      StartKeepsTimers(db, s.start, s.found, s.now);
    } else if s.RetriesDag? {
      RetryKeepsTimers(db, s.retry, s.now);
    } else if s.Submits? {
      SubmitKeepsTimers(db, s.submit, s.draw);
    } else {
      QuietSteps(db, cron, s);
    }
  }

  lemma StartKeepsTimers(db: Db, c: StartCommand, found: Option<MemorialId>, now: Time)
    requires Inv(db)
    ensures TimersKept(db, MI.Start(db, c, found, now).After(db))
  {
    if MI.RootOf(c) in db.memorials {
      MI.ReplayChangesNothing(db, c, found, now);
    } else if MI.Start(db, c, found, now).Committed? {
      MI.StartRoots(db, c, found, now);
    }
  }

  lemma RetryKeepsTimers(db: Db, c: DagRetryCommand, now: Time)
    requires Inv(db)
    ensures TimersKept(db, DG.RetryDag(db, c, now).After(db))
  {
    if DG.RetryRoot(c) !in db.memorials && DG.RetryDag(db, c, now).Committed? {
      DG.RetryFreshMeans(db, c, now);
      DG.ClaimsRoots(db, DG.RetryFresh(db, c, now).db, c, now);
    }
  }

  lemma SubmitKeepsTimers(db: Db, c: ES.Submit, draw: ES.Draw)
    ensures TimersKept(db, ES.SubmitOnce(db, c, draw).After(db))
  {
    if ES.SubmitOnce(db, c, draw).After(db) != db {
      assert ES.SubmitOnce(db, c, draw).db == ES.Inserted(db, c, draw);
    }
  }
}
