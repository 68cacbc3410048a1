/** What holds of every run of the protocol, whatever the interleaving. */
module Safety {
  import opened Durable
  import opened Invariant
  import opened AttemptLedger
  import opened Protocol
  import FC = FencedCompletion
  import CR = ContinuationRecovery
  import DG = DagRetry
  import SR = ScheduledRuns
  import ES = EdictSubmission
  import MI = ManagedIngress
  import RX = SuspensionRace

  // ---------------------------------------------------------------- live attempts

  /** In every state of every run a root has at most one live attempt, and a terminal root has none. */
  lemma OneLiveAttempt(cron: SR.CronNext, dbs: seq<Db>, steps: seq<Step>, i: nat, m: MemorialId, a: AttemptId, b: AttemptId)
    requires Run(cron, dbs, steps) && i < |dbs| && IsLive(dbs[i].attempts, a, m)
    ensures IsLive(dbs[i].attempts, b, m) ==> a == b
    ensures ActiveRoot(dbs[i], m)
  {
    RunInv(cron, dbs, steps, i);
    InvOneLive(dbs[i]);
    assert AttemptWell(dbs[i].memorials, dbs[i].attempts[a]);
  }

  // ---------------------------------------------------------------- terminal roots

  /** A terminal root keeps its row for the rest of the run. */
  lemma TerminalIsAbsorbing(cron: SR.CronNext, dbs: seq<Db>, steps: seq<Step>, i: nat, j: nat, m: MemorialId)
    requires Run(cron, dbs, steps) && i <= j < |dbs| && Root(dbs[i], m) && Terminal(dbs[i].memorials[m].status)
    ensures m in dbs[j].memorials && dbs[j].memorials[m] == dbs[i].memorials[m]
  {
    RunAdvances(cron, dbs, steps, i, j);
    assert MemorialAdvances(dbs[i].memorials[m], dbs[j].memorials[m]);
  }

  /** In every state a root is terminal exactly when the outbox holds a terminal event for it, which then names
      the same status and is the only one. */
  lemma TerminalMeansOneEvent(cron: SR.CronNext, dbs: seq<Db>, steps: seq<Step>, i: nat, m: MemorialId)
    requires Run(cron, dbs, steps) && i < |dbs|
    ensures (Root(dbs[i], m) && Terminal(dbs[i].memorials[m].status)) <==> HasTerminalEvent(dbs[i].outbox, m)
    ensures forall e :: TerminalEventFor(dbs[i].outbox, e, m) ==>
              m in dbs[i].memorials && dbs[i].memorials[m].status == StatusOf(dbs[i].outbox[e].kind)
    ensures forall e, f :: TerminalEventFor(dbs[i].outbox, e, m) && TerminalEventFor(dbs[i].outbox, f, m) ==> e == f
  {
    RunInv(cron, dbs, steps, i);
    forall e | TerminalEventFor(dbs[i].outbox, e, m) ensures RootIn(dbs[i].memorials, m) {
      assert EventMatchesRoot(dbs[i].memorials, dbs[i].outbox[e]);
    }
  }

  /** The event of a root is written by the very step that finishes the root. */
  lemma AnnouncedByTheStepThatFinishes(
    cron: SR.CronNext, dbs: seq<Db>, steps: seq<Step>, i: nat, e: EventId, m: MemorialId)
    requires Run(cron, dbs, steps) && i < |steps| && TerminalEventFor(dbs[i + 1].outbox, e, m)
    ensures e !in dbs[i].outbox <==> !Finished(dbs[i], m)
    ensures Finished(dbs[i + 1], m)
  {
    TerminalMeansOneEvent(cron, dbs, steps, i, m);
    TerminalMeansOneEvent(cron, dbs, steps, i + 1, m);
    StepAdvances(cron, dbs, steps, i);
    OutboxStays(dbs[i], dbs[i + 1], e, m);
  }

  lemma OutboxStays(db: Db, next: Db, e: EventId, m: MemorialId)
    requires Grows(db.outbox, next.outbox) && TerminalEventFor(next.outbox, e, m)
    requires forall f :: TerminalEventFor(next.outbox, f, m) ==> f == e
    ensures HasTerminalEvent(db.outbox, m) <==> e in db.outbox
  {
    if HasTerminalEvent(db.outbox, m) {
      var f :| TerminalEventFor(db.outbox, f, m);
      assert TerminalEventFor(next.outbox, f, m);
    }
    if e in db.outbox {
      assert TerminalEventFor(db.outbox, e, m);
    }
  }

  /** Over a whole run a root is finished by at most one step. */
  lemma FinishedOnce(cron: SR.CronNext, dbs: seq<Db>, steps: seq<Step>, i: nat, j: nat, m: MemorialId)
    requires Run(cron, dbs, steps) && i < |steps| && j < |steps|
    requires !Finished(dbs[i], m) && Finished(dbs[i + 1], m)
    requires !Finished(dbs[j], m) && Finished(dbs[j + 1], m)
    ensures i == j
  {
    if i < j {
      TerminalIsAbsorbing(cron, dbs, steps, i + 1, j, m);
    } else if j < i {
      TerminalIsAbsorbing(cron, dbs, steps, j + 1, i, m);
    }
  }

  // ---------------------------------------------------------------- fencing

  /** The authority names the owner and token the ledger holds, whatever the clock says. */
  predicate Held(db: Db, auth: Authority) {
    && auth.attempt in db.attempts
    && var t := db.attempts[auth.attempt];
       t.status.Claimed? && t.lease.Some? && t.lease.value.owner == auth.owner && t.token == auth.token
       && t.memorial == auth.memorial
  }

  /** At most one authority per root is held at any time. */
  lemma HeldIsUnique(cron: SR.CronNext, dbs: seq<Db>, steps: seq<Step>, i: nat, x: Authority, y: Authority)
    requires Run(cron, dbs, steps) && i < |dbs| && Held(dbs[i], x) && Held(dbs[i], y) && x.memorial == y.memorial
    ensures x == y
  {
    assert IsLive(dbs[i].attempts, x.attempt, x.memorial) && IsLive(dbs[i].attempts, y.attempt, x.memorial);
    OneLiveAttempt(cron, dbs, steps, i, x.memorial, x.attempt, y.attempt);
  }

  /** An authority once held and then lost is lost for the rest of the run. */
  lemma LostForever(cron: SR.CronNext, dbs: seq<Db>, steps: seq<Step>, h: nat, i: nat, j: nat, auth: Authority)
    requires Run(cron, dbs, steps) && h <= i <= j < |dbs| && Held(dbs[h], auth) && !Held(dbs[i], auth)
    ensures !Held(dbs[j], auth)
  {
    RunAdvances(cron, dbs, steps, h, i);
    RunAdvances(cron, dbs, steps, i, j);
    RunInv(cron, dbs, steps, i);
    LostByAttempt(dbs[h], dbs[i], dbs[j], auth);
  }

  lemma LostByAttempt(x: Db, y: Db, z: Db, auth: Authority)
    requires Held(x, auth) && !Held(y, auth) && AttemptsAdvance(x.attempts, y.attempts) && AttemptsAdvance(y.attempts, z.attempts)
    requires AttemptsWell(y.memorials, y.attempts)
    ensures !Held(z, auth)
  {
    assert AttemptAdvances(x.attempts[auth.attempt], y.attempts[auth.attempt]);
    assert AttemptAdvances(y.attempts[auth.attempt], z.attempts[auth.attempt]);
    assert AttemptWell(y.memorials, y.attempts[auth.attempt]);
  }

  /** Authorities of one root succeed each other: a later holder has the larger token. */
  lemma TokensIncrease(cron: SR.CronNext, dbs: seq<Db>, steps: seq<Step>, i: nat, j: nat, x: Authority, y: Authority)
    requires Run(cron, dbs, steps) && i <= j < |dbs| && Held(dbs[i], x) && Held(dbs[j], y)
    requires x.memorial == y.memorial && x != y
    ensures x.token < y.token
  {
    RunAdvances(cron, dbs, steps, i, j);
    RunInv(cron, dbs, steps, j);
    LaterIsNewer(dbs[i], dbs[j], x, y);
  }

  lemma LaterIsNewer(db: Db, later: Db, x: Authority, y: Authority)
    requires AttemptsAdvance(db.attempts, later.attempts) && AttemptsWell(later.memorials, later.attempts)
    requires Held(db, x) && Held(later, y) && x.memorial == y.memorial && x != y
    ensures x.token < y.token
  {
    assert AttemptAdvances(db.attempts[x.attempt], later.attempts[x.attempt]);
    if x.attempt != y.attempt {
      assert PairOrdered(later.attempts[y.attempt], later.attempts[x.attempt]);
    }
  }

  /** The fenced steps of an authority. */
  predicate ActsFor(s: Step, auth: Authority) {
    match s
    case Beats(a, _) => a == auth
    case Suspends(a, _) => a == auth
    case Saves(a, _, _) => a == auth
    case Completes(c) => c.auth == auth
    case Retries(a, _, _, _) => a == auth
    case _ => false
  }

  /** A fenced step changes something only for an authority whose attempt is claimed by it at that moment. */
  lemma FencedStepNeedsHeld(db: Db, cron: SR.CronNext, s: Step, auth: Authority)
    requires Enabled(db, s) && ActsFor(s, auth) && Next(db, cron, s) != db
    ensures auth.attempt in db.attempts
    ensures Held(db, auth.(memorial := db.attempts[auth.attempt].memorial))
  {
  }

  /** Fencing: once another claim, a cancellation or any other step has taken the attempt from an authority, none
      of its heartbeats, saves, suspensions, completions or retries changes anything any more. */
  lemma StaleAuthorityChangesNothing(
    cron: SR.CronNext, dbs: seq<Db>, steps: seq<Step>, h: nat, i: nat, j: nat, auth: Authority)
    requires Run(cron, dbs, steps) && h <= i <= j < |steps| && Held(dbs[h], auth) && !Held(dbs[i], auth)
    requires ActsFor(steps[j], auth)
    ensures dbs[j + 1] == dbs[j]
  {
    LostForever(cron, dbs, steps, h, i, j, auth);
    RunAdvances(cron, dbs, steps, h, j);
    assert AttemptAdvances(dbs[h].attempts[auth.attempt], dbs[j].attempts[auth.attempt]);
    assert StepAt(cron, dbs, steps, j);
    if Next(dbs[j], cron, steps[j]) != dbs[j] {
      FencedStepNeedsHeld(dbs[j], cron, steps[j], auth);
    }
  }

  lemma CompletionFinishes(db: Db, c: FC.Completion)
    requires FC.Complete(db, c).Committed?
    ensures ActiveRoot(db, c.auth.memorial) && Finished(FC.Complete(db, c).db, c.auth.memorial)
  {
  }

  /** At most one completion is ever projected onto a root. */
  lemma OneProjection(cron: SR.CronNext, dbs: seq<Db>, steps: seq<Step>, i: nat, j: nat, c: FC.Completion, c': FC.Completion)
    requires Run(cron, dbs, steps) && i < |steps| && j < |steps|
    requires steps[i] == Completes(c) && FC.Complete(dbs[i], c).Committed?
    requires steps[j] == Completes(c') && FC.Complete(dbs[j], c').Committed?
    requires c.auth.memorial == c'.auth.memorial
    ensures i == j
  {
    assert StepAt(cron, dbs, steps, i) && StepAt(cron, dbs, steps, j);
    CompletionFinishes(dbs[i], c);
    CompletionFinishes(dbs[j], c');
    FinishedOnce(cron, dbs, steps, i, j, c.auth.memorial);
  }

  // ---------------------------------------------------------------- suspensions and decisions

  /** Any number of deliveries of one resolved event, with any steps in between, act like one: after the delivery
      that acted every other one returns False and changes nothing. */
  lemma RedeliveriesAreIdle(cron: SR.CronNext, dbs: seq<Db>, steps: seq<Step>, i: nat, j: nat, ev: CR.ResolvedEvent, now: Time,
                            again: Time)
    requires Run(cron, dbs, steps) && i < j < |dbs| && steps[i] == Resolves(ev, now)
    requires CR.Handle(dbs[i], ev, now).Committed? && CR.Handle(dbs[i], ev, now).value
    ensures CR.Handle(dbs[j], ev, again) == Committed(dbs[j], false)
  {
    DeliveryIsSettled(cron, dbs, steps, i, ev, now);
    SettledLasts(cron, dbs, steps, i + 1, j, ev);
    CR.SettledIsNoChange(dbs[j], ev, again);
  }

  lemma SettledLasts(cron: SR.CronNext, dbs: seq<Db>, steps: seq<Step>, i: nat, j: nat, ev: CR.ResolvedEvent)
    requires Run(cron, dbs, steps) && i <= j < |dbs| && CR.Settled(dbs[i], ev)
    ensures CR.Settled(dbs[j], ev)
  {
    RunAdvances(cron, dbs, steps, i, j);
    CR.SettledStays(dbs[i], dbs[j], ev);
  }

  lemma DeliveryIsSettled(cron: SR.CronNext, dbs: seq<Db>, steps: seq<Step>, i: nat, ev: CR.ResolvedEvent, now: Time)
    requires Run(cron, dbs, steps) && i < |steps| && steps[i] == Resolves(ev, now)
    requires CR.Handle(dbs[i], ev, now).Committed? && CR.Handle(dbs[i], ev, now).value
    ensures CR.Settled(dbs[i + 1], ev)
  {
    assert StepAt(cron, dbs, steps, i);
    CR.DeliverySettles(dbs[i], ev, now);
  }

  /** At most one of the resume and the cancel event of a decision ever exists. */
  lemma OneAnswerPerDecision(cron: SR.CronNext, dbs: seq<Db>, steps: seq<Step>, i: nat, j: nat, d: DecisionId)
    requires Run(cron, dbs, steps) && i < |dbs| && j < |dbs| && ResumeEvent(d) in dbs[i].outbox
    ensures DecisionCancelEvent(d) !in dbs[j].outbox
  {
    var last := if i < j then j else i;
    RunInv(cron, dbs, steps, last);
    RunAdvances(cron, dbs, steps, i, last);
    RunAdvances(cron, dbs, steps, j, last);
    assert AnswersApart(dbs[last].outbox, ResumeEvent(d));
  }

  // ---------------------------------------------------------------- RunStates

  /** No service step lowers the version, time or side-effect cursor of a RunState, or loses one. */
  lemma ServicesAdvanceStates(cron: SR.CronNext, dbs: seq<Db>, steps: seq<Step>, i: nat, m: MemorialId)
    requires Run(cron, dbs, steps) && i < |steps| && IsService(steps[i]) && m in dbs[i].runStates
    ensures m in dbs[i + 1].runStates && RowAdvances(dbs[i].runStates[m], dbs[i + 1].runStates[m])
  {
    RunInv(cron, dbs, steps, i);
    assert StepAt(cron, dbs, steps, i);
    ServiceConserves(dbs[i], cron, steps[i]);
  }

  /** In every state a decodable RunState holds a pending decision exactly in the waiting phase. */
  lemma StatesAreBound(cron: SR.CronNext, dbs: seq<Db>, steps: seq<Step>, i: nat, m: MemorialId)
    requires Run(cron, dbs, steps) && i < |dbs| && m in dbs[i].runStates && dbs[i].runStates[m].Decoded?
    ensures DecisionBound(dbs[i].runStates[m].state)
  {
    RunInv(cron, dbs, steps, i);
  }

  // ---------------------------------------------------------------- DAG generations

  /** Over a whole run one generation of a DAG is claimed by at most one retry. */
  lemma OneRetryPerGeneration(cron: SR.CronNext, dbs: seq<Db>, steps: seq<Step>, i: nat, c: DagRetryCommand, c': DagRetryCommand)
    requires Run(cron, dbs, steps) && i < |dbs| && c.dag == c'.dag
    requires DG.RetryRoot(c) in dbs[i].memorials && DG.RetryRoot(c') in dbs[i].memorials
    requires dbs[i].memorials[DG.RetryRoot(c)].parent == dbs[i].memorials[DG.RetryRoot(c')].parent
    ensures c.key == c'.key
  {
    RunInv(cron, dbs, steps, i);
    DG.OneClaimPerGeneration(dbs[i], c, c');
  }

  // ---------------------------------------------------------------- keys and identities over runs

  /** A root that any step has finished is deaf to every later delivery of its decisions. */
  lemma FinishedRootIgnoresDecisions(
    cron: SR.CronNext, dbs: seq<Db>, steps: seq<Step>, i: nat, j: nat, ev: CR.ResolvedEvent, now: Time)
    requires Run(cron, dbs, steps) && i <= j < |dbs| && ev.decision in dbs[j].decisions
    requires Finished(dbs[i], dbs[j].decisions[ev.decision].memorial)
    ensures CR.Handle(dbs[j], ev, now).After(dbs[j]) == dbs[j]
  {
    TerminalIsAbsorbing(cron, dbs, steps, i, j, dbs[j].decisions[ev.decision].memorial);
    RX.FinishedIsIdle(dbs[j], ev, now);
  }

  lemma FireIsRecorded(cron: SR.CronNext, dbs: seq<Db>, steps: seq<Step>, i: nat, c: SR.FireCommand)
    requires Run(cron, dbs, steps) && i < |steps| && steps[i] == Fires(c) && SR.Prepare(dbs[i], cron, c).Committed?
    ensures TimerFire(c.job, c.at) in dbs[i + 1].fires
  {
    assert StepAt(cron, dbs, steps, i);
  }

  lemma RecordedFireIsIdle(cron: SR.CronNext, dbs: seq<Db>, steps: seq<Step>, i: nat, c: SR.FireCommand)
    requires Run(cron, dbs, steps) && i < |steps| && steps[i] == Fires(c) && TimerFire(c.job, c.at) in dbs[i].fires
    ensures dbs[i + 1] == dbs[i]
  {
    assert StepAt(cron, dbs, steps, i);
  }

  /** After the step that prepared a fire, no fire step for its job and time changes anything. */
  lemma FireOncePerRun(
    cron: SR.CronNext, dbs: seq<Db>, steps: seq<Step>, i: nat, j: nat, c: SR.FireCommand, c': SR.FireCommand)
    requires Run(cron, dbs, steps) && i < j < |steps| && steps[i] == Fires(c) && steps[j] == Fires(c')
    requires SR.Prepare(dbs[i], cron, c).Committed? && c'.job == c.job && c'.at == c.at
    ensures dbs[j + 1] == dbs[j]
  {
    FireIsRecorded(cron, dbs, steps, i, c);
    FireStays(cron, dbs, steps, i + 1, j, TimerFire(c.job, c.at));
    RecordedFireIsIdle(cron, dbs, steps, j, c');
  }

  lemma ManualIsRecorded(cron: SR.CronNext, dbs: seq<Db>, steps: seq<Step>, i: nat, c: SR.ManualCommand)
    requires Run(cron, dbs, steps) && i < |steps| && steps[i] == FiresManually(c) && SR.PrepareManual(dbs[i], c).Committed?
    ensures ManualFire(c.job, c.key) in dbs[i + 1].fires
  {
    assert StepAt(cron, dbs, steps, i);
  }

  lemma RecordedManualIsIdle(cron: SR.CronNext, dbs: seq<Db>, steps: seq<Step>, i: nat, c: SR.ManualCommand)
    requires Run(cron, dbs, steps) && i < |steps| && steps[i] == FiresManually(c) && ManualFire(c.job, c.key) in dbs[i].fires
    ensures dbs[i + 1] == dbs[i]
  {
    assert StepAt(cron, dbs, steps, i);
  }

  /** After the step that prepared a manual fire, no manual fire step for its job and key changes anything. */
  lemma ManualOncePerRun(
    cron: SR.CronNext, dbs: seq<Db>, steps: seq<Step>, i: nat, j: nat, c: SR.ManualCommand, c': SR.ManualCommand)
    requires Run(cron, dbs, steps) && i < j < |steps| && steps[i] == FiresManually(c) && steps[j] == FiresManually(c')
    requires SR.PrepareManual(dbs[i], c).Committed? && c'.job == c.job && c'.key == c.key
    ensures dbs[j + 1] == dbs[j]
  {
    ManualIsRecorded(cron, dbs, steps, i, c);
    FireStays(cron, dbs, steps, i + 1, j, ManualFire(c.job, c.key));
    RecordedManualIsIdle(cron, dbs, steps, j, c');
  }

  lemma FireStays(cron: SR.CronNext, dbs: seq<Db>, steps: seq<Step>, i: nat, j: nat, f: FireId)
    requires Run(cron, dbs, steps) && i <= j < |dbs| && f in dbs[i].fires
    ensures f in dbs[j].fires
  {
    RunAdvances(cron, dbs, steps, i, j);
  }

  lemma SubmitStep(cron: SR.CronNext, dbs: seq<Db>, steps: seq<Step>, i: nat, c: ES.Submit, draw: ES.Draw)
    requires Run(cron, dbs, steps) && i < |steps| && steps[i] == Submits(c, draw)
    ensures dbs[i + 1] == ES.SubmitOnce(dbs[i], c, draw).After(dbs[i])
  {
    assert StepAt(cron, dbs, steps, i);
  }

  /** After the step that filed a submission, no other submission under its key changes anything. */
  lemma SubmitOncePerRun(
    cron: SR.CronNext, dbs: seq<Db>, steps: seq<Step>, i: nat, j: nat, c: ES.Submit, draw: ES.Draw, c': ES.Submit, draw': ES.Draw)
    requires Run(cron, dbs, steps) && i < j < |steps| && steps[i] == Submits(c, draw) && steps[j] == Submits(c', draw')
    requires ES.SubmitOnce(dbs[i], c, draw).Committed? && ES.KeyOf(c) !in dbs[i].submissions && ES.KeyOf(c') == ES.KeyOf(c)
    ensures dbs[j + 1] == dbs[j]
  {
    SubmitStep(cron, dbs, steps, i, c, draw);
    SubmitStep(cron, dbs, steps, j, c', draw');
    RunAdvances(cron, dbs, steps, i + 1, j);
    ES.SubmitIsWriteOnce(dbs[i], c, draw, dbs[j], c', draw');
  }

  lemma MemorialStays(cron: SR.CronNext, dbs: seq<Db>, steps: seq<Step>, i: nat, j: nat, m: MemorialId)
    requires Run(cron, dbs, steps) && i <= j < |dbs| && m in dbs[i].memorials
    ensures m in dbs[j].memorials
  {
    RunAdvances(cron, dbs, steps, i, j);
  }

  lemma StartIsStored(cron: SR.CronNext, dbs: seq<Db>, steps: seq<Step>, i: nat)
    requires Run(cron, dbs, steps) && i < |steps| && steps[i].Starts?
    requires MI.Start(dbs[i], steps[i].start, steps[i].found, steps[i].now).Committed?
    ensures MI.RootOf(steps[i].start) in dbs[i + 1].memorials
  {
    RunInv(cron, dbs, steps, i);
    assert StepAt(cron, dbs, steps, i);
    StartStores(dbs[i], steps[i].start, steps[i].found, steps[i].now);
  }

  lemma StartStores(db: Db, c: StartCommand, found: Option<MemorialId>, now: Time)
    requires Inv(db) && MI.Start(db, c, found, now).Committed?
    ensures MI.RootOf(c) in MI.Start(db, c, found, now).db.memorials
  {
    if MI.RootOf(c) in db.memorials {
      MI.ReplayChangesNothing(db, c, found, now);
    } else {
      MI.StartFreshMeans(db, c, found, now);
    }
  }

  lemma StoredStartIsIdle(cron: SR.CronNext, dbs: seq<Db>, steps: seq<Step>, i: nat)
    requires Run(cron, dbs, steps) && i < |steps| && steps[i].Starts? && MI.RootOf(steps[i].start) in dbs[i].memorials
    ensures dbs[i + 1] == dbs[i]
  {
    RunInv(cron, dbs, steps, i);
    assert StepAt(cron, dbs, steps, i);
    MI.ReplayChangesNothing(dbs[i], steps[i].start, steps[i].found, steps[i].now);
  }

  /** After a start that committed, no start under its key changes anything. */
  lemma StartOncePerRun(cron: SR.CronNext, dbs: seq<Db>, steps: seq<Step>, i: nat, j: nat)
    requires Run(cron, dbs, steps) && i < j < |steps| && steps[i].Starts? && steps[j].Starts?
    requires MI.RootOf(steps[j].start) == MI.RootOf(steps[i].start)
    requires MI.Start(dbs[i], steps[i].start, steps[i].found, steps[i].now).Committed?
    ensures dbs[j + 1] == dbs[j]
  {
    StartIsStored(cron, dbs, steps, i);
    MemorialStays(cron, dbs, steps, i + 1, j, MI.RootOf(steps[i].start));
    StoredStartIsIdle(cron, dbs, steps, j);
  }

  lemma RetryIsStored(cron: SR.CronNext, dbs: seq<Db>, steps: seq<Step>, i: nat, c: DagRetryCommand, now: Time)
    requires Run(cron, dbs, steps) && i < |steps| && steps[i] == RetriesDag(c, now) && DG.RetryDag(dbs[i], c, now).Committed?
    ensures DG.RetryRoot(c) in dbs[i + 1].memorials
  {
    RunInv(cron, dbs, steps, i);
    assert StepAt(cron, dbs, steps, i);
    if DG.RetryRoot(c) !in dbs[i].memorials {
      DG.RetryFreshMeans(dbs[i], c, now);
      DG.ClaimsStored(dbs[i], dbs[i + 1], c, now);
    }
  }

  lemma StoredRetryIsIdle(cron: SR.CronNext, dbs: seq<Db>, steps: seq<Step>, i: nat, c: DagRetryCommand, now: Time)
    requires Run(cron, dbs, steps) && i < |steps| && steps[i] == RetriesDag(c, now) && DG.RetryRoot(c) in dbs[i].memorials
    ensures dbs[i + 1] == dbs[i]
  {
    assert StepAt(cron, dbs, steps, i);
  }

  lemma StoredRetryStaysIdle(
    cron: SR.CronNext, dbs: seq<Db>, steps: seq<Step>, i: nat, j: nat, c: DagRetryCommand, now: Time)
    requires Run(cron, dbs, steps) && i <= j < |steps| && steps[j] == RetriesDag(c, now)
    requires DG.RetryRoot(c) in dbs[i].memorials
    ensures dbs[j + 1] == dbs[j]
  {
    MemorialStays(cron, dbs, steps, i, j, DG.RetryRoot(c));
    StoredRetryIsIdle(cron, dbs, steps, j, c, now);
  }

  /** After a DAG retry that committed, no retry under its key changes anything. */
  lemma RetryOncePerRun(
    cron: SR.CronNext, dbs: seq<Db>, steps: seq<Step>, i: nat, j: nat, c: DagRetryCommand, c': DagRetryCommand, now: Time, now': Time)
    requires Run(cron, dbs, steps) && i < j < |steps| && steps[i] == RetriesDag(c, now) && steps[j] == RetriesDag(c', now')
    requires DG.RetryDag(dbs[i], c, now).Committed? && c'.dag == c.dag && c'.key == c.key
    ensures dbs[j + 1] == dbs[j]
  {
    RetryIsStored(cron, dbs, steps, i, c, now);
    StoredRetryStaysIdle(cron, dbs, steps, i + 1, j, c', now');
  }
}
