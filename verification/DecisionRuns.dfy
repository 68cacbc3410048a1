/**
 How a resolved tool or outer-loop decision reaches a RunState over whole runs.  Two consumers of the same event write
 the row: the projection of decisions and the continuation service, and each skips what the other has done.
 */
module DecisionRuns {
  import opened Durable
  import opened Invariant
  import opened AttemptLedger
  import opened RunStateRepository
  import opened RunStateWriters
  import opened Protocol
  import opened SuspensionRuns
  import FC = FencedCompletion
  import DR = DeadLetterReconciliation
  import CR = ContinuationRecovery
  import PR = PlanReview
  import MI = ManagedIngress
  import DG = DagRetry
  import SR = ScheduledRuns
  import ES = EdictSubmission

  /** The RunState of `m` waits for decision `d`. */
  predicate WaitsFor(rs: RunStates, m: MemorialId, d: DecisionId) {
    m in rs && rs[m].Decoded? && rs[m].state.pending == Some(d)
  }

  /** The steps that may carry decision `d` to a RunState. */
  predicate Carries(s: Step, d: DecisionId) {
    (s.Projects? && s.decision == d) || (s.Resolves? && s.event.decision == d)
  }

  // ---------------------------------------------------------------- only those two take up a decision

  lemma StartStill(db: Db, c: StartCommand, found: Option<MemorialId>, now: Time)
    requires Inv(db)
    ensures ResolvesNone(db, MI.Start(db, c, found, now).After(db))
  {
    if MI.RootOf(c) in db.memorials {
      MI.ReplayChangesNothing(db, c, found, now);
    } else if MI.Start(db, c, found, now).Committed? {
      MI.StartRoots(db, c, found, now);
    }
  }

  lemma RetryDagStill(db: Db, c: DagRetryCommand, now: Time)
    requires Inv(db)
    ensures ResolvesNone(db, DG.RetryDag(db, c, now).After(db))
  {
    if DG.RetryRoot(c) !in db.memorials && DG.RetryDag(db, c, now).Committed? {
      DG.RetryFreshMeans(db, c, now);
    }
  }

  lemma FireStill(db: Db, cron: SR.CronNext, c: SR.FireCommand)
    requires Inv(db)
    ensures ResolvesNone(db, SR.Prepare(db, cron, c).After(db))
  {
    if SR.Prepare(db, cron, c).Committed? && TimerFire(c.job, c.at) !in db.fires {
      SR.PrepareFires(db, cron, c);
      SR.FiresStill(db, SR.Prepare(db, cron, c).db, c, SR.CursorAfter(db, cron, c).at);
    }
  }

  lemma ManualStill(db: Db, c: SR.ManualCommand)
    requires Inv(db)
    ensures ResolvesNone(db, SR.PrepareManual(db, c).After(db))
  {
    if SR.PrepareManual(db, c).Committed? && ManualFire(c.job, c.key) !in db.fires {
      SR.ManualFires(db, c);
    }
  }

  lemma SubmitStill(db: Db, c: ES.Submit, draw: ES.Draw)
    ensures ResolvesNone(db, ES.SubmitOnce(db, c, draw).After(db))
  {
    if ES.SubmitOnce(db, c, draw).After(db) != db {
      assert ES.SubmitOnce(db, c, draw).db == ES.Inserted(db, c, draw);
    }
  }

  lemma OthersResolveNone(db: Db, cron: SR.CronNext, s: Step)
    requires Inv(db) && Enabled(db, s) && IsService(s) && !s.Projects? && !s.Resolves?
    ensures ResolvesNone(db, Next(db, cron, s))
  {
    match s
    case Claims(m, owner, now, seconds, ulid) => ClaimStill(db, m, owner, now, seconds, ulid);
    case Beats(auth, now) => HeartbeatStill(db, auth, now);
    case Suspends(auth, now) => SuspendStill(db, auth, now);
    case Completes(c) => FC.CompleteStill(db, c);
    case Retries(auth, at, retryAt, ulid) => FC.RetryStill(db, auth, at, retryAt, ulid);
    case Cancels(m, at) => FC.CancelRootStill(db, m, at);
    case Reconciles(_, rows, at) => DR.ReconcileStill(db, rows, at);
    case Reviews(_, rows, now) => PR.ReviewStill(db, rows, now);
    case Starts(c, found, now) => StartStill(db, c, found, now);
    case AdoptsRoot(m, key, at) => MI.AdoptExistingStill(db, m, key, at);
    case AdoptsLegacy(ev) => MI.AdoptLegacyStill(db, ev);
    case RetriesDag(c, now) => RetryDagStill(db, c, now);
    case Fires(c) => FireStill(db, cron, c);
    case FiresManually(c) => ManualStill(db, c);
    case Submits(c, draw) => SubmitStill(db, c, draw);
  }

  lemma WriteResolvesNone(db: Db, n: MemorialId, row: RunState, m: MemorialId, d: DecisionId)
    requires row.resolved.Some? ==> ResolvedIn(db.runStates, n, row.resolved.value)
    requires ResolvedIn(SetState(db, n, Decoded(row)).runStates, m, d)
    ensures ResolvedIn(db.runStates, m, d)
  {
  }

  lemma SaveResolvesNone(db: Db, auth: Authority, now: Time, candidate: RunState, m: MemorialId, d: DecisionId)
    requires ResolvedIn(SaveState(db, auth, now, candidate).After(db).runStates, m, d)
    ensures ResolvedIn(db.runStates, m, d)
  {
    if SaveState(db, auth, now, candidate).Committed? {
      var n := db.attempts[auth.attempt].memorial;
      WriteResolvesNone(db, n, if n in db.runStates then Saved(candidate) else candidate, m, d);
    }
  }

  lemma DraftResolvesNone(db: Db, root: MemorialId, candidate: RunState, m: MemorialId, d: DecisionId)
    requires ResolvedIn(DraftState(db, root, candidate).After(db).runStates, m, d)
    ensures ResolvedIn(db.runStates, m, d)
  {
    if DraftState(db, root, candidate).Committed? {
      WriteResolvesNone(db, root, if root in db.runStates then Saved(candidate) else candidate, m, d);
    }
  }

  /** The RunState of `m` is bound to `d` before and holds it as resolved after; no other row is written, and this one
      is left alone exactly when it waited no more and is not to be cancelled. */
  ghost predicate CarriedTo(rs: RunStates, ss: RunStates, m: MemorialId, d: DecisionId, edict: EdictId, cancel: bool) {
    && m in rs && rs[m].Decoded? && m in ss && ss[m].Decoded?
    && CR.StateBinding(rs[m].state, d, edict)
    && ss == rs[m := ss[m]]
    && ss[m].state.pending.None? && ss[m].state.resolved == Some(d)
    && (ss[m] == rs[m] <==> !cancel && !WaitsFor(rs, m, d))
  }

  lemma CancelCarries(db: Db, d: DecisionId, s: RunState, a: AttemptId, now: Time)
    requires CR.Supported(db, d) && a in db.attempts && ActiveRoot(db, db.decisions[d].memorial) && CR.BoundTo(db, d, s)
    requires CR.Cancel(db, d, s, a, now).Committed?
    ensures CarriedTo(db.runStates, CR.Cancel(db, d, s, a, now).db.runStates, db.decisions[d].memorial, d,
                      db.decisions[d].edict, true)
  {
    CR.CancelMeans(db, d, s, a, now);
  }

  lemma ResumeCarries(db: Db, d: DecisionId, s: RunState, now: Time)
    requires CR.Supported(db, d) && CR.BoundTo(db, d, s) && CR.CanResumeState(db, db.decisions[d], d, s, now)
    ensures CarriedTo(db.runStates, CR.ResumeState(db, db.decisions[d], d, s, now).runStates, db.decisions[d].memorial, d,
                      db.decisions[d].edict, false)
  {
    var m := db.decisions[d].memorial;
    if s.phase.PhaseExecuting? {
      assert db.runStates == db.runStates[m := db.runStates[m]];
    }
  }

  /** What a delivery that acts writes. */
  lemma DeliveryWrites(db: Db, ev: CR.ResolvedEvent, now: Time)
    requires CR.Acts(db, ev, now)
    ensures CR.Supported(db, ev.decision)
    ensures var r := db.decisions[ev.decision];
            CarriedTo(db.runStates, CR.Handle(db, ev, now).db.runStates, r.memorial, ev.decision, r.edict, CR.IsCancel(r))
  {
    var d := ev.decision;
    assert CR.Handle(db, ev, now) == CR.Act(db, d, now);
    var s, a := db.runStates[db.decisions[d].memorial].state, LiveOf(db, db.decisions[d].memorial).value;
    if CR.IsCancel(db.decisions[d]) {
      CancelCarries(db, d, s, a, now);
    } else {
      CR.ResumeWrites(db, ev, now);
      ResumeCarries(db, d, s, now);
    }
  }

  lemma DeliveryResolves(db: Db, ev: CR.ResolvedEvent, now: Time, m: MemorialId, d: DecisionId)
    requires !ResolvedIn(db.runStates, m, d) && ResolvedIn(CR.Handle(db, ev, now).After(db).runStates, m, d)
    ensures ev.decision == d && CR.Answered(CR.Handle(db, ev, now).After(db), d)
  {
    assert CR.Acts(db, ev, now);
    DeliveryWrites(db, ev, now);
    CR.DeliverySettles(db, ev, now);
  }

  lemma ProjectionResolves(db: Db, d': DecisionId, m: MemorialId, d: DecisionId)
    requires !ResolvedIn(db.runStates, m, d) && ResolvedIn(ProjectDecision(db, d').After(db).runStates, m, d)
    ensures d' == d
  {
  }

  lemma ForeignResolvesNone(db: Db, next: Db, m: MemorialId, d: DecisionId)
    requires ForeignStep(db, next) && ResolvedIn(next.runStates, m, d)
    ensures ResolvedIn(db.runStates, m, d)
  {
    assert Corrupted(db.runStates[m], next.runStates[m]);
  }

  /** A tool or outer-loop decision is taken up by its projection or by a delivery, and the latter answers it. */
  lemma TakenUpBy(db: Db, cron: SR.CronNext, s: Step, m: MemorialId, d: DecisionId)
    requires Inv(db) && Enabled(db, s) && !IsPlanReview(db.decisions, d)
    requires !ResolvedIn(db.runStates, m, d) && ResolvedIn(Next(db, cron, s).runStates, m, d)
    ensures Carries(s, d) && (s.Resolves? ==> CR.Answered(Next(db, cron, s), d))
  {
    if s.Saves? {
      SaveResolvesNone(db, s.auth, s.now, s.candidate, m, d);
    } else if s.Drafts? {
      DraftResolvesNone(db, s.root, s.candidate, m, d);
    } else if s.Foreign? {
      ForeignResolvesNone(db, s.after, m, d);
    } else if s.Resolves? {
      DeliveryResolves(db, s.event, s.now, m, d);
    } else if s.Projects? {
      ProjectionResolves(db, s.decision, m, d);
    } else {
      OthersResolveNone(db, cron, s);
    }
  }

  // ---------------------------------------------------------------- whoever waits no more was asked no more

  lemma UnwaitedUnderService(rs: RunStates, ss: RunStates, m: MemorialId, d: DecisionId)
    requires StatesAdvance(rs, ss) && !WaitsFor(rs, m, d)
    ensures !WaitsFor(ss, m, d)
  {
    if m in ss {
      assert RowAdvances(rs[m], ss[m]);
    }
  }

  lemma UnwaitedUnderForeign(rs: RunStates, ss: RunStates, m: MemorialId, d: DecisionId)
    requires MayCorrupt(rs, ss) && !WaitsFor(rs, m, d)
    ensures !WaitsFor(ss, m, d)
  {
    if m in ss {
      assert Corrupted(rs[m], ss[m]);
    }
  }

  /** Only the runner's own write makes its RunState wait. */
  lemma StaysUnwaited(db: Db, cron: SR.CronNext, s: Step, m: MemorialId, d: DecisionId)
    requires Inv(db) && Enabled(db, s) && !WaitsFor(db.runStates, m, d) && !RunnerWrites(db, s, m)
    ensures !WaitsFor(Next(db, cron, s).runStates, m, d)
  {
    if s.Saves? {
      SaveWritesOnly(db, s.auth, s.now, s.candidate);
    } else if s.Drafts? {
      DraftWritesOnly(db, s.root, s.candidate);
    } else if s.Foreign? {
      UnwaitedUnderForeign(db.runStates, s.after.runStates, m, d);
    } else {
      ServiceConserves(db, cron, s);
      UnwaitedUnderService(db.runStates, Next(db, cron, s).runStates, m, d);
    }
  }

  /** Step `i` is a write of the runner that makes the RunState of `m` wait for `d`. */
  predicate Asks(dbs: seq<Db>, steps: seq<Step>, i: nat, m: MemorialId, d: DecisionId)
    requires |dbs| == |steps| + 1 && i < |steps|
  {
    RunnerWrites(dbs[i], steps[i], m) && WaitsFor(dbs[i + 1].runStates, m, d)
  }

  ghost predicate NeverAsked(dbs: seq<Db>, steps: seq<Step>, i: nat, j: nat, m: MemorialId, d: DecisionId)
    requires |dbs| == |steps| + 1 && i <= j <= |steps|
  {
    forall k :: i <= k < j ==> !Asks(dbs, steps, k, m, d)
  }

  lemma UnwaitedStep(cron: SR.CronNext, dbs: seq<Db>, steps: seq<Step>, i: nat, m: MemorialId, d: DecisionId)
    requires Run(cron, dbs, steps) && i < |steps| && !WaitsFor(dbs[i].runStates, m, d) && !Asks(dbs, steps, i, m, d)
    ensures !WaitsFor(dbs[i + 1].runStates, m, d)
  {
    RunInv(cron, dbs, steps, i);
    assert StepAt(cron, dbs, steps, i);
    if !RunnerWrites(dbs[i], steps[i], m) {
      StaysUnwaited(dbs[i], cron, steps[i], m, d);
    }
  }

  lemma {:induction false} UnwaitedLasts(
    cron: SR.CronNext, dbs: seq<Db>, steps: seq<Step>, i: nat, j: nat, m: MemorialId, d: DecisionId)
    requires Run(cron, dbs, steps) && i <= j < |dbs| && !WaitsFor(dbs[i].runStates, m, d)
    requires NeverAsked(dbs, steps, i, j, m, d)
    ensures !WaitsFor(dbs[j].runStates, m, d)
    decreases j
  {
    if i < j {
      UnwaitedLasts(cron, dbs, steps, i, j - 1, m, d);
      UnwaitedStep(cron, dbs, steps, j - 1, m, d);
    }
  }

  // ---------------------------------------------------------------- one decision moves a RunState once

  /** Step `i` carries `d` to a RunState and moves it. */
  predicate MovesBy(dbs: seq<Db>, steps: seq<Step>, i: nat, d: DecisionId)
    requires |dbs| == |steps| + 1 && i < |steps|
  {
    Carries(steps[i], d) && dbs[i + 1].runStates != dbs[i].runStates
  }

  lemma ProjectionWrites(db: Db, d: DecisionId)
    requires ProjectDecision(db, d).After(db).runStates != db.runStates
    ensures d in db.decisions
    ensures WaitsFor(db.runStates, db.decisions[d].memorial, d)
    ensures !WaitsFor(ProjectDecision(db, d).After(db).runStates, db.decisions[d].memorial, d)
    ensures ResolvedIn(ProjectDecision(db, d).After(db).runStates, db.decisions[d].memorial, d)
  {
  }

  /** A step that moves a RunState by `d` leaves it waiting no more; it waited before, or a delivery cancels. */
  lemma MoverStops(cron: SR.CronNext, dbs: seq<Db>, steps: seq<Step>, i: nat, d: DecisionId)
    requires Run(cron, dbs, steps) && i < |steps| && MovesBy(dbs, steps, i, d)
    ensures d in dbs[i].decisions
    ensures !WaitsFor(dbs[i + 1].runStates, dbs[i].decisions[d].memorial, d)
    ensures || WaitsFor(dbs[i].runStates, dbs[i].decisions[d].memorial, d)
            || (steps[i].Resolves? && dbs[i].decisions[d].status.Resolved? && CR.IsCancel(dbs[i].decisions[d]))
    ensures steps[i].Resolves? ==> CR.Acts(dbs[i], steps[i].event, steps[i].now)
  {
    assert StepAt(cron, dbs, steps, i);
    if steps[i].Projects? {
      ProjectionWrites(dbs[i], d);
    } else {
      assert CR.Acts(dbs[i], steps[i].event, steps[i].now);
      DeliveryWrites(dbs[i], steps[i].event, steps[i].now);
    }
  }

  lemma ActedIsAnswered(cron: SR.CronNext, dbs: seq<Db>, steps: seq<Step>, i: nat, j: nat)
    requires Run(cron, dbs, steps) && i < j < |dbs| && steps[i].Resolves? && CR.Acts(dbs[i], steps[i].event, steps[i].now)
    ensures CR.Answered(dbs[j], steps[i].event.decision)
  {
    assert StepAt(cron, dbs, steps, i);
    CR.DeliverySettles(dbs[i], steps[i].event, steps[i].now);
    AnswerStays(cron, dbs, steps, i + 1, j, steps[i].event.decision);
  }

  lemma ActsOnUnanswered(db: Db, ev: CR.ResolvedEvent, now: Time)
    requires CR.Acts(db, ev, now)
    ensures !CR.Answered(db, ev.decision)
  {
  }

  lemma SameDecision(cron: SR.CronNext, dbs: seq<Db>, steps: seq<Step>, i: nat, j: nat, d: DecisionId)
    requires Run(cron, dbs, steps) && i <= j < |dbs| && d in dbs[i].decisions
    ensures d in dbs[j].decisions && dbs[j].decisions[d].memorial == dbs[i].decisions[d].memorial
    ensures dbs[j].decisions[d].kind == dbs[i].decisions[d].kind
  {
    RunAdvances(cron, dbs, steps, i, j);
    assert DecisionAdvances(dbs[i].decisions[d], dbs[j].decisions[d]);
  }

  /** However often a decision is projected and delivered, in whatever order: until the runner waits for it again, one
      step moves a RunState by it.  The one exception is a cancelling decision that was projected first: the
      projection sets the run going, and the delivery then fails it. */
  lemma DecisionMovesOnce(cron: SR.CronNext, dbs: seq<Db>, steps: seq<Step>, i: nat, j: nat, d: DecisionId)
    requires Run(cron, dbs, steps) && i < j < |steps| && MovesBy(dbs, steps, i, d) && MovesBy(dbs, steps, j, d)
    requires d in dbs[i].decisions && NeverAsked(dbs, steps, i + 1, j, dbs[i].decisions[d].memorial, d)
    ensures steps[i].Projects? && steps[j].Resolves?
    ensures d in dbs[j].decisions && dbs[j].decisions[d].status.Resolved? && CR.IsCancel(dbs[j].decisions[d])
  {
    MoverStops(cron, dbs, steps, i, d);
    UnwaitedLasts(cron, dbs, steps, i + 1, j, dbs[i].decisions[d].memorial, d);
    SameDecision(cron, dbs, steps, i, j, d);
    MoverStops(cron, dbs, steps, j, d);
    if steps[i].Resolves? {
      OneActs(cron, dbs, steps, i, j, d);
    }
  }

  /** Of the deliveries of one decision one acts. */
  lemma OneActs(cron: SR.CronNext, dbs: seq<Db>, steps: seq<Step>, i: nat, j: nat, d: DecisionId)
    requires Run(cron, dbs, steps) && i < j < |steps| && steps[i].Resolves? && steps[j].Resolves?
    requires steps[i].event.decision == d && steps[j].event.decision == d
    requires CR.Acts(dbs[i], steps[i].event, steps[i].now)
    ensures !CR.Acts(dbs[j], steps[j].event, steps[j].now)
  {
    if CR.Acts(dbs[j], steps[j].event, steps[j].now) {
      ActsOnUnanswered(dbs[j], steps[j].event, steps[j].now);
      ActedIsAnswered(cron, dbs, steps, i, j);
    }
  }

  /** Exactly when a delivery that acts moves the RunState: it cancels, or the row still waited. */
  lemma ActingMovesIff(cron: SR.CronNext, dbs: seq<Db>, steps: seq<Step>, i: nat)
    requires Run(cron, dbs, steps) && i < |steps| && steps[i].Resolves? && CR.Acts(dbs[i], steps[i].event, steps[i].now)
    ensures var d := steps[i].event.decision;
            && d in dbs[i].decisions && dbs[i].decisions[d].status.Resolved?
            && (MovesBy(dbs, steps, i, d) <==>
                  CR.IsCancel(dbs[i].decisions[d]) || WaitsFor(dbs[i].runStates, dbs[i].decisions[d].memorial, d))
  {
    assert StepAt(cron, dbs, steps, i);
    DeliveryWrites(dbs[i], steps[i].event, steps[i].now);
  }

  // ---------------------------------------------------------------- the tool resume, by history

  /** Before `j` the projection of `d` has moved the RunState of `m`, and the runner has not waited for `d` again. */
  ghost predicate ProjectedBefore(dbs: seq<Db>, steps: seq<Step>, j: nat, m: MemorialId, d: DecisionId)
    requires |dbs| == |steps| + 1 && j <= |steps|
  {
    exists k :: 0 <= k < j && steps[k] == Projects(d) && MovesBy(dbs, steps, k, d) && NeverAsked(dbs, steps, k + 1, j, m, d)
  }

  lemma TakenUpAt(cron: SR.CronNext, dbs: seq<Db>, steps: seq<Step>, i: nat, j: nat, m: MemorialId, d: DecisionId)
    requires Run(cron, dbs, steps) && i < j < |dbs| && !CR.Answered(dbs[j], d) && !IsPlanReview(dbs[j].decisions, d)
    requires !ResolvedIn(dbs[i].runStates, m, d) && ResolvedIn(dbs[i + 1].runStates, m, d)
    ensures steps[i] == Projects(d) && MovesBy(dbs, steps, i, d)
  {
    if IsPlanReview(dbs[i].decisions, d) {
      SameDecision(cron, dbs, steps, i, j, d);
    }
    TakenUpStep(cron, dbs, steps, i, m, d);
    if CR.Answered(dbs[i + 1], d) {
      AnswerStays(cron, dbs, steps, i + 1, j, d);
    }
  }

  lemma TakenUpStep(cron: SR.CronNext, dbs: seq<Db>, steps: seq<Step>, i: nat, m: MemorialId, d: DecisionId)
    requires Run(cron, dbs, steps) && i < |steps| && !IsPlanReview(dbs[i].decisions, d)
    requires !ResolvedIn(dbs[i].runStates, m, d) && ResolvedIn(dbs[i + 1].runStates, m, d)
    ensures MovesBy(dbs, steps, i, d) && (steps[i].Projects? || CR.Answered(dbs[i + 1], d))
  {
    RunInv(cron, dbs, steps, i);
    assert StepAt(cron, dbs, steps, i);
    TakenUpBy(dbs[i], cron, steps[i], m, d);
  }

  lemma AnswerStays(cron: SR.CronNext, dbs: seq<Db>, steps: seq<Step>, i: nat, j: nat, d: DecisionId)
    requires Run(cron, dbs, steps) && i <= j < |dbs| && CR.Answered(dbs[i], d)
    ensures CR.Answered(dbs[j], d)
  {
    RunAdvances(cron, dbs, steps, i, j);
  }

  /** A tool or outer-loop decision that a RunState holds as resolved and nobody answered was projected onto it, and
      has been held ever since. */
  lemma {:induction false} HeldSince(
    cron: SR.CronNext, dbs: seq<Db>, steps: seq<Step>, i: nat, j: nat, m: MemorialId, d: DecisionId)
    returns (k: nat)
    requires Run(cron, dbs, steps) && i <= j < |dbs| && !CR.Answered(dbs[j], d) && !IsPlanReview(dbs[j].decisions, d)
    requires ResolvedIn(dbs[i].runStates, m, d)
    ensures k < i && steps[k] == Projects(d) && MovesBy(dbs, steps, k, d)
    ensures forall l :: k < l <= i ==> ResolvedIn(dbs[l].runStates, m, d)
    decreases i
  {
    assert i > 0;
    if ResolvedIn(dbs[i - 1].runStates, m, d) {
      k := HeldSince(cron, dbs, steps, i - 1, j, m, d);
    } else {
      TakenUpAt(cron, dbs, steps, i - 1, j, m, d);
      k := i - 1;
    }
  }

  /** Whoever holds the decision as resolved does not wait for it. */
  lemma HeldIsUnasked(cron: SR.CronNext, dbs: seq<Db>, steps: seq<Step>, k: nat, j: nat, m: MemorialId, d: DecisionId)
    requires Run(cron, dbs, steps) && k < j < |dbs| && forall l :: k < l <= j ==> ResolvedIn(dbs[l].runStates, m, d)
    ensures NeverAsked(dbs, steps, k + 1, j, m, d)
  {
    forall l | k + 1 <= l < j ensures !Asks(dbs, steps, l, m, d) {
      RunInv(cron, dbs, steps, l + 1);
      assert ResolvedIn(dbs[l + 1].runStates, m, d);
    }
  }

  lemma ProjectedStaysUnwaited(cron: SR.CronNext, dbs: seq<Db>, steps: seq<Step>, j: nat, d: DecisionId)
    requires Run(cron, dbs, steps) && j < |dbs| && d in dbs[j].decisions
    requires ProjectedBefore(dbs, steps, j, dbs[j].decisions[d].memorial, d)
    ensures !WaitsFor(dbs[j].runStates, dbs[j].decisions[d].memorial, d)
  {
    var m := dbs[j].decisions[d].memorial;
    var k :| 0 <= k < j && steps[k] == Projects(d) && MovesBy(dbs, steps, k, d) && NeverAsked(dbs, steps, k + 1, j, m, d);
    MoverStops(cron, dbs, steps, k, d);
    SameDecision(cron, dbs, steps, k, j, d);
    UnwaitedLasts(cron, dbs, steps, k + 1, j, m, d);
  }

  /** A delivery that acts finds the RunState moved on already if and only if the decision was projected before and
      the runner has not waited for it again. */
  lemma FoundProjectedIff(cron: SR.CronNext, dbs: seq<Db>, steps: seq<Step>, j: nat, ev: CR.ResolvedEvent, now: Time)
    requires Run(cron, dbs, steps) && j < |dbs| && CR.Acts(dbs[j], ev, now)
    ensures ev.decision in dbs[j].decisions
    ensures var m := dbs[j].decisions[ev.decision].memorial;
            !WaitsFor(dbs[j].runStates, m, ev.decision) <==> ProjectedBefore(dbs, steps, j, m, ev.decision)
  {
    var d := ev.decision;
    DeliveryWrites(dbs[j], ev, now);
    var m := dbs[j].decisions[d].memorial;
    if !WaitsFor(dbs[j].runStates, m, d) {
      ActsOnUnanswered(dbs[j], ev, now);
      var k := HeldSince(cron, dbs, steps, j, j, m, d);
      HeldIsUnasked(cron, dbs, steps, k, j, m, d);
    } else if ProjectedBefore(dbs, steps, j, m, d) {
      ProjectedStaysUnwaited(cron, dbs, steps, j, d);
    }
  }

  /** Over whole runs: a tool resume leaves the side-effect cursor past the intent of its decision if and only if it
      was past it before, or the decision had not been projected already; likewise for the cleared proposal.  A
      decision that was not projected has its intent. */
  lemma ToolResumeByHistory(cron: SR.CronNext, dbs: seq<Db>, steps: seq<Step>, j: nat, ev: CR.ResolvedEvent, now: Time)
    requires Run(cron, dbs, steps) && j < |dbs|
    requires CR.Resumes(dbs[j], ev, now) && dbs[j].decisions[ev.decision].kind.ToolDecision?
    ensures var db, r, next := dbs[j], dbs[j].decisions[ev.decision], CR.Handle(dbs[j], ev, now).db;
            var projected := ProjectedBefore(dbs, steps, j, r.memorial, ev.decision);
            && r.memorial in db.runStates && db.runStates[r.memorial].Decoded?
            && r.memorial in next.runStates && next.runStates[r.memorial].Decoded?
            && var s, t := db.runStates[r.memorial].state, next.runStates[r.memorial].state;
               && (!projected ==> CR.IntentBound(db, r))
               && (CR.IntentBound(db, r) ==>
                     (db.intents[r.requestKey.intent].sequenceNo < t.cursor <==>
                        !projected || db.intents[r.requestKey.intent].sequenceNo < s.cursor))
               && (!t.pendingTool <==> !projected || !s.pendingTool)
  {
    RunInv(cron, dbs, steps, j);
    DeliveryWrites(dbs[j], ev, now);
    CR.ToolResumePassesIntent(dbs[j], ev, now);
    FoundProjectedIff(cron, dbs, steps, j, ev, now);
  }
}
