/** Over whole runs a plan-review pass never raises: decisions belong to the roots that wait for them. */
module ReviewRuns {
  import opened Durable
  import opened Invariant
  import opened AttemptLedger
  import opened RunStateWriters
  import opened RunStateRepository
  import opened Protocol
  import FC = FencedCompletion
  import PR = PlanReview
  import SR = ScheduledRuns

  type Decisions = map<DecisionId, Decision>

  predicate Belongs(ds: Decisions, d: DecisionId, m: MemorialId) {
    d in ds && ds[d].memorial == m
  }

  /** A RunState names decisions of its own Memorial only. */
  ghost predicate OwnNames(ds: Decisions, rs: RunStates) {
    forall m, d :: Mentions(rs, m, d) ==> Belongs(ds, d, m)
  }

  /** A plan failure under a decision's name is announced for that decision's Memorial. */
  ghost predicate OwnEvents(ds: Decisions, es: Outbox) {
    forall e :: e in es && e.PlanFailedEvent? && e.identity.ByDecision? ==> Belongs(ds, e.identity.decision, es[e].memorial)
  }

  // ---------------------------------------------------------------- kept by every step

  lemma BelongsStays(ds: Decisions, es: Decisions, d: DecisionId, m: MemorialId)
    requires DecisionsAdvance(ds, es) && Belongs(ds, d, m)
    ensures Belongs(es, d, m)
  {
    assert DecisionAdvances(ds[d], es[d]);
  }

  lemma OwnUnderService(db: Db, next: Db)
    requires OwnNames(db.decisions, db.runStates) && OwnEvents(db.decisions, db.outbox)
    requires Conserves(db, next)
    ensures OwnNames(next.decisions, next.runStates) && OwnEvents(next.decisions, next.outbox)
  {
    forall m, d | Mentions(next.runStates, m, d) ensures Belongs(next.decisions, d, m) {
      assert RowAdvances(db.runStates[m], next.runStates[m]);
      assert Mentions(db.runStates, m, d);
      BelongsStays(db.decisions, next.decisions, d, m);
    }
    forall e | e in next.outbox && e.PlanFailedEvent? && e.identity.ByDecision?
      ensures Belongs(next.decisions, e.identity.decision, next.outbox[e].memorial)
    {
      if e !in db.outbox {
        assert Mentions(db.runStates, next.outbox[e].memorial, e.identity.decision);
      }
      BelongsStays(db.decisions, next.decisions, e.identity.decision, next.outbox[e].memorial);
    }
  }

  lemma OwnUnderForeign(db: Db, next: Db)
    requires OwnNames(db.decisions, db.runStates) && OwnEvents(db.decisions, db.outbox) && ForeignStep(db, next)
    ensures OwnNames(next.decisions, next.runStates) && OwnEvents(next.decisions, next.outbox)
  {
    forall m, d | Mentions(next.runStates, m, d) ensures Belongs(next.decisions, d, m) {
      assert Corrupted(db.runStates[m], next.runStates[m]);
      assert Mentions(db.runStates, m, d);
      BelongsStays(db.decisions, next.decisions, d, m);
    }
    forall e | e in next.outbox && e.PlanFailedEvent? && e.identity.ByDecision?
      ensures Belongs(next.decisions, e.identity.decision, next.outbox[e].memorial)
    {
      BelongsStays(db.decisions, next.decisions, e.identity.decision, next.outbox[e].memorial);
    }
  }

  lemma OwnUnderWrite(db: Db, m: MemorialId, row: RunRow)
    requires OwnNames(db.decisions, db.runStates) && forall d :: Names(row, d) ==> Belongs(db.decisions, d, m)
    ensures OwnNames(db.decisions, SetState(db, m, row).runStates)
  {
  }

  lemma OwnUnderSave(db: Db, auth: Authority, now: Time, candidate: RunState)
    requires OwnNames(db.decisions, db.runStates)
    ensures OwnNames(db.decisions, SaveState(db, auth, now, candidate).After(db).runStates)
  {
    if SaveState(db, auth, now, candidate).Committed? {
      OwnUnderWrite(db, db.attempts[auth.attempt].memorial, Decoded(candidate));
      OwnUnderWrite(db, db.attempts[auth.attempt].memorial, Decoded(Saved(candidate)));
    }
  }

  lemma OwnUnderDraft(db: Db, m: MemorialId, candidate: RunState)
    requires OwnNames(db.decisions, db.runStates)
    ensures OwnNames(db.decisions, DraftState(db, m, candidate).After(db).runStates)
  {
    if DraftState(db, m, candidate).Committed? {
      OwnUnderWrite(db, m, Decoded(candidate));
      OwnUnderWrite(db, m, Decoded(Saved(candidate)));
    }
  }

  ghost predicate Owned(db: Db) {
    OwnNames(db.decisions, db.runStates) && OwnEvents(db.decisions, db.outbox)
  }

  lemma StepOwned(db: Db, cron: SR.CronNext, s: Step)
    requires Inv(db) && Owned(db) && Enabled(db, s)
    ensures Owned(Next(db, cron, s))
  {
    if s.Saves? {
      OwnUnderSave(db, s.auth, s.now, s.candidate);
      SaveWritesOnly(db, s.auth, s.now, s.candidate);
    } else if s.Drafts? {
      OwnUnderDraft(db, s.root, s.candidate);
      DraftWritesOnly(db, s.root, s.candidate);
    } else if s.Foreign? {
      OwnUnderForeign(db, s.after);
    } else {
      ServiceConserves(db, cron, s);
      OwnUnderService(db, Next(db, cron, s));
    }
  }

  lemma OwnedStep(cron: SR.CronNext, dbs: seq<Db>, steps: seq<Step>, i: nat)
    requires Run(cron, dbs, steps) && i < |steps| && Owned(dbs[i])
    ensures Owned(dbs[i + 1])
  {
    RunInv(cron, dbs, steps, i);
    assert StepAt(cron, dbs, steps, i);
    StepOwned(dbs[i], cron, steps[i]);
  }

  lemma {:induction false} RunOwned(cron: SR.CronNext, dbs: seq<Db>, steps: seq<Step>, i: nat)
    requires Run(cron, dbs, steps) && i < |dbs|
    ensures Owned(dbs[i])
  {
    if i > 0 {
      RunOwned(cron, dbs, steps, i - 1);
      OwnedStep(cron, dbs, steps, i - 1);
    }
  }

  // ---------------------------------------------------------------- the pass

  /** A failing row writes an event named after itself or after a decision its root names. */
  lemma FailureIsNamed(db: Db, a: AttemptId)
    requires PR.Reviewable(db, a) && PR.Failing(PR.VerdictOn(db, a))
    ensures PR.NamedFor(db, a, PR.EventOf(PR.VerdictOn(db, a)))
  {
  }

  /** Its event is not stored: it would have finished the root. */
  lemma FailureIsNew(db: Db, a: AttemptId)
    requires Inv(db) && Owned(db) && PR.Reviewable(db, a) && PR.Failing(PR.VerdictOn(db, a))
    ensures PR.EventOf(PR.VerdictOn(db, a)) !in db.outbox
  {
    var e := PR.EventOf(PR.VerdictOn(db, a));
    FailureIsNamed(db, a);
    if e in db.outbox {
      assert EventNamed(db.attempts, e, db.outbox[e]);
      FC.ActiveHasNoEvent(db, e);
    }
  }

  /** Two rows never share one: they would be two live attempts of one root. */
  lemma FailuresDiffer(db: Db, a: AttemptId, b: AttemptId)
    requires Inv(db) && Owned(db) && a != b && PR.Reviewable(db, a) && PR.Reviewable(db, b)
    requires PR.Failing(PR.VerdictOn(db, a)) && PR.Failing(PR.VerdictOn(db, b))
    ensures PR.EventOf(PR.VerdictOn(db, a)) != PR.EventOf(PR.VerdictOn(db, b))
  {
    FailureIsNamed(db, a);
    FailureIsNamed(db, b);
    InvOneLive(db);
    var m := db.attempts[a].memorial;
    assert IsLive(db.attempts, a, m) && !IsLive(db.attempts, b, m);
  }

  lemma ScanIsFree(db: Db, rows: seq<AttemptId>)
    requires Inv(db) && Owned(db) && PR.AllReviewable(db, rows)
    ensures PR.EventsFree(db, rows)
  {
    forall i | 0 <= i < |rows| && PR.Failing(PR.VerdictOn(db, rows[i]))
      ensures PR.EventOf(PR.VerdictOn(db, rows[i])) !in db.outbox
    {
      FailureIsNew(db, rows[i]);
    }
    forall i, j | 0 <= i < j < |rows| && PR.Failing(PR.VerdictOn(db, rows[i])) && PR.Failing(PR.VerdictOn(db, rows[j]))
      ensures PR.EventOf(PR.VerdictOn(db, rows[i])) != PR.EventOf(PR.VerdictOn(db, rows[j]))
    {
      FailuresDiffer(db, rows[i], rows[j]);
    }
  }

  /** In every state of every run a plan-review pass commits, whatever it scans. */
  lemma PassNeverRaises(
    cron: SR.CronNext, dbs: seq<Db>, steps: seq<Step>, i: nat, limit: int, rows: seq<AttemptId>, now: Time)
    requires Run(cron, dbs, steps) && i < |dbs| && PR.IsSuspendedScan(dbs[i], limit, rows)
    ensures PR.Review(dbs[i], rows, now).Committed?
  {
    RunInv(cron, dbs, steps, i);
    RunOwned(cron, dbs, steps, i);
    PR.ScanReviewable(dbs[i], limit, rows);
    ScanIsFree(dbs[i], rows);
    PR.ReviewWorks(dbs[i], rows, now);
  }
}
