/** At most one active root per edict under the skip policy, over whole runs of the protocol. */
module SkipPolicy {
  import opened Durable
  import opened Invariant
  import opened Protocol
  import MI = ManagedIngress
  import DG = DagRetry
  import SR = ScheduledRuns
  import ES = EdictSubmission

  predicate ActiveOf(ms: Memorials, m: MemorialId, e: EdictId) {
    ActiveIn(ms, m) && ms[m].edict == e
  }

  ghost predicate OneActive(ms: Memorials, e: EdictId) {
    forall m, n :: ActiveOf(ms, m, e) && ActiveOf(ms, n, e) ==> m == n
  }

  ghost predicate NoneActive(ms: Memorials, e: EdictId) {
    forall m :: !ActiveOf(ms, m, e)
  }

  ghost predicate EdictsKnown(db: Db) {
    forall m :: m in db.memorials ==> db.memorials[m].edict in db.edicts
  }

  /** The steps that may follow for edict `e`: no run-now fire, no retry of one of its DAGs, no start but a
      follow-up, and timer fires under the skip policy only.  All other steps are free. */
  predicate Permitted(db: Db, s: Step, e: EdictId) {
    match s
    case FiresManually(c) => c.job in db.jobs ==> db.jobs[c.job].edict != e
    case RetriesDag(c, _) => c.dag in db.dags ==> db.dags[c.dag].edict != e
    case Starts(c, _, _) => c.edict == e ==> c.eventType.FollowupSubmitted?
    case Fires(c) => SR.Serviceable(db, c.job) && db.jobs[c.job].edict == e ==> SR.EdictOf(db, c.job).schedule.policy.Skip?
    case _ => true
  }

  // ---------------------------------------------------------------- the shapes

  /** No root is added: the active ones can only become fewer. */
  lemma ShrinkKeeps(ms: Memorials, ns: Memorials, e: EdictId)
    requires OneActive(ms, e) && MemorialsAdvance(ms, ns)
    requires forall m :: RootIn(ns, m) ==> m in ms
    ensures OneActive(ns, e)
  {
    forall m | ActiveOf(ns, m, e) ensures ActiveOf(ms, m, e) {
      assert MemorialAdvances(ms[m], ns[m]);
    }
  }

  /** One root is added: to another edict, or where none was active. */
  lemma AddKeeps(ms: Memorials, m: MemorialId, row: Memorial, e: EdictId)
    requires OneActive(ms, e) && (row.edict == e ==> NoneActive(ms, e))
    ensures OneActive(ms[m := row], e)
  {
    var ns := ms[m := row];
    forall n, o | ActiveOf(ns, n, e) && ActiveOf(ns, o, e) ensures n == o {
      assert n != m ==> ActiveOf(ms, n, e);
      assert o != m ==> ActiveOf(ms, o, e);
    }
  }

  // ---------------------------------------------------------------- the steps

  lemma StartKeepsOne(db: Db, c: StartCommand, found: Option<MemorialId>, now: Time, e: EdictId)
    requires Inv(db) && OneActive(db.memorials, e) && (c.edict == e ==> c.eventType.FollowupSubmitted?)
    ensures OneActive(MI.Start(db, c, found, now).After(db).memorials, e)
  {
    if MI.RootOf(c) in db.memorials {
      MI.ReplayChangesNothing(db, c, found, now);
    } else if MI.Start(db, c, found, now).Committed? {
      MI.StartRoots(db, c, found, now);
      if c.edict == e {
        assert !MI.HasActiveRoot(db, e);
      }
      AddKeeps(db.memorials, MI.RootOf(c), MI.StartRow(c, found, now), e);
    }
  }

  lemma RetryKeepsOne(db: Db, c: DagRetryCommand, now: Time, e: EdictId)
    requires Inv(db) && OneActive(db.memorials, e) && (c.dag in db.dags ==> db.dags[c.dag].edict != e)
    ensures OneActive(DG.RetryDag(db, c, now).After(db).memorials, e)
  {
    if DG.RetryRoot(c) !in db.memorials && DG.RetryDag(db, c, now).Committed? {
      DG.RetryFreshMeans(db, c, now);
      DG.ClaimsRoots(db, DG.RetryFresh(db, c, now).db, c, now);
      AddKeeps(db.memorials, DG.RetryRoot(c), DG.RetryRow(db, c, now), e);
    }
  }

  lemma FireKeepsOne(db: Db, cron: SR.CronNext, c: SR.FireCommand, e: EdictId)
    requires Inv(db) && OneActive(db.memorials, e)
    requires SR.Serviceable(db, c.job) && db.jobs[c.job].edict == e ==> SR.EdictOf(db, c.job).schedule.policy.Skip?
    ensures OneActive(SR.Prepare(db, cron, c).After(db).memorials, e)
  {
    if SR.Prepare(db, cron, c).Committed? && TimerFire(c.job, c.at) !in db.fires {
      SR.PrepareFires(db, cron, c);
      SR.FiresRoots(db, SR.Prepare(db, cron, c).db, c, SR.CursorAfter(db, cron, c).at);
      if !SR.Skips(db, c) && c.initial.None? {
        if db.jobs[c.job].edict == e {
          NotSkippedMeansNone(db, cron, c);
        }
        AddKeeps(db.memorials, FireRoot(c.job, c.at), SR.ScheduledRoot(db, c.job, c.at), e);
      }
    }
  }

  lemma NotSkippedMeansNone(db: Db, cron: SR.CronNext, c: SR.FireCommand)
    requires SR.Serviceable(db, c.job) && SR.EdictOf(db, c.job).schedule.policy.Skip?
    requires SR.Prepare(db, cron, c).Committed? && TimerFire(c.job, c.at) !in db.fires
    requires !SR.Skips(db, c) && c.initial.None?
    ensures NoneActive(db.memorials, db.jobs[c.job].edict)
  {
    assert !SR.HasOtherActiveRoot(db, db.jobs[c.job].edict, None);
    forall m ensures !ActiveOf(db.memorials, m, db.jobs[c.job].edict) {
      assert ActiveOf(db.memorials, m, db.jobs[c.job].edict) ==> ActiveRoot(db, m);
    }
  }

  lemma ManualKeepsOne(db: Db, c: SR.ManualCommand, e: EdictId)
    requires Inv(db) && OneActive(db.memorials, e) && (c.job in db.jobs ==> db.jobs[c.job].edict != e)
    ensures OneActive(SR.PrepareManual(db, c).After(db).memorials, e)
  {
    if SR.PrepareManual(db, c).Committed? && ManualFire(c.job, c.key) !in db.fires {
      SR.ManualFires(db, c);
      SR.ManualRoots(db, SR.PrepareManual(db, c).db, c);
      AddKeeps(db.memorials, ManualRoot(c.job, c.key), SR.ScheduledRoot(db, c.job, c.at), e);
    }
  }

  lemma SubmitKeepsOne(db: Db, c: ES.Submit, draw: ES.Draw, e: EdictId)
    requires EdictsKnown(db) && OneActive(db.memorials, e)
    ensures OneActive(ES.SubmitOnce(db, c, draw).After(db).memorials, e)
  {
    if ES.SubmitOnce(db, c, draw).After(db) != db {
      AddKeeps(db.memorials, SubmittedRoot(draw.memorial), ES.RootRow(c, draw.now), e);
    }
  }

  lemma OthersKeepOne(db: Db, cron: SR.CronNext, s: Step, e: EdictId)
    requires Inv(db) && Enabled(db, s) && OneActive(db.memorials, e) && (IsQuiet(s) || s.Foreign?)
    ensures OneActive(Next(db, cron, s).memorials, e)
  {
    StepKeeps(db, cron, s);
    if !s.Foreign? {
      QuietSteps(db, cron, s);
    }
    ShrinkKeeps(db.memorials, Next(db, cron, s).memorials, e);
  }

  lemma StepKeepsOne(db: Db, cron: SR.CronNext, s: Step, e: EdictId)
    requires Inv(db) && EdictsKnown(db) && Enabled(db, s) && Permitted(db, s, e) && OneActive(db.memorials, e)
    ensures OneActive(Next(db, cron, s).memorials, e)
  {
    if s.Starts? {
      StartKeepsOne(db, s.start, s.found, s.now, e);
    } else if s.RetriesDag? {
      RetryKeepsOne(db, s.retry, s.now, e);
    } else if s.Fires? {
      FireKeepsOne(db, cron, s.fire, e);
    } else if s.FiresManually? {
      ManualKeepsOne(db, s.manual, e);
    } else if s.Submits? {
      SubmitKeepsOne(db, s.submit, s.draw, e);
    } else {
      OthersKeepOne(db, cron, s, e);
    }
  }

  // ---------------------------------------------------------------- every Memorial belongs to a stored edict

  ghost predicate NewKnown(db: Db, next: Db) {
    forall m :: m in next.memorials && m !in db.memorials ==> next.memorials[m].edict in next.edicts
  }

  lemma NewKnownKeeps(db: Db, next: Db)
    requires EdictsKnown(db) && NewKnown(db, next) && MemorialsAdvance(db.memorials, next.memorials)
    requires db.edicts.Keys <= next.edicts.Keys
    ensures EdictsKnown(next)
  {
    forall m | m in next.memorials ensures next.memorials[m].edict in next.edicts {
      if m in db.memorials {
        assert MemorialAdvances(db.memorials[m], next.memorials[m]);
      }
    }
  }

  lemma StartNewKnown(db: Db, c: StartCommand, found: Option<MemorialId>, now: Time)
    requires Inv(db)
    ensures NewKnown(db, MI.Start(db, c, found, now).After(db))
  {
    if MI.RootOf(c) in db.memorials {
      MI.ReplayChangesNothing(db, c, found, now);
    } else if MI.Start(db, c, found, now).Committed? {
      MI.StartRoots(db, c, found, now);
    }
  }

  lemma RetryNewKnown(db: Db, c: DagRetryCommand, now: Time)
    requires Inv(db)
    ensures NewKnown(db, DG.RetryDag(db, c, now).After(db))
  {
    if DG.RetryRoot(c) !in db.memorials && DG.RetryDag(db, c, now).Committed? {
      DG.RetryFreshMeans(db, c, now);
      DG.ClaimsRoots(db, DG.RetryFresh(db, c, now).db, c, now);
    }
  }

  lemma FireNewKnown(db: Db, cron: SR.CronNext, c: SR.FireCommand)
    requires Inv(db)
    ensures NewKnown(db, SR.Prepare(db, cron, c).After(db))
  {
    if SR.Prepare(db, cron, c).Committed? && TimerFire(c.job, c.at) !in db.fires {
      SR.PrepareFires(db, cron, c);
      SR.FiresRoots(db, SR.Prepare(db, cron, c).db, c, SR.CursorAfter(db, cron, c).at);
      SR.FiresTimers(db, SR.Prepare(db, cron, c).db, c, SR.CursorAfter(db, cron, c).at);
    }
  }

  lemma ManualNewKnown(db: Db, c: SR.ManualCommand)
    requires Inv(db)
    ensures NewKnown(db, SR.PrepareManual(db, c).After(db))
  {
    if SR.PrepareManual(db, c).Committed? && ManualFire(c.job, c.key) !in db.fires {
      SR.ManualFires(db, c);
      SR.ManualRoots(db, SR.PrepareManual(db, c).db, c);
      SR.ManualTimers(db, SR.PrepareManual(db, c).db, c);
    }
  }

  lemma SubmitNewKnown(db: Db, c: ES.Submit, draw: ES.Draw)
    ensures NewKnown(db, ES.SubmitOnce(db, c, draw).After(db))
  {
    if ES.SubmitOnce(db, c, draw).After(db) != db {
      assert ES.SubmitOnce(db, c, draw).db == ES.Inserted(db, c, draw);
    }
  }

  lemma StepKnown(db: Db, cron: SR.CronNext, s: Step)
    requires Inv(db) && EdictsKnown(db) && Enabled(db, s)
    ensures EdictsKnown(Next(db, cron, s))
  {
    StepKeeps(db, cron, s);
    if s.Starts? {
      StartNewKnown(db, s.start, s.found, s.now);
    } else if s.RetriesDag? {
      RetryNewKnown(db, s.retry, s.now);
    } else if s.Fires? {
      FireNewKnown(db, cron, s.fire);
    } else if s.FiresManually? {
      ManualNewKnown(db, s.manual);
    } else if s.Submits? {
      SubmitNewKnown(db, s.submit, s.draw);
    } else if !s.Foreign? {
      QuietSteps(db, cron, s);
    }
    NewKnownKeeps(db, Next(db, cron, s));
  }

  lemma {:induction false} RunKnown(cron: SR.CronNext, dbs: seq<Db>, steps: seq<Step>, i: nat)
    requires Run(cron, dbs, steps) && i < |dbs|
    ensures EdictsKnown(dbs[i])
  {
    if i > 0 {
      RunKnown(cron, dbs, steps, i - 1);
      KnownStep(cron, dbs, steps, i - 1);
    }
  }

  lemma KnownStep(cron: SR.CronNext, dbs: seq<Db>, steps: seq<Step>, i: nat)
    requires Run(cron, dbs, steps) && i < |steps| && EdictsKnown(dbs[i])
    ensures EdictsKnown(dbs[i + 1])
  {
    RunInv(cron, dbs, steps, i);
    assert StepAt(cron, dbs, steps, i);
    StepKnown(dbs[i], cron, steps[i]);
  }

  // ---------------------------------------------------------------- whole runs

  ghost predicate AllPermitted(dbs: seq<Db>, steps: seq<Step>, e: EdictId)
    requires |dbs| == |steps| + 1
  {
    forall i :: 0 <= i < |steps| ==> Permitted(dbs[i], steps[i], e)
  }

  /** Over every run made of permitted steps for the edict there is never more than one active root of it, the
      submitted one included. */
  lemma {:induction false} OneActiveRoot(cron: SR.CronNext, dbs: seq<Db>, steps: seq<Step>, e: EdictId, i: nat)
    requires Run(cron, dbs, steps) && AllPermitted(dbs, steps, e) && i < |dbs|
    ensures OneActive(dbs[i].memorials, e)
  {
    if i > 0 {
      OneActiveRoot(cron, dbs, steps, e, i - 1);
      OneActiveStep(cron, dbs, steps, e, i - 1);
    }
  }

  lemma OneActiveStep(cron: SR.CronNext, dbs: seq<Db>, steps: seq<Step>, e: EdictId, i: nat)
    requires Run(cron, dbs, steps) && i < |steps| && Permitted(dbs[i], steps[i], e) && OneActive(dbs[i].memorials, e)
    ensures OneActive(dbs[i + 1].memorials, e)
  {
    RunInv(cron, dbs, steps, i);
    RunKnown(cron, dbs, steps, i);
    assert StepAt(cron, dbs, steps, i);
    StepKeepsOne(dbs[i], cron, steps[i], e);
  }

  // ---------------------------------------------------------------- the ways around the policy

  /** A new active root leaves one active root of its edict exactly when there was none. */
  lemma AddsIffNone(ms: Memorials, m: MemorialId, row: Memorial)
    requires m !in ms && row.isRoot && !Terminal(row.status)
    ensures OneActive(ms[m := row], row.edict) <==> NoneActive(ms, row.edict)
  {
    var ns, e := ms[m := row], row.edict;
    assert ActiveOf(ns, m, e);
    if NoneActive(ms, e) {
      AddKeeps(ms, m, row, e);
    } else {
      var n :| ActiveOf(ms, n, e);
      assert ActiveOf(ns, n, e);
    }
  }

  /** A manual fire does not look at the policy: it leaves one active root exactly when there was none. */
  lemma ManualFireIgnoresPolicy(db: Db, c: SR.ManualCommand)
    requires Inv(db) && SR.PrepareManual(db, c).Committed? && ManualFire(c.job, c.key) !in db.fires
    ensures c.job in db.jobs
    ensures OneActive(SR.PrepareManual(db, c).db.memorials, db.jobs[c.job].edict) <==>
              NoneActive(db.memorials, db.jobs[c.job].edict)
  {
    SR.ManualFires(db, c);
    SR.ManualRoots(db, SR.PrepareManual(db, c).db, c);
    AddsIffNone(db.memorials, ManualRoot(c.job, c.key), SR.ScheduledRoot(db, c.job, c.at));
  }

  /** Nor does the first retry of a failed DAG under a key, whose own root is finished but not the edict's others. */
  lemma DagRetryIgnoresPolicy(db: Db, c: DagRetryCommand, now: Time)
    requires Inv(db) && DG.RetryDag(db, c, now).Committed? && DG.RetryRoot(c) !in db.memorials
    ensures c.dag in db.dags
    ensures OneActive(DG.RetryDag(db, c, now).db.memorials, db.dags[c.dag].edict) <==>
              NoneActive(db.memorials, db.dags[c.dag].edict)
  {
    DG.RetryFreshMeans(db, c, now);
    DG.ClaimsRoots(db, DG.RetryDag(db, c, now).db, c, now);
    AddsIffNone(db.memorials, DG.RetryRoot(c), DG.RetryRow(db, c, now));
  }

  /** Nor does the first start under a key; a follow-up alone asks for an edict without an active root. */
  lemma StartIgnoresPolicy(db: Db, c: StartCommand, found: Option<MemorialId>, now: Time)
    requires Inv(db) && MI.Start(db, c, found, now).Committed? && MI.RootOf(c) !in db.memorials
    ensures OneActive(MI.Start(db, c, found, now).db.memorials, c.edict) <==> NoneActive(db.memorials, c.edict)
    ensures c.eventType.FollowupSubmitted? ==> NoneActive(db.memorials, c.edict)
  {
    MI.StartRoots(db, c, found, now);
    AddsIffNone(db.memorials, MI.RootOf(c), MI.StartRow(c, found, now));
    if c.eventType.FollowupSubmitted? {
      assert !MI.HasActiveRoot(db, c.edict);
    }
  }
}
