/** Plan review and decision continuation over whole runs: what one service has ended the other leaves alone. */
module SuspensionRuns {
  import opened Durable
  import opened Invariant
  import opened AttemptLedger
  import opened RunStateWriters
  import opened Protocol
  import opened SuspensionRace
  import CR = ContinuationRecovery
  import PR = PlanReview
  import SR = ScheduledRuns

  // ---------------------------------------------------------------- a closed RunState stays closed

  /** The step is a write of this root's RunState by its runner, with or without authority. */
  predicate RunnerWrites(db: Db, s: Step, m: MemorialId) {
    || (s.Drafts? && s.root == m)
    || (s.Saves? && s.auth.attempt in db.attempts && db.attempts[s.auth.attempt].memorial == m)
  }

  lemma ClosedUnderService(rs: RunStates, ss: RunStates, m: MemorialId)
    requires StatesAdvance(rs, ss) && Closed(rs, m)
    ensures Closed(ss, m)
  {
    if m in ss {
      assert RowAdvances(rs[m], ss[m]);
    }
  }

  lemma ClosedUnderForeign(rs: RunStates, ss: RunStates, m: MemorialId)
    requires MayCorrupt(rs, ss) && Closed(rs, m)
    ensures Closed(ss, m)
  {
    if m in ss {
      assert Corrupted(rs[m], ss[m]);
    }
  }

  lemma ClosedUnderSave(db: Db, auth: Authority, now: Time, candidate: RunState, m: MemorialId)
    requires Closed(db.runStates, m) && (auth.attempt in db.attempts ==> db.attempts[auth.attempt].memorial != m)
    ensures Closed(SaveState(db, auth, now, candidate).After(db).runStates, m)
  {
    SaveWritesOnly(db, auth, now, candidate);
  }

  lemma ClosedUnderDraft(db: Db, root: MemorialId, candidate: RunState, m: MemorialId)
    requires Closed(db.runStates, m) && root != m
    ensures Closed(DraftState(db, root, candidate).After(db).runStates, m)
  {
    DraftWritesOnly(db, root, candidate);
  }

  /** Only the runner's own write can open a root's RunState. */
  lemma StaysClosed(db: Db, cron: SR.CronNext, s: Step, m: MemorialId)
    requires Inv(db) && Enabled(db, s) && Closed(db.runStates, m) && !RunnerWrites(db, s, m)
    ensures Closed(Next(db, cron, s).runStates, m)
  {
    if s.Saves? {
      ClosedUnderSave(db, s.auth, s.now, s.candidate, m);
    } else if s.Drafts? {
      ClosedUnderDraft(db, s.root, s.candidate, m);
    } else if s.Foreign? {
      ClosedUnderForeign(db.runStates, s.after.runStates, m);
    } else {
      ServiceConserves(db, cron, s);
      ClosedUnderService(db.runStates, Next(db, cron, s).runStates, m);
    }
  }

  /** The runner of `m` does not write its RunState between `i` and `j`. */
  ghost predicate NoRunnerWrites(dbs: seq<Db>, steps: seq<Step>, i: nat, j: nat, m: MemorialId)
    requires |dbs| == |steps| + 1 && i <= j <= |steps|
  {
    forall k :: i <= k < j ==> !RunnerWrites(dbs[k], steps[k], m)
  }

  lemma ClosedStep(cron: SR.CronNext, dbs: seq<Db>, steps: seq<Step>, i: nat, m: MemorialId)
    requires Run(cron, dbs, steps) && i < |steps| && Closed(dbs[i].runStates, m) && !RunnerWrites(dbs[i], steps[i], m)
    ensures Closed(dbs[i + 1].runStates, m)
  {
    RunInv(cron, dbs, steps, i);
    assert StepAt(cron, dbs, steps, i);
    StaysClosed(dbs[i], cron, steps[i], m);
  }

  lemma {:induction false} ClosedLasts(cron: SR.CronNext, dbs: seq<Db>, steps: seq<Step>, i: nat, j: nat, m: MemorialId)
    requires Run(cron, dbs, steps) && i <= j < |dbs| && Closed(dbs[i].runStates, m)
    requires NoRunnerWrites(dbs, steps, i, j, m)
    ensures Closed(dbs[j].runStates, m)
    decreases j
  {
    if i < j {
      ClosedLasts(cron, dbs, steps, i, j - 1, m);
      ClosedStep(cron, dbs, steps, j - 1, m);
    }
  }

  /** Step `i` is a committed pass that takes an attempt of root `m` out of suspension. */
  ghost predicate PassReleases(dbs: seq<Db>, steps: seq<Step>, i: nat, m: MemorialId)
    requires |dbs| == |steps| + 1 && i < |steps|
  {
    && steps[i].Reviews? && PR.Review(dbs[i], steps[i].rows, steps[i].now).Committed?
    && exists k :: 0 <= k < |steps[i].rows| && LeavesRoot(dbs[i], steps[i].rows[k], m)
  }

  predicate LeavesRoot(db: Db, a: AttemptId, m: MemorialId) {
    a in db.attempts && db.attempts[a].memorial == m && !PR.VerdictOn(db, a).Stay?
  }

  lemma PassCloses(cron: SR.CronNext, dbs: seq<Db>, steps: seq<Step>, i: nat, m: MemorialId)
    requires Run(cron, dbs, steps) && i < |steps| && PassReleases(dbs, steps, i, m)
    ensures Closed(dbs[i + 1].runStates, m)
  {
    RunInv(cron, dbs, steps, i);
    assert StepAt(cron, dbs, steps, i);
    PR.ScanReviewable(dbs[i], steps[i].limit, steps[i].rows);
    var k :| 0 <= k < |steps[i].rows| && LeavesRoot(dbs[i], steps[i].rows[k], m);
    ReviewFirst(dbs[i], steps[i].rows, steps[i].now, k);
  }

  /** Once a review pass has taken an attempt out of suspension, every delivery of any decision of that root, at any
      later point of the run before the runner writes the root's RunState again, changes nothing and never returns
      True, whatever other steps come between. */
  lemma ReviewedRootIgnoresDeliveries(
    cron: SR.CronNext, dbs: seq<Db>, steps: seq<Step>, i: nat, j: nat, ev: CR.ResolvedEvent, now: Time)
    requires Run(cron, dbs, steps) && i < j < |dbs| && ev.decision in dbs[j].decisions
    requires PassReleases(dbs, steps, i, dbs[j].decisions[ev.decision].memorial)
    requires NoRunnerWrites(dbs, steps, i + 1, j, dbs[j].decisions[ev.decision].memorial)
    ensures CR.Handle(dbs[j], ev, now).After(dbs[j]) == dbs[j]
    ensures CR.Handle(dbs[j], ev, now).Committed? ==> !CR.Handle(dbs[j], ev, now).value
  {
    PassCloses(cron, dbs, steps, i, dbs[j].decisions[ev.decision].memorial);
    ClosedRootIgnoresDeliveries(cron, dbs, steps, i + 1, j, ev, now);
  }

  /** The same from any point at which the root's RunState is closed. */
  lemma ClosedRootIgnoresDeliveries(
    cron: SR.CronNext, dbs: seq<Db>, steps: seq<Step>, i: nat, j: nat, ev: CR.ResolvedEvent, now: Time)
    requires Run(cron, dbs, steps) && i <= j < |dbs| && ev.decision in dbs[j].decisions
    requires Closed(dbs[i].runStates, dbs[j].decisions[ev.decision].memorial)
    requires NoRunnerWrites(dbs, steps, i, j, dbs[j].decisions[ev.decision].memorial)
    ensures CR.Handle(dbs[j], ev, now).After(dbs[j]) == dbs[j]
    ensures CR.Handle(dbs[j], ev, now).Committed? ==> !CR.Handle(dbs[j], ev, now).value
  {
    ClosedLasts(cron, dbs, steps, i, j, dbs[j].decisions[ev.decision].memorial);
    ClosedIsIdle(dbs[j], ev, now);
  }

  // ---------------------------------------------------------------- a released root stays unsuspended

  /** The step is a suspension of an attempt of this root. */
  predicate SuspendsRoot(db: Db, s: Step, m: MemorialId) {
    s.Suspends? && s.auth.attempt in db.attempts && db.attempts[s.auth.attempt].memorial == m
  }

  lemma UnparkedIsUnsuspended(ts: Attempts, us: Attempts, m: MemorialId)
    requires Unparked(ts, us) && Unsuspended(ts, m)
    ensures Unsuspended(us, m)
  {
  }

  lemma UnsuspendedUnderSuspend(db: Db, auth: Authority, now: Time, m: MemorialId)
    requires Unsuspended(db.attempts, m) && (auth.attempt in db.attempts ==> db.attempts[auth.attempt].memorial != m)
    ensures Unsuspended(Suspend(db, auth, now).After(db).attempts, m)
  {
  }

  /** Only a suspension of the root's own attempt suspends one. */
  lemma StaysUnsuspended(db: Db, cron: SR.CronNext, s: Step, m: MemorialId)
    requires Inv(db) && Enabled(db, s) && Unsuspended(db.attempts, m) && !SuspendsRoot(db, s, m)
    ensures Unsuspended(Next(db, cron, s).attempts, m)
  {
    if s.Suspends? {
      UnsuspendedUnderSuspend(db, s.auth, s.now, m);
    } else if s.Saves? || s.Drafts? {
      RunnerFinishesNothing(db, cron, s);
    } else if !s.Foreign? {
      ServiceKeeps(db, cron, s);
      UnparkedIsUnsuspended(db.attempts, Next(db, cron, s).attempts, m);
    }
  }

  ghost predicate NoSuspension(dbs: seq<Db>, steps: seq<Step>, i: nat, j: nat, m: MemorialId)
    requires |dbs| == |steps| + 1 && i <= j <= |steps|
  {
    forall k :: i <= k < j ==> !SuspendsRoot(dbs[k], steps[k], m)
  }

  lemma UnsuspendedStep(cron: SR.CronNext, dbs: seq<Db>, steps: seq<Step>, i: nat, m: MemorialId)
    requires Run(cron, dbs, steps) && i < |steps| && Unsuspended(dbs[i].attempts, m) && !SuspendsRoot(dbs[i], steps[i], m)
    ensures Unsuspended(dbs[i + 1].attempts, m)
  {
    RunInv(cron, dbs, steps, i);
    assert StepAt(cron, dbs, steps, i);
    StaysUnsuspended(dbs[i], cron, steps[i], m);
  }

  lemma {:induction false} UnsuspendedLasts(cron: SR.CronNext, dbs: seq<Db>, steps: seq<Step>, i: nat, j: nat, m: MemorialId)
    requires Run(cron, dbs, steps) && i <= j < |dbs| && Unsuspended(dbs[i].attempts, m)
    requires NoSuspension(dbs, steps, i, j, m)
    ensures Unsuspended(dbs[j].attempts, m)
    decreases j
  {
    if i < j {
      UnsuspendedLasts(cron, dbs, steps, i, j - 1, m);
      UnsuspendedStep(cron, dbs, steps, j - 1, m);
    }
  }

  lemma DeliveryReleases(cron: SR.CronNext, dbs: seq<Db>, steps: seq<Step>, i: nat, ev: CR.ResolvedEvent, now: Time)
    requires Run(cron, dbs, steps) && i < |steps| && steps[i] == Resolves(ev, now)
    requires CR.Handle(dbs[i], ev, now).Committed? && CR.Handle(dbs[i], ev, now).value
    ensures Unsuspended(dbs[i + 1].attempts, ev.memorial)
  {
    RunInv(cron, dbs, steps, i);
    assert StepAt(cron, dbs, steps, i);
    ContinuationFirst(dbs[i], ev, now);
  }

  /** Once a delivery has acted on a root, no review pass at any later point of the run, before an attempt of that
      root is suspended again, scans an attempt of it. */
  lemma ContinuedRootEscapesReview(
    cron: SR.CronNext, dbs: seq<Db>, steps: seq<Step>, i: nat, j: nat, ev: CR.ResolvedEvent, now: Time, limit: int,
    rows: seq<AttemptId>, k: nat)
    requires Run(cron, dbs, steps) && i < j < |dbs| && steps[i] == Resolves(ev, now)
    requires CR.Handle(dbs[i], ev, now).Committed? && CR.Handle(dbs[i], ev, now).value
    requires NoSuspension(dbs, steps, i + 1, j, ev.memorial)
    requires PR.IsSuspendedScan(dbs[j], limit, rows) && k < |rows|
    ensures dbs[j].attempts[rows[k]].memorial != ev.memorial
  {
    DeliveryReleases(cron, dbs, steps, i, ev, now);
    UnsuspendedLasts(cron, dbs, steps, i + 1, j, ev.memorial);
  }

  // ---------------------------------------------------------------- one suspension ends once

  /** Step `i` ends the suspension that row `t` of attempt `a` stands for. */
  predicate EndsSuspension(dbs: seq<Db>, i: nat, a: AttemptId, t: Attempt)
    requires i + 1 < |dbs|
  {
    && t.status.Suspended? && a in dbs[i].attempts && dbs[i].attempts[a] == t
    && (a in dbs[i + 1].attempts ==> dbs[i + 1].attempts[a] != t)
  }

  /** Whichever service ends a suspension, it is ended by one step of the run only. */
  lemma SuspensionEndsOnce(cron: SR.CronNext, dbs: seq<Db>, steps: seq<Step>, i: nat, j: nat, a: AttemptId, t: Attempt)
    requires Run(cron, dbs, steps) && i < |steps| && j < |steps|
    requires EndsSuspension(dbs, i, a, t) && EndsSuspension(dbs, j, a, t)
    ensures i == j
  {
    if i < j {
      LeftForGood(cron, dbs, steps, i, j, a);
    } else if j < i {
      LeftForGood(cron, dbs, steps, j, i, a);
    }
  }

  lemma LeftForGood(cron: SR.CronNext, dbs: seq<Db>, steps: seq<Step>, i: nat, j: nat, a: AttemptId)
    requires Run(cron, dbs, steps) && i < j < |dbs| && a in dbs[i].attempts
    requires a in dbs[i + 1].attempts ==> dbs[i + 1].attempts[a] != dbs[i].attempts[a]
    ensures a in dbs[j].attempts && dbs[j].attempts[a] != dbs[i].attempts[a]
  {
    RunAdvances(cron, dbs, steps, i, i + 1);
    RunAdvances(cron, dbs, steps, i + 1, j);
    assert AttemptAdvances(dbs[i].attempts[a], dbs[i + 1].attempts[a]);
    assert AttemptAdvances(dbs[i + 1].attempts[a], dbs[j].attempts[a]);
  }

  // ---------------------------------------------------------------- RunStates of finished roots

  /** Row `j` of the run holds a RunState of `m` that matches its root. */
  predicate MatchesAt(db: Db, m: MemorialId) {
    m in db.runStates && m in db.memorials && RowMatches(db.runStates[m], db.memorials[m])
  }

  lemma RowStays(cron: SR.CronNext, dbs: seq<Db>, steps: seq<Step>, i: nat, j: nat, m: MemorialId)
    requires Run(cron, dbs, steps) && i <= j < |dbs| && m in dbs[i].runStates
    ensures m in dbs[j].runStates
    ensures MatchesAt(dbs[i], m) ==> MatchesAt(dbs[j], m)
  {
    RunAdvances(cron, dbs, steps, i, j);
  }

  /** A RunState stored before its root is finished matches the root for ever: once finished, it is in the terminal
      phase of the root's status with nothing pending, unless it no longer decodes. */
  lemma EarlyRowMatches(cron: SR.CronNext, dbs: seq<Db>, steps: seq<Step>, i: nat, j: nat, m: MemorialId)
    requires Run(cron, dbs, steps) && i <= j < |dbs| && m in dbs[i].runStates && !Finished(dbs[i], m)
    ensures MatchesAt(dbs[j], m)
  {
    RunInv(cron, dbs, steps, i);
    assert MatchesAt(dbs[i], m);
    RowStays(cron, dbs, steps, i, j, m);
  }

  lemma RunnerFinishesNothing(db: Db, cron: SR.CronNext, s: Step)
    requires Enabled(db, s) && (s.Saves? || s.Drafts?)
    ensures Next(db, cron, s).memorials == db.memorials && Next(db, cron, s).attempts == db.attempts
  {
    if s.Saves? {
      SaveWritesOnly(db, s.auth, s.now, s.candidate);
    } else {
      DraftWritesOnly(db, s.root, s.candidate);
    }
  }

  lemma ForeignFinishesNothing(db: Db, next: Db, m: MemorialId)
    requires ForeignStep(db, next) && !Finished(db, m)
    ensures !Finished(next, m)
  {
    assert SameTerminals(db.memorials, next.memorials);
  }

  lemma FinisherIsService(db: Db, cron: SR.CronNext, s: Step, m: MemorialId)
    requires Inv(db) && Enabled(db, s) && !Finished(db, m) && Finished(Next(db, cron, s), m)
    ensures IsService(s)
  {
    if s.Foreign? {
      ForeignFinishesNothing(db, s.after, m);
    } else if s.Saves? || s.Drafts? {
      RunnerFinishesNothing(db, cron, s);
    }
  }

  lemma FinisherCreatesNoRow(cron: SR.CronNext, dbs: seq<Db>, steps: seq<Step>, i: nat, m: MemorialId)
    requires Run(cron, dbs, steps) && i < |steps| && !Finished(dbs[i], m) && Finished(dbs[i + 1], m)
    ensures m in dbs[i + 1].runStates ==> m in dbs[i].runStates
  {
    RunInv(cron, dbs, steps, i);
    assert StepAt(cron, dbs, steps, i);
    FinisherIsService(dbs[i], cron, steps[i], m);
    ServiceConserves(dbs[i], cron, steps[i]);
  }

  lemma SaveIsEarly(db: Db, auth: Authority, now: Time, candidate: RunState, m: MemorialId)
    requires Inv(db) && Finished(db, m) && m !in db.runStates
    ensures m !in SaveState(db, auth, now, candidate).After(db).runStates
  {
    SaveWritesOnly(db, auth, now, candidate);
    if Current(db, auth, now) {
      assert AttemptWell(db.memorials, db.attempts[auth.attempt]);
    }
  }

  lemma LateRowIsDraft(db: Db, cron: SR.CronNext, s: Step, m: MemorialId)
    requires Inv(db) && Enabled(db, s) && Finished(db, m) && m !in db.runStates && m in Next(db, cron, s).runStates
    ensures s.Drafts? && s.root == m && DraftState(db, m, s.candidate).Committed?
  {
    if s.Saves? {
      SaveIsEarly(db, s.auth, s.now, s.candidate, m);
    } else if IsService(s) {
      ServiceCreatesNoRow(db, cron, s, m);
    } else if s.Drafts? {
      LateDraft(db, s.root, s.candidate, m);
    }
  }

  lemma ServiceCreatesNoRow(db: Db, cron: SR.CronNext, s: Step, m: MemorialId)
    requires Inv(db) && Enabled(db, s) && IsService(s) && m !in db.runStates
    ensures m !in Next(db, cron, s).runStates
  {
    ServiceConserves(db, cron, s);
  }

  lemma LateDraft(db: Db, root: MemorialId, candidate: RunState, m: MemorialId)
    requires m !in db.runStates && m in DraftState(db, root, candidate).After(db).runStates
    ensures root == m && DraftState(db, root, candidate).Committed?
  {
    DraftWritesOnly(db, root, candidate);
  }

  lemma DraftMismatches(db: Db, m: MemorialId, candidate: RunState)
    requires Finished(db, m) && m !in db.runStates && DraftState(db, m, candidate).Committed?
    ensures !MatchesAt(DraftState(db, m, candidate).db, m)
  {
  }

  /** A RunState created under a finished root does not match it. */
  lemma LateRowMismatches(cron: SR.CronNext, dbs: seq<Db>, steps: seq<Step>, i: nat, m: MemorialId)
    requires Run(cron, dbs, steps) && i < |steps| && Finished(dbs[i], m)
    requires m !in dbs[i].runStates && m in dbs[i + 1].runStates
    ensures !MatchesAt(dbs[i + 1], m)
  {
    RunInv(cron, dbs, steps, i);
    assert StepAt(cron, dbs, steps, i);
    LateRowIsDraft(dbs[i], cron, steps[i], m);
    DraftMismatches(dbs[i], m, steps[i].candidate);
  }

  /** The RunState of a root that step `f` finishes matches the root in every state up to `e`, wherever there is one. */
  ghost predicate MatchesThroughout(dbs: seq<Db>, f: nat, e: nat, m: MemorialId)
    requires f < e < |dbs|
  {
    forall j :: f < j <= e && m in dbs[j].runStates ==> MatchesAt(dbs[j], m)
  }

  lemma {:induction false} CreatedBetween(dbs: seq<Db>, i: nat, j: nat, m: MemorialId) returns (k: nat)
    requires i <= j < |dbs| && m !in dbs[i].runStates && m in dbs[j].runStates
    ensures i <= k < j && m !in dbs[k].runStates && m in dbs[k + 1].runStates
    decreases j - i
  {
    if m in dbs[i + 1].runStates {
      k := i;
    } else {
      k := CreatedBetween(dbs, i + 1, j, m);
    }
  }

  lemma FinishedStays(cron: SR.CronNext, dbs: seq<Db>, steps: seq<Step>, i: nat, j: nat, m: MemorialId)
    requires Run(cron, dbs, steps) && i <= j < |dbs| && Finished(dbs[i], m)
    ensures Finished(dbs[j], m)
  {
    RunAdvances(cron, dbs, steps, i, j);
    assert MemorialAdvances(dbs[i].memorials[m], dbs[j].memorials[m]);
  }

  /** Exactly when the RunStates of finished roots match: after the step that finishes a root, its RunState matches
      it throughout if and only if a row was there at that step, or none has been written since.  The unfenced saves
      of the planner and the tools look at neither claim nor root, and can write one later. */
  lemma MatchesIffNotLate(cron: SR.CronNext, dbs: seq<Db>, steps: seq<Step>, f: nat, e: nat, m: MemorialId)
    requires Run(cron, dbs, steps) && f < e < |dbs| && !Finished(dbs[f], m) && Finished(dbs[f + 1], m)
    ensures MatchesThroughout(dbs, f, e, m) <==> m in dbs[f].runStates || m !in dbs[e].runStates
  {
    if m in dbs[f].runStates {
      forall j | f < j <= e && m in dbs[j].runStates ensures MatchesAt(dbs[j], m) {
        EarlyRowMatches(cron, dbs, steps, f, j, m);
      }
    } else if m !in dbs[e].runStates {
      forall j | f < j <= e ensures m !in dbs[j].runStates {
        if m in dbs[j].runStates { RowStays(cron, dbs, steps, j, e, m); }
      }
    } else {
      FinisherCreatesNoRow(cron, dbs, steps, f, m);
      var k := CreatedBetween(dbs, f + 1, e, m);
      FinishedStays(cron, dbs, steps, f + 1, k, m);
      LateRowMismatches(cron, dbs, steps, k, m);
    }
  }
}
