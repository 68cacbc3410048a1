/** Plan review and decision continuation work on the same suspended attempts; each closes the door for the other. */
module SuspensionRace {
  import opened Durable
  import opened Invariant
  import opened AttemptLedger
  import CR = ContinuationRecovery
  import PR = PlanReview
  import FC = FencedCompletion

  /** There is no RunState of `m` that a resolved tool or outer-loop decision could move. */
  predicate Closed(rs: RunStates, m: MemorialId) {
    m in rs ==> !Open(rs[m])
  }

  lemma ClosedIsIdle(db: Db, ev: CR.ResolvedEvent, now: Time)
    requires ev.decision in db.decisions && Closed(db.runStates, db.decisions[ev.decision].memorial)
    ensures CR.Handle(db, ev, now).After(db) == db
    ensures CR.Handle(db, ev, now).Committed? ==> !CR.Handle(db, ev, now).value
  {
  }

  lemma FinishedIsIdle(db: Db, ev: CR.ResolvedEvent, now: Time)
    requires ev.decision in db.decisions
    requires var m := db.decisions[ev.decision].memorial; m in db.memorials && Terminal(db.memorials[m].status)
    ensures CR.Handle(db, ev, now).After(db) == db
    ensures CR.Handle(db, ev, now).Committed? ==> !CR.Handle(db, ev, now).value
  {
  }

  lemma LeavingCloses(db: Db, next: Db, a: AttemptId, now: Time)
    requires PR.Reviewable(db, a) && PR.Reviewed(db, next, a, now) && !PR.VerdictOn(db, a).Stay?
    ensures Closed(next.runStates, db.attempts[a].memorial)
  {
    var m, v := db.attempts[a].memorial, PR.VerdictOn(db, a);
    assert PR.RowOf(next.runStates, m) == PR.RowOf(PR.NextStates(db.runStates, m, db.memorials[m].edict, v, now), m);
  }

  /** A review pass that takes an attempt out of suspension, resumed or failed, closes its root's RunState. */
  lemma ReviewFirst(db: Db, rows: seq<AttemptId>, now: Time, i: nat)
    requires Inv(db) && PR.AllReviewable(db, rows) && PR.Review(db, rows, now).Committed? && i < |rows|
    requires !PR.VerdictOn(db, rows[i]).Stay?
    ensures Closed(PR.Review(db, rows, now).db.runStates, db.attempts[rows[i]].memorial)
  {
    PR.RowIsReviewed(db, rows, now, i);
    LeavingCloses(db, PR.Review(db, rows, now).db, rows[i], now);
  }

  /** Only the live attempt of the decision's root is moved, and it is not suspended afterwards. */
  ghost predicate Released(db: Db, next: Db, m: MemorialId) {
    exists a :: IsLive(db.attempts, a, m) && ReleasedBy(db, next, a)
  }

  ghost predicate ReleasedBy(db: Db, next: Db, a: AttemptId) {
    && a in next.attempts && !next.attempts[a].status.Suspended?
    && forall b :: b in next.attempts && b != a ==> b in db.attempts && next.attempts[b] == db.attempts[b]
  }

  lemma CancelReleases(db: Db, d: DecisionId, s: RunState, a: AttemptId, now: Time)
    requires CR.Supported(db, d) && a in db.attempts && ActiveRoot(db, db.decisions[d].memorial)
    requires CR.Cancel(db, d, s, a, now).Committed?
    ensures ReleasedBy(db, CR.Cancel(db, d, s, a, now).db, a)
  {
  }

  lemma WakeReleases(db: Db, a: AttemptId, now: Time)
    requires a in db.attempts
    ensures ReleasedBy(db, CR.Wake(db, a, now), a)
  {
    if db.attempts[a].status.Suspended? {
      assert CR.Wake(db, a, now).attempts == db.attempts[a := CR.Resumed(db.attempts[a], now)];
    } else {
      assert CR.Wake(db, a, now) == db;
    }
  }

  lemma ResumeReleases(db: Db, d: DecisionId, s: RunState, a: AttemptId, now: Time)
    requires CR.Supported(db, d) && a in db.attempts && CR.Resume(db, d, s, a, now).Committed?
    ensures ReleasedBy(db, CR.Resume(db, d, s, a, now).db, a)
  {
    CR.ResumeStateAside(db, db.decisions[d], d, s, now);
    WakeReleases(CR.ResumeState(db, db.decisions[d], d, s, now), a, now);
  }

  lemma ActReleases(db: Db, d: DecisionId, now: Time)
    requires CR.Supported(db, d) && ActiveRoot(db, db.decisions[d].memorial) && CR.Act(db, d, now).Committed?
    ensures Released(db, CR.Act(db, d, now).db, db.decisions[d].memorial)
  {
    var m := db.decisions[d].memorial;
    var s, a := db.runStates[m].state, LiveOf(db, m).value;
    if CR.IsCancel(db.decisions[d]) {
      CancelReleases(db, d, s, a, now);
    } else {
      ResumeReleases(db, d, s, a, now);
    }
  }

  /** No attempt of `m` is suspended. */
  ghost predicate Unsuspended(ts: Attempts, m: MemorialId) {
    forall a :: a in ts && ts[a].memorial == m ==> !ts[a].status.Suspended?
  }

  lemma ReleasedIsUnsuspended(db: Db, next: Db, m: MemorialId)
    requires OneLive(db) && Released(db, next, m)
    ensures Unsuspended(next.attempts, m)
  {
    var a :| IsLive(db.attempts, a, m) && ReleasedBy(db, next, a);
    forall b | b in next.attempts && next.attempts[b].memorial == m ensures !next.attempts[b].status.Suspended? {
      assert b != a ==> !IsLive(db.attempts, b, m);
    }
  }

  /** A delivery that acted on a root leaves it without a suspended attempt. */
  lemma ContinuationFirst(db: Db, ev: CR.ResolvedEvent, now: Time)
    requires Inv(db) && CR.Handle(db, ev, now).Committed? && CR.Handle(db, ev, now).value
    ensures Unsuspended(CR.Handle(db, ev, now).db.attempts, ev.memorial)
  {
    assert CR.Handle(db, ev, now) == CR.Act(db, ev.decision, now);
    ActReleases(db, ev.decision, now);
    InvOneLive(db);
    ReleasedIsUnsuspended(db, CR.Handle(db, ev, now).db, ev.memorial);
  }

  /** A plan-review decision is never acted on by the continuation service. */
  lemma KindsAreApart(db: Db, ev: CR.ResolvedEvent, now: Time)
    requires ev.decision in db.decisions && db.decisions[ev.decision].kind.PlanReviewDecision?
    ensures CR.Handle(db, ev, now) == Committed(db, false)
  {
  }
}
