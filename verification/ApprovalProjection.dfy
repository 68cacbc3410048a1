/**
 A writer outside the protocol: when a plan review is rejected or expires, the approval manager fails the root by
 itself, with no event and beside the suspended attempt (`executor/approvals.py`).
 */
module ApprovalProjection {
  import opened Durable
  import opened Invariant
  import opened AttemptLedger
  import FC = FencedCompletion
  import PR = PlanReview
  import RR = RunStateRepository

  predicate UnderReview(s: TaskStatus) {
    s.NeedsReview? || s.Planning?
  }

  function Early(db: Db, m: MemorialId): Db
    requires m in db.memorials
  {
    SetMemorial(db, m, db.memorials[m].(status := Failed))
  }

  /** The root is written back as failed if it was read under review or in planning. */
  function FailRoot(db: Db, m: MemorialId): Db {
    if m in db.memorials && UnderReview(db.memorials[m].status) then Early(db, m) else db
  }

  /** Until the next pass the root is finished, its attempt is live and no terminal event tells of it: what the
      protocol's own steps never leave behind. */
  lemma FailedWithoutEvent(db: Db, a: AttemptId, m: MemorialId)
    requires Inv(db) && IsLive(db.attempts, a, m) && db.memorials[m].status in {NeedsReview, Planning}
    ensures var next := FailRoot(db, m);
            && Root(next, m) && Terminal(next.memorials[m].status) && IsLive(next.attempts, a, m)
            && !HasTerminalEvent(next.outbox, m) && !Inv(next)
  {
    var next := FailRoot(db, m);
    assert AttemptWell(db.memorials, db.attempts[a]);
    if HasTerminalEvent(db.outbox, m) {
      var e :| TerminalEventFor(db.outbox, e, m);
      FC.ActiveHasNoEvent(db, e);
    }
    assert !AttemptWell(next.memorials, next.attempts[a]);
  }

  /** Equal in every table a pass writes. */
  predicate SameRows(x: Db, y: Db) {
    x.memorials == y.memorials && x.attempts == y.attempts && x.runStates == y.runStates && x.outbox == y.outbox
  }

  lemma SameVerdict(db: Db, a: AttemptId)
    requires PR.Rooted(db, a)
    ensures PR.VerdictOn(Early(db, db.attempts[a].memorial), a) == PR.VerdictOn(db, a)
  {
  }

  lemma SwappableCommutes(db: Db, m: MemorialId, candidate: RunState)
    requires m in db.memorials
    ensures RR.Swappable(Early(db, m), m, candidate) == RR.Swappable(db, m, candidate)
    ensures RR.Recoverable(Early(db, m), m, candidate) == RR.Recoverable(db, m, candidate)
  {
  }

  lemma ProjectCommutes(db: Db, m: MemorialId, v: PR.Verdict)
    requires m in db.memorials
    ensures PR.Project(Early(db, m), m, v) == Early(PR.Project(db, m, v), m)
  {
    if PR.Waits(db, m, v) {
      assert PR.Waits(Early(db, m), m, v);
    } else {
      assert !PR.Waits(Early(db, m), m, v);
    }
  }

  lemma EarlyTerminalized(db: Db, a: AttemptId, e: EventId, now: Time)
    requires PR.Reviewable(db, a)
    ensures var o := PR.Terminalize(Early(db, db.attempts[a].memorial), a, e, now);
            && (o.Committed? <==> e !in db.outbox)
            && (o.Committed? ==> && o.db.attempts == db.attempts[a := Retire(db.attempts[a], AttemptFailed)]
                                 && EarlyRows(db, o.db, db.attempts[a].memorial, e, now))
  {
    var m := db.attempts[a].memorial;
    if PR.HasState(Early(db, m), m) {
      PR.FailingState(Early(db, m), m, now);
    }
    PR.TerminalizeTables(Early(db, m), a, e, now);
    EarlyTables(db, a, now);
  }

  predicate EarlyRows(db: Db, next: Db, m: MemorialId, e: EventId, now: Time)
    requires m in db.memorials
  {
    && next.memorials == db.memorials[m := FC.Finished(db.memorials[m], Failed, None)]
    && next.runStates == PR.FailedStates(db, m, now)
    && next.outbox == db.outbox[e := Event(ExecutionFailed, db.memorials[m].edict, m, Plain)]
  }

  lemma TerminalizeAbsorbs(db: Db, a: AttemptId, e: EventId, now: Time)
    requires PR.Reviewable(db, a)
    ensures var x, y := PR.Terminalize(Early(db, db.attempts[a].memorial), a, e, now), PR.Terminalize(db, a, e, now);
            x.Committed? == y.Committed? && (x.Committed? ==> SameRows(x.db, y.db))
  {
    PR.TerminalizeWorks(db, a, e, now);
    EarlyTerminalized(db, a, e, now);
  }

  lemma EarlyTables(db: Db, a: AttemptId, now: Time)
    requires PR.Reviewable(db, a)
    ensures var m := db.attempts[a].memorial;
            var x := Early(db, m);
            && PR.FailedStates(x, m, now) == PR.FailedStates(db, m, now)
            && x.memorials[m := PR.FailedRoot(x.memorials[m])] == db.memorials[m := FC.Finished(db.memorials[m], Failed, None)]
            && x.memorials[m].edict == db.memorials[m].edict
  {
  }

  lemma RejectedIsTerminalize(db: Db, a: AttemptId, now: Time)
    requires PR.Reviewable(db, a) && PR.VerdictOn(db, a).Rejected?
    ensures var m, v := db.attempts[a].memorial, PR.VerdictOn(db, a);
            && PR.Reviewable(PR.Project(db, m, v), a)
            && PR.ReviewRow(db, a, now) == PR.Terminalize(PR.Project(db, m, v), a, PR.EventOf(v), now)
  {
    PR.ProjectWorks(db, a);
  }

  lemma EarlyIsTerminalize(db: Db, a: AttemptId, now: Time)
    requires PR.Reviewable(db, a) && PR.VerdictOn(db, a).Rejected?
    ensures var m, v := db.attempts[a].memorial, PR.VerdictOn(db, a);
            PR.ReviewRow(Early(db, m), a, now) == PR.Terminalize(PR.Project(Early(db, m), m, v), a, PR.EventOf(v), now)
  {
    var m, v := db.attempts[a].memorial, PR.VerdictOn(db, a);
    SameVerdict(db, a);
    PR.ProjectWorks(db, a);
    if PR.Waits(db, m, v) {
      SwappableCommutes(db, m, PR.Projected(db.runStates[m].state, v));
    }
  }

  /** The pass does not read the root's status: it sees the same rejection, and leaves exactly the rows it would have
      left without the early write. */
  lemma PassAbsorbsEarlyFailure(db: Db, a: AttemptId, now: Time)
    requires PR.Reviewable(db, a) && PR.VerdictOn(db, a).Rejected?
    ensures var x, y := PR.ReviewRow(FailRoot(db, db.attempts[a].memorial), a, now), PR.ReviewRow(db, a, now);
            x.Committed? == y.Committed? && (x.Committed? ==> SameRows(x.db, y.db))
  {
    var m, v := db.attempts[a].memorial, PR.VerdictOn(db, a);
    if UnderReview(db.memorials[m].status) {
      RejectedIsTerminalize(db, a, now);
      EarlyIsTerminalize(db, a, now);
      ProjectCommutes(db, m, v);
      TerminalizeAbsorbs(PR.Project(db, m, v), a, PR.EventOf(v), now);
    }
  }

  /** A cancellation in that window revokes the attempt, announces nothing and returns False: no pass scans the root
      again, and no terminal event is ever due for it. */
  lemma CancelInWindowIsSilent(db: Db, a: AttemptId, m: MemorialId, at: Time)
    requires Inv(db) && IsLive(db.attempts, a, m) && db.memorials[m].status in {NeedsReview, Planning}
    ensures var o := FC.CancelRoot(FailRoot(db, m), m, at);
            && o.Committed? && !o.value && o.db.outbox == db.outbox && !HasTerminalEvent(o.db.outbox, m)
            && Terminal(o.db.memorials[m].status) && forall b :: !IsLive(o.db.attempts, b, m)
  {
    FailedWithoutEvent(db, a, m);
  }
}
