/** Convergence of plan-review decisions and suspended attempts: `application/plan_review_lifecycle.py`. */
module PlanReview {
  import opened Durable
  import opened Invariant
  import opened AttemptLedger
  import opened RunStateRepository
  import opened FencedCompletion

  type Decisions = map<DecisionId, Decision>

  /** What the pass finds out about one suspended attempt. */
  datatype Verdict =
    | Stay
    | Approved(decision: DecisionId, at: Time)
    | Rejected(decision: DecisionId, at: Time)
    | Invalid(identity: PlanIdentity)

  predicate Failing(v: Verdict) {
    v.Rejected? || v.Invalid?
  }

  /** `_decision_id` */
  function DecisionIdOf(s: RunState): Option<DecisionId> {
    match s.phase
    case PhaseWaiting => s.pending
    case PhasePlanning => s.resolved
    case PhaseFailed => s.resolved
    case _ => None
  }

  predicate Approves(r: Decision) {
    r.status.Resolved? && r.status.action.Approve?
  }

  predicate PlanBound(s: RunState, r: Decision) {
    && s.kind.AgentContinuation?
    && r.plan.Some?
    && s.plan == Some(PlanBinding(r.plan.value.planRef, r.plan.value.planHash))
    && HashOf(r.plan.value.document) == r.plan.value.planHash
  }

  /** `_binding_error` finds nothing wrong with state `s` of root `m` and its decision `d`. */
  predicate Bound(ds: Decisions, m: MemorialId, root: Memorial, s: RunState, d: DecisionId) {
    && d in ds
    && var r := ds[d];
       && r.kind.PlanReviewDecision? && r.memorial == m && r.edict == s.edict
       && root.isRoot && root.edict == r.edict
       && PlanBound(s, r)
       && if s.phase.PhaseWaiting? then s.pending == Some(d) && s.resolved.None?
          else && !r.status.Pending?
               && s.phase == (if Approves(r) then PhasePlanning else PhaseFailed)
               && s.pending.None? && s.resolved == Some(d)
  }

  function DecidedAt(r: Decision): Time {
    if r.status.Resolved? then r.status.resolvedAt else r.updatedAt
  }

  function StateVerdict(ds: Decisions, a: AttemptId, m: MemorialId, root: Memorial, s: RunState): Verdict {
    match DecisionIdOf(s)
    case None => Invalid(ByAttempt(a))
    case Some(d) =>
      if !Bound(ds, m, root, s, d) then Invalid(ByDecision(d))
      else if ds[d].status.Pending? then Stay
      else if Approves(ds[d]) then Approved(d, DecidedAt(ds[d]))
      else Rejected(d, DecidedAt(ds[d]))
  }

  function RowVerdict(ds: Decisions, a: AttemptId, m: MemorialId, root: Memorial, row: Option<RunRow>): Verdict {
    if row.Some? && row.value.Decoded? then StateVerdict(ds, a, m, root, row.value.state) else Invalid(ByAttempt(a))
  }

  function RowOf(rs: RunStates, m: MemorialId): Option<RunRow> {
    if m in rs then Some(rs[m]) else None
  }

  /** The attempt belongs to a root: the ledger admits no other. */
  predicate Rooted(db: Db, a: AttemptId) {
    a in db.attempts && Root(db, db.attempts[a].memorial)
  }

  function VerdictOn(db: Db, a: AttemptId): Verdict {
    if !Rooted(db, a) then Invalid(ByAttempt(a))
    else
      var m := db.attempts[a].memorial;
      RowVerdict(db.decisions, a, m, db.memorials[m], RowOf(db.runStates, m))
  }

  function EventOf(v: Verdict): EventId
    requires Failing(v)
  {
    match v
    case Rejected(d, _) => PlanFailedEvent(ByDecision(d), ReviewRejected)
    case Invalid(identity) => PlanFailedEvent(identity, BindingInvalid)
  }

  // ---------------------------------------------------------------- one row

  function Projected(s: RunState, v: Verdict): RunState
    requires v.Approved? || v.Rejected?
  {
    s.(phase := if v.Approved? then PhasePlanning else PhaseFailed, pending := None,
       resolved := Some(v.decision), updatedAt := Max(s.updatedAt, v.at))
  }

  function Unbound(s: RunState, edict: EdictId, now: Time): RunState {
    s.(edict := edict, phase := PhaseFailed, pending := None, updatedAt := Max(now, s.updatedAt))
  }

  function Reopened(t: Attempt, at: Time): Attempt {
    t.(status := Claimable, availableAt := at, version := t.version + 1)
  }

  /** The decision is still to be projected onto the RunState. */
  predicate Waits(db: Db, m: MemorialId, v: Verdict) {
    (v.Approved? || v.Rejected?) && m in db.runStates && db.runStates[m].Decoded? && db.runStates[m].state.phase.PhaseWaiting?
  }

  predicate HasState(db: Db, m: MemorialId) {
    m in db.runStates && db.runStates[m].Decoded?
  }

  /** `_terminalize` */
  function Terminalize(db: Db, a: AttemptId, e: EventId, now: Time): Outcome<nat>
    requires Rooted(db, a)
  {
    var m := db.attempts[a].memorial;
    var root := db.memorials[m];
    if !db.attempts[a].status.Suspended? then Raised(Conflict)
    else if HasState(db, m) && !CanFail(db, m, now) then Raised(Conflict)
    else if e in db.outbox then Raised(Conflict)
    else Committed(Settle(db, m, FailedRoot(root), db.attempts[a := Retire(db.attempts[a], AttemptFailed)],
                          FailedStates(db, m, now), e, Event(ExecutionFailed, root.edict, m, Plain)), 1)
  }

  /** A RunState of the root's edict is swapped, one of another edict is recovered. */
  predicate CanFail(db: Db, m: MemorialId, now: Time)
    requires HasState(db, m) && m in db.memorials
  {
    var candidate := Unbound(db.runStates[m].state, db.memorials[m].edict, now);
    if db.runStates[m].state.edict == db.memorials[m].edict
    then Swappable(db, m, candidate) else Recoverable(db, m, candidate)
  }

  function FailedStates(db: Db, m: MemorialId, now: Time): RunStates
    requires m in db.memorials
  {
    if HasState(db, m)
    then db.runStates[m := Decoded(Saved(Unbound(db.runStates[m].state, db.memorials[m].edict, now)))]
    else db.runStates
  }

  /** The update spares completed and cancelled roots only. */
  function FailedRoot(root: Memorial): Memorial {
    if root.status.Completed? || root.status.Cancelled? then root else Finished(root, Failed, None)
  }

  function PlanningRoot(root: Memorial): Memorial {
    if Terminal(root.status) then root else root.(status := Planning)
  }

  /** `_resume` and the update of the root after it */
  function Readmit(db: Db, a: AttemptId, at: Time): Outcome<nat>
    requires Rooted(db, a)
  {
    var m := db.attempts[a].memorial;
    if !db.attempts[a].status.Suspended? then Raised(Conflict)
    else Committed(SetMemorial(Update(db, a, Reopened(db.attempts[a], at)), m, PlanningRoot(db.memorials[m])), 1)
  }

  function Project(db: Db, m: MemorialId, v: Verdict): (next: Db)
    ensures next.attempts == db.attempts && next.memorials == db.memorials && next.outbox == db.outbox
    ensures next.decisions == db.decisions
  {
    if Waits(db, m, v) then Swap(db, m, Projected(db.runStates[m].state, v)) else db
  }

  /** One iteration of the loop. */
  function ReviewRow(db: Db, a: AttemptId, now: Time): Outcome<nat> {
    if !Rooted(db, a) then Raised(Unavailable)
    else
      var m := db.attempts[a].memorial;
      var v := VerdictOn(db, a);
      if v.Stay? then Committed(db, 0)
      else if Waits(db, m, v) && !Swappable(db, m, Projected(db.runStates[m].state, v)) then Raised(Conflict)
      else if v.Approved? then Readmit(Project(db, m, v), a, Max(now, v.at))
      else Terminalize(Project(db, m, v), a, EventOf(v), now)
  }

  // ---------------------------------------------------------------- what becomes of one row

  function NextAttempt(t: Attempt, v: Verdict, now: Time): Attempt {
    match v
    case Stay => t
    case Approved(_, at) => Reopened(t, Max(now, at))
    case _ => Retire(t, AttemptFailed)
  }

  function NextRoot(root: Memorial, v: Verdict): Memorial {
    match v
    case Stay => root
    case Approved(_, _) => root.(status := Planning)
    case _ => Finished(root, Failed, None)
  }

  function NextState(s: RunState, edict: EdictId, v: Verdict, now: Time): RunState {
    var projected := if (v.Approved? || v.Rejected?) && s.phase.PhaseWaiting? then Saved(Projected(s, v)) else s;
    if Failing(v) then Saved(Unbound(projected, edict, now)) else projected
  }

  function NextStates(rs: RunStates, m: MemorialId, edict: EdictId, v: Verdict, now: Time): RunStates {
    if m in rs && rs[m].Decoded? then rs[m := Decoded(NextState(rs[m].state, edict, v, now))] else rs
  }

  function NextOutbox(es: Outbox, m: MemorialId, edict: EdictId, v: Verdict): Outbox {
    if Failing(v) then es[EventOf(v) := Event(ExecutionFailed, edict, m, Plain)] else es
  }

  predicate RowReviewed(db: Db, next: Db, a: AttemptId, now: Time)
    requires Rooted(db, a)
  {
    var t := db.attempts[a];
    var root, v := db.memorials[t.memorial], VerdictOn(db, a);
    && next.decisions == db.decisions
    && next.attempts == db.attempts[a := NextAttempt(t, v, now)]
    && next.memorials == db.memorials[t.memorial := NextRoot(root, v)]
    && next.runStates == NextStates(db.runStates, t.memorial, root.edict, v, now)
    && next.outbox == NextOutbox(db.outbox, t.memorial, root.edict, v)
  }

  predicate Reviewable(db: Db, a: AttemptId) {
    Rooted(db, a) && db.attempts[a].status.Suspended? && ActiveRoot(db, db.attempts[a].memorial)
  }

  lemma ProjectWorks(db: Db, a: AttemptId)
    requires Reviewable(db, a)
    ensures var m, v := db.attempts[a].memorial, VerdictOn(db, a);
            && (Waits(db, m, v) ==> Swappable(db, m, Projected(db.runStates[m].state, v)))
            && Project(db, m, v).runStates ==
                 (if Waits(db, m, v) then db.runStates[m := Decoded(Saved(Projected(db.runStates[m].state, v)))]
                  else db.runStates)
  {
  }

  lemma TerminalizeWorks(db: Db, a: AttemptId, e: EventId, now: Time)
    requires Reviewable(db, a)
    ensures Terminalize(db, a, e, now).Committed? <==> e !in db.outbox
    ensures Terminalize(db, a, e, now).Committed? ==> Terminalized(db, Terminalize(db, a, e, now).db, a, e, now)
  {
  }

  lemma FailingState(db: Db, m: MemorialId, now: Time)
    requires m in db.memorials && HasState(db, m)
    ensures CanFail(db, m, now)
  {
  }

  /** The same for a root in any status. */
  lemma TerminalizeTables(db: Db, a: AttemptId, e: EventId, now: Time)
    requires Rooted(db, a) && db.attempts[a].status.Suspended?
    requires HasState(db, db.attempts[a].memorial) ==> CanFail(db, db.attempts[a].memorial, now)
    ensures var o, m := Terminalize(db, a, e, now), db.attempts[a].memorial;
            && (o.Committed? <==> e !in db.outbox)
            && (o.Committed? ==>
                  && o.db.attempts == db.attempts[a := Retire(db.attempts[a], AttemptFailed)]
                  && o.db.memorials == db.memorials[m := FailedRoot(db.memorials[m])]
                  && o.db.runStates == FailedStates(db, m, now)
                  && o.db.outbox == db.outbox[e := Event(ExecutionFailed, db.memorials[m].edict, m, Plain)])
  {
  }

  predicate Terminalized(db: Db, next: Db, a: AttemptId, e: EventId, now: Time)
    requires Rooted(db, a)
  {
    var m := db.attempts[a].memorial;
    && next.decisions == db.decisions
    && next.attempts == db.attempts[a := Retire(db.attempts[a], AttemptFailed)]
    && next.memorials == db.memorials[m := Finished(db.memorials[m], Failed, None)]
    && next.runStates == FailedStates(db, m, now)
    && next.outbox == db.outbox[e := Event(ExecutionFailed, db.memorials[m].edict, m, Plain)]
  }

  lemma StayWorks(db: Db, a: AttemptId, now: Time)
    requires Reviewable(db, a) && VerdictOn(db, a).Stay?
    ensures ReviewRow(db, a, now) == Committed(db, 0) && RowReviewed(db, db, a, now)
  {
    var m := db.attempts[a].memorial;
    assert db.attempts[a := db.attempts[a]] == db.attempts && db.memorials[m := db.memorials[m]] == db.memorials;
    assert m in db.runStates ==> db.runStates[m := db.runStates[m]] == db.runStates;
  }

  lemma ApprovedWorks(db: Db, a: AttemptId, now: Time)
    requires Reviewable(db, a) && VerdictOn(db, a).Approved?
    ensures var o := ReviewRow(db, a, now); o.Committed? && o.value == 1 && RowReviewed(db, o.db, a, now)
  {
    var m, v := db.attempts[a].memorial, VerdictOn(db, a);
    ProjectWorks(db, a);
    var mid := Project(db, m, v);
    assert ReviewRow(db, a, now) == Readmit(mid, a, Max(now, v.at));
    assert m in db.runStates ==> db.runStates[m := db.runStates[m]] == db.runStates;
    assert mid.runStates == NextStates(db.runStates, m, db.memorials[m].edict, v, now);
  }

  lemma FailingWorks(db: Db, a: AttemptId, now: Time)
    requires Reviewable(db, a) && Failing(VerdictOn(db, a))
    ensures var o := ReviewRow(db, a, now);
            && (o.Committed? <==> EventOf(VerdictOn(db, a)) !in db.outbox)
            && (o.Committed? ==> o.value == 1 && RowReviewed(db, o.db, a, now))
  {
    var m, v := db.attempts[a].memorial, VerdictOn(db, a);
    ProjectWorks(db, a);
    var mid := Project(db, m, v);
    assert ReviewRow(db, a, now) == Terminalize(mid, a, EventOf(v), now);
    TerminalizeWorks(mid, a, EventOf(v), now);
    assert FailedStates(mid, m, now) == NextStates(db.runStates, m, db.memorials[m].edict, v, now);
  }

  /** Of all the checks on the way only one can fail: the failure event may already be stored. */
  lemma ReviewRowWorks(db: Db, a: AttemptId, now: Time)
    requires Reviewable(db, a)
    ensures var o := ReviewRow(db, a, now);
            && (o.Committed? <==> (Failing(VerdictOn(db, a)) ==> EventOf(VerdictOn(db, a)) !in db.outbox))
            && (o.Committed? ==> o.value == (if VerdictOn(db, a).Stay? then 0 else 1) && RowReviewed(db, o.db, a, now))
  {
    match VerdictOn(db, a)
    case Stay => StayWorks(db, a, now);
    case Approved(_, _) => ApprovedWorks(db, a, now);
    case _ => FailingWorks(db, a, now);
  }

  /** Where the projected state leads: back to the queue or to the end. */
  function Conclude(db: Db, a: AttemptId, v: Verdict, now: Time): Outcome<nat>
    requires Rooted(db, a) && !v.Stay?
  {
    if v.Approved? then Readmit(db, a, Max(now, v.at)) else Terminalize(db, a, EventOf(v), now)
  }

  lemma ReviewIsConclude(db: Db, a: AttemptId, now: Time)
    requires Reviewable(db, a) && ReviewRow(db, a, now).Committed? && !VerdictOn(db, a).Stay?
    ensures var mid := Project(db, db.attempts[a].memorial, VerdictOn(db, a));
            ReviewRow(db, a, now) == Conclude(mid, a, VerdictOn(db, a), now)
  {
  }

  lemma ConcludeKeeps(db: Db, a: AttemptId, v: Verdict, now: Time)
    requires Inv(db) && Reviewable(db, a) && !v.Stay?
    requires Failing(v) ==> NamedFor(db, a, EventOf(v))
    ensures Keeps(db, Conclude(db, a, v, now).After(db))
  {
    if v.Approved? {
      assert AttemptWell(db.memorials, db.attempts[a]);
      ReadmitKeeps(db, a, Max(now, v.at));
    } else {
      TerminalizeKeeps(db, a, EventOf(v), now);
    }
  }

  lemma ReviewRowKeeps(db: Db, a: AttemptId, now: Time)
    requires Inv(db) && Reviewable(db, a)
    ensures Keeps(db, ReviewRow(db, a, now).After(db))
  {
    var v := VerdictOn(db, a);
    if ReviewRow(db, a, now).Raised? || v.Stay? {
      KeepsSame(db);
    } else {
      var mid := Project(db, db.attempts[a].memorial, v);
      ReviewIsConclude(db, a, now);
      ProjectKeeps(db, a);
      ProjectedIsNamed(db, a);
      ConcludeKeeps(mid, a, v, now);
      KeepsTransitive(db, mid, ReviewRow(db, a, now).db);
    }
  }

  lemma ProjectedIsNamed(db: Db, a: AttemptId)
    requires Reviewable(db, a)
    ensures var v := VerdictOn(db, a);
            Failing(v) ==> NamedFor(Project(db, db.attempts[a].memorial, v), a, EventOf(v))
  {
    ProjectWorks(db, a);
  }

  lemma ProjectKeeps(db: Db, a: AttemptId)
    requires Inv(db) && Reviewable(db, a)
    ensures var next := Project(db, db.attempts[a].memorial, VerdictOn(db, a));
            Keeps(db, next) && Reviewable(next, a)
  {
    var m, v := db.attempts[a].memorial, VerdictOn(db, a);
    if Waits(db, m, v) {
      SwapKeeps(db, m, Projected(db.runStates[m].state, v));
    } else {
      KeepsSame(db);
    }
  }

  lemma ReadmitMeans(db: Db, a: AttemptId, at: Time)
    requires Reviewable(db, a) && db.attempts[a].lease.None?
    ensures var m, mid := db.attempts[a].memorial, Update(db, a, Reopened(db.attempts[a], at));
            && Moved(db.attempts[a], Reopened(db.attempts[a], at)) && ActiveIn(mid.memorials, m)
            && Readmit(db, a, at) == Committed(SetMemorial(mid, m, mid.memorials[m].(status := Planning)), 1)
  {
  }

  lemma ReadmitKeeps(db: Db, a: AttemptId, at: Time)
    requires Inv(db) && Reviewable(db, a) && db.attempts[a].lease.None?
    ensures Keeps(db, Readmit(db, a, at).After(db))
  {
    var m, mid := db.attempts[a].memorial, Update(db, a, Reopened(db.attempts[a], at));
    ReadmitMeans(db, a, at);
    MovesKeeps(db, a, Reopened(db.attempts[a], at));
    ProgressesKeeps(mid, m, Planning);
    KeepsTransitive(db, mid, SetMemorial(mid, m, mid.memorials[m].(status := Planning)));
  }

  /** The failure event is named after the attempt, or after a decision its root's RunState names. */
  ghost predicate NamedFor(db: Db, a: AttemptId, e: EventId)
    requires a in db.attempts
  {
    && e.PlanFailedEvent?
    && match e.identity
       case ByAttempt(b) => b == a
       case ByDecision(d) => Mentions(db.runStates, db.attempts[a].memorial, d)
  }

  lemma TerminalizeSettles(db: Db, a: AttemptId, e: EventId, now: Time)
    requires Reviewable(db, a) && Terminalize(db, a, e, now).Committed?
    requires Retires(db.attempts, db.attempts[a := Retire(db.attempts[a], AttemptFailed)], db.attempts[a].memorial)
    requires NamedFor(db, a, e)
    ensures SettlesTo(db, Terminalize(db, a, e, now).db)
  {
    var m := db.attempts[a].memorial;
    assert Settles(db, m, FailedRoot(db.memorials[m]), db.attempts[a := Retire(db.attempts[a], AttemptFailed)],
                   FailedStates(db, m, now), e, Event(ExecutionFailed, db.memorials[m].edict, m, Plain));
  }

  lemma TerminalizeKeeps(db: Db, a: AttemptId, e: EventId, now: Time)
    requires Inv(db) && Reviewable(db, a)
    requires NamedFor(db, a, e)
    ensures Keeps(db, Terminalize(db, a, e, now).After(db))
  {
    if Terminalize(db, a, e, now).Raised? {
      KeepsSame(db);
    } else {
      RetireOne(db, a, AttemptFailed);
      TerminalizeSettles(db, a, e, now);
      SettlesToKeeps(db, Terminalize(db, a, e, now).db);
    }
  }

  // ---------------------------------------------------------------- one pass

  /** An answer to the scan query: suspended attempts in some order, all of them unless the limit cut it.
      A negative SQL limit is no limit. */
  ghost predicate IsSuspendedScan(db: Db, limit: int, rows: seq<AttemptId>) {
    && Distinct(rows)
    && (0 <= limit ==> |rows| <= limit)
    && (forall i :: 0 <= i < |rows| ==> rows[i] in db.attempts && db.attempts[rows[i]].status.Suspended?)
    && (limit < 0 || |rows| < limit ==> forall a :: a in db.attempts && db.attempts[a].status.Suspended? ==> a in rows)
  }

  /** All rows in order, in one transaction. */
  function Review(db: Db, rows: seq<AttemptId>, now: Time): Outcome<nat> {
    if rows == [] then Committed(db, 0)
    else
      var last := |rows| - 1;
      var init := Review(db, rows[..last], now);
      if init.Raised? then init
      else
        var row := ReviewRow(init.db, rows[last], now);
        if row.Raised? then row else Committed(row.db, init.value + row.value)
  }

  method ReconcileOnce(storage: Storage, limit: int, rows: seq<AttemptId>, now: Time) returns (r: Option<nat>)
    requires IsSuspendedScan(storage.db, limit, rows)
    modifies storage
    ensures storage.db == Review(old(storage.db), rows, now).After(old(storage.db))
    ensures r == match Review(old(storage.db), rows, now)
                 case Committed(_, n) => Some(n)
                 case Raised(_) => None
  {
    var db, changed := storage.db, 0;
    for i := 0 to |rows|
      invariant var o := Review(storage.db, rows[..i], now); o.Committed? && o.db == db && o.value == changed
      invariant storage.db == old(storage.db)
    {
      ReviewNext(storage.db, rows, i, now);
      var row := ReviewRow(db, rows[i], now);
      if row.Raised? {
        RaisedStays(storage.db, rows, i + 1, now);
        return None;
      }
      db, changed := row.db, changed + row.value;
    }
    assert rows[..|rows|] == rows;
    storage.db := db;
    return Some(changed);
  }

  /** A pass over one more row is the pass so far and that row. */
  lemma ReviewOneMore(db: Db, rows: seq<AttemptId>, a: AttemptId, now: Time)
    ensures Review(db, rows + [a], now) == ThenRow(Review(db, rows, now), a, now)
  {
    var more := rows + [a];
    assert more[..|more| - 1] == rows;
  }

  function ThenRow(o: Outcome<nat>, a: AttemptId, now: Time): Outcome<nat> {
    if o.Raised? then o
    else
      var row := ReviewRow(o.db, a, now);
      if row.Raised? then row else Committed(row.db, o.value + row.value)
  }

  lemma ReviewNext(db: Db, rows: seq<AttemptId>, i: nat, now: Time)
    requires i < |rows|
    ensures Review(db, rows[..i + 1], now) == ThenRow(Review(db, rows[..i], now), rows[i], now)
  {
    ReviewOneMore(db, rows[..i], rows[i], now);
    assert rows[..i + 1] == rows[..i] + [rows[i]];
  }

  lemma {:induction false} RaisedStays(db: Db, rows: seq<AttemptId>, i: nat, now: Time)
    requires i <= |rows| && Review(db, rows[..i], now).Raised?
    ensures Review(db, rows, now).Raised?
    decreases |rows| - i
  {
    if i == |rows| {
      assert rows[..i] == rows;
    } else {
      assert rows[..i + 1][..i] == rows[..i];
      RaisedStays(db, rows, i + 1, now);
    }
  }

  // ---------------------------------------------------------------- what one pass does

  ghost predicate AllReviewable(db: Db, rows: seq<AttemptId>) {
    Distinct(rows) && forall i :: 0 <= i < |rows| ==> rows[i] in db.attempts && Reviewable(db, rows[i])
  }

  lemma ScanReviewable(db: Db, limit: int, rows: seq<AttemptId>)
    requires Inv(db) && IsSuspendedScan(db, limit, rows)
    ensures AllReviewable(db, rows)
  {
    forall i | 0 <= i < |rows| ensures Reviewable(db, rows[i]) {
      assert AttemptWell(db.memorials, db.attempts[rows[i]]);
    }
  }

  /** What the pass reads of one attempt. */
  predicate SameView(db: Db, mid: Db, a: AttemptId)
    requires Rooted(db, a)
  {
    var m := db.attempts[a].memorial;
    && mid.decisions == db.decisions
    && a in mid.attempts && mid.attempts[a] == db.attempts[a]
    && m in mid.memorials && mid.memorials[m] == db.memorials[m]
    && RowOf(mid.runStates, m) == RowOf(db.runStates, m)
  }

  /** Every scanned attempt, its root and its RunState are what its own verdict makes of them. */
  ghost predicate Reviewed(db: Db, next: Db, a: AttemptId, now: Time)
    requires Rooted(db, a)
  {
    var t := db.attempts[a];
    var m, v := t.memorial, VerdictOn(db, a);
    && a in next.attempts && next.attempts[a] == NextAttempt(t, v, now)
    && m in next.memorials && next.memorials[m] == NextRoot(db.memorials[m], v)
    && RowOf(next.runStates, m) == RowOf(NextStates(db.runStates, m, db.memorials[m].edict, v, now), m)
  }

  ghost predicate RowsReviewed(db: Db, next: Db, rows: seq<AttemptId>, now: Time) {
    forall i :: 0 <= i < |rows| ==> Rooted(db, rows[i]) && Reviewed(db, next, rows[i], now)
  }

  /** Whatever belongs to no scanned attempt is as it was. */
  ghost predicate OthersKept(db: Db, next: Db, rows: seq<AttemptId>)
    requires forall i :: 0 <= i < |rows| ==> rows[i] in db.attempts
  {
    && next.decisions == db.decisions
    && next.attempts.Keys == db.attempts.Keys
    && (forall a :: a in db.attempts && a !in rows ==> next.attempts[a] == db.attempts[a])
    && (forall m :: m in db.memorials && m !in RootsOf(db.attempts, rows) ==>
          && m in next.memorials && next.memorials[m] == db.memorials[m]
          && RowOf(next.runStates, m) == RowOf(db.runStates, m))
  }

  ghost predicate EventsAnnounced(db: Db, next: Db, rows: seq<AttemptId>) {
    forall e :: e in next.outbox <==> e in db.outbox || Announced(db, rows, e)
  }

  ghost predicate PassReviewed(db: Db, next: Db, rows: seq<AttemptId>, now: Time)
    requires forall i :: 0 <= i < |rows| ==> rows[i] in db.attempts
  {
    RowsReviewed(db, next, rows, now) && OthersKept(db, next, rows) && EventsAnnounced(db, next, rows)
  }

  ghost predicate Announced(db: Db, rows: seq<AttemptId>, e: EventId) {
    exists i :: 0 <= i < |rows| && Announces(db, rows[i], e)
  }

  predicate Announces(db: Db, a: AttemptId, e: EventId) {
    Failing(VerdictOn(db, a)) && EventOf(VerdictOn(db, a)) == e
  }

  /** The failure events of a pass are new and no two rows share one. */
  ghost predicate EventsFree(db: Db, rows: seq<AttemptId>) {
    && (forall i :: 0 <= i < |rows| && Failing(VerdictOn(db, rows[i])) ==> EventOf(VerdictOn(db, rows[i])) !in db.outbox)
    && (forall i, j :: 0 <= i < j < |rows| && Failing(VerdictOn(db, rows[i])) && Failing(VerdictOn(db, rows[j])) ==>
          EventOf(VerdictOn(db, rows[i])) != EventOf(VerdictOn(db, rows[j])))
  }

  function Leaving(db: Db, rows: seq<AttemptId>): nat {
    if rows == [] then 0
    else
      Leaving(db, rows[..|rows| - 1]) +
      (if VerdictOn(db, rows[|rows| - 1]).Stay? then 0 else 1)
  }

  lemma LastRowIsFresh(db: Db, rows: seq<AttemptId>)
    requires Inv(db) && AllReviewable(db, rows) && rows != []
    ensures rows[|rows| - 1] !in rows[..|rows| - 1]
    ensures db.attempts[rows[|rows| - 1]].memorial !in RootsOf(db.attempts, rows[..|rows| - 1])
  {
    var last := |rows| - 1;
    var m := db.attempts[rows[last]].memorial;
    InRootsOf(db.attempts, rows[..last], m);
    InvOneLive(db);
    assert Reviewable(db, rows[last]) && IsLive(db.attempts, rows[last], m);
    if i :| 0 <= i < last && db.attempts[rows[..last][i]].memorial == m {
      assert rows[..last][i] == rows[i] && Reviewable(db, rows[i]);
      assert IsLive(db.attempts, rows[i], m);
    }
  }

  lemma SameViewAfter(db: Db, mid: Db, rows: seq<AttemptId>, now: Time)
    requires Inv(db) && AllReviewable(db, rows) && rows != []
    requires PassReviewed(db, mid, rows[..|rows| - 1], now)
    ensures SameView(db, mid, rows[|rows| - 1])
  {
    LastRowIsFresh(db, rows);
    assert Reviewable(db, rows[|rows| - 1]);
  }

  lemma SameViewSameVerdict(db: Db, mid: Db, a: AttemptId)
    requires Reviewable(db, a) && SameView(db, mid, a)
    ensures Reviewable(mid, a) && VerdictOn(mid, a) == VerdictOn(db, a)
  {
  }

  lemma EventsFreeLast(db: Db, rows: seq<AttemptId>)
    requires rows != []
    ensures var last := |rows| - 1;
            EventsFree(db, rows) <==>
              && EventsFree(db, rows[..last])
              && (Failing(VerdictOn(db, rows[last])) ==>
                    var e := EventOf(VerdictOn(db, rows[last]));
                    e !in db.outbox && !Announced(db, rows[..last], e))
  {
    var last := |rows| - 1;
    var init, v := rows[..last], VerdictOn(db, rows[last]);
    assert forall i :: 0 <= i < last ==> init[i] == rows[i];
    if EventsFree(db, init) && (Failing(v) ==> EventOf(v) !in db.outbox && !Announced(db, init, EventOf(v))) {
      forall i, j | 0 <= i < j < |rows| && Failing(VerdictOn(db, rows[i])) && Failing(VerdictOn(db, rows[j]))
        ensures EventOf(VerdictOn(db, rows[i])) != EventOf(VerdictOn(db, rows[j]))
      {
        if j == last {
          assert !Announces(db, init[i], EventOf(v));
        } else {
          assert init[i] == rows[i] && init[j] == rows[j];
        }
      }
    }
  }

  /** A pass over suspended attempts commits exactly when no two failing rows share an event identity and none
      is stored already.  It then gives every row the fate of its own verdict, touches nothing else, and
      returns how many attempts left suspension. */
  lemma {:induction false} ReviewWorks(db: Db, rows: seq<AttemptId>, now: Time)
    requires Inv(db) && AllReviewable(db, rows)
    ensures Review(db, rows, now).Committed? <==> EventsFree(db, rows)
    ensures var o := Review(db, rows, now);
            o.Committed? ==> o.value == Leaving(db, rows) && PassReviewed(db, o.db, rows, now)
  {
    if rows == [] {
      ReviewNone(db, now);
    } else {
      ReviewWorks(db, rows[..|rows| - 1], now);
      ReviewSome(db, rows, now);
    }
  }

  lemma ReviewNone(db: Db, now: Time)
    ensures EventsFree(db, []) && PassReviewed(db, db, [], now)
  {
  }

  lemma ReviewSome(db: Db, rows: seq<AttemptId>, now: Time)
    requires Inv(db) && AllReviewable(db, rows) && rows != []
    requires Review(db, rows[..|rows| - 1], now).Committed? <==> EventsFree(db, rows[..|rows| - 1])
    requires var o := Review(db, rows[..|rows| - 1], now);
             o.Committed? ==> o.value == Leaving(db, rows[..|rows| - 1]) && PassReviewed(db, o.db, rows[..|rows| - 1], now)
    ensures Review(db, rows, now).Committed? <==> EventsFree(db, rows)
    ensures var o := Review(db, rows, now);
            o.Committed? ==> o.value == Leaving(db, rows) && PassReviewed(db, o.db, rows, now)
  {
    EventsFreeLast(db, rows);
    var o := Review(db, rows[..|rows| - 1], now);
    if o.Committed? {
      ReviewLast(db, rows, o.db, now);
    }
  }

  lemma ReviewLast(db: Db, rows: seq<AttemptId>, mid: Db, now: Time)
    requires Inv(db) && AllReviewable(db, rows) && rows != []
    requires PassReviewed(db, mid, rows[..|rows| - 1], now)
    ensures var last := |rows| - 1;
            var o, v := ReviewRow(mid, rows[last], now), VerdictOn(db, rows[last]);
            && (o.Committed? <==> (Failing(v) ==> EventOf(v) !in db.outbox && !Announced(db, rows[..last], EventOf(v))))
            && (o.Committed? ==> o.value == (if v.Stay? then 0 else 1) && PassReviewed(db, o.db, rows, now))
  {
    var last := |rows| - 1;
    var a, v := rows[last], VerdictOn(db, rows[last]);
    SameViewAfter(db, mid, rows, now);
    SameViewSameVerdict(db, mid, a);
    ReviewRowWorks(mid, a, now);
    var o := ReviewRow(mid, a, now);
    if o.Committed? { PassStep(db, mid, o.db, rows, now); }
  }

  lemma PassStep(db: Db, mid: Db, next: Db, rows: seq<AttemptId>, now: Time)
    requires Inv(db) && AllReviewable(db, rows) && rows != []
    requires PassReviewed(db, mid, rows[..|rows| - 1], now) && SameView(db, mid, rows[|rows| - 1])
    requires Rooted(mid, rows[|rows| - 1]) && RowReviewed(mid, next, rows[|rows| - 1], now)
    ensures PassReviewed(db, next, rows, now)
  {
    SameViewSameVerdict(db, mid, rows[|rows| - 1]);
    LastRowIsFresh(db, rows);
    RowsStep(db, mid, next, rows, now);
    OthersStep(db, mid, next, rows, now);
    EventsStep(db, mid, next, rows, now);
  }

  lemma RowsStep(db: Db, mid: Db, next: Db, rows: seq<AttemptId>, now: Time)
    requires AllReviewable(db, rows) && rows != []
    requires RowsReviewed(db, mid, rows[..|rows| - 1], now) && SameView(db, mid, rows[|rows| - 1])
    requires Rooted(mid, rows[|rows| - 1]) && VerdictOn(mid, rows[|rows| - 1]) == VerdictOn(db, rows[|rows| - 1])
    requires RowReviewed(mid, next, rows[|rows| - 1], now)
    requires rows[|rows| - 1] !in rows[..|rows| - 1]
    requires db.attempts[rows[|rows| - 1]].memorial !in RootsOf(db.attempts, rows[..|rows| - 1])
    ensures RowsReviewed(db, next, rows, now)
  {
    var last := |rows| - 1;
    var init := rows[..last];
    forall i | 0 <= i < |rows| ensures Rooted(db, rows[i]) && Reviewed(db, next, rows[i], now) {
      assert Reviewable(db, rows[i]);
      if i < last {
        assert init[i] == rows[i] && Reviewed(db, mid, init[i], now);
        InRootsOf(db.attempts, init, db.attempts[rows[i]].memorial);
        ReviewedStays(mid, next, rows[last], now, db, rows[i]);
      } else {
        ReviewedNow(db, mid, next, rows[last], now);
      }
    }
  }

  lemma ReviewedNow(db: Db, mid: Db, next: Db, a: AttemptId, now: Time)
    requires Rooted(db, a) && SameView(db, mid, a)
    requires Rooted(mid, a) && VerdictOn(mid, a) == VerdictOn(db, a) && RowReviewed(mid, next, a, now)
    ensures Reviewed(db, next, a, now)
  {
  }

  lemma ReviewedStays(mid: Db, next: Db, a: AttemptId, now: Time, db: Db, b: AttemptId)
    requires Rooted(mid, a) && RowReviewed(mid, next, a, now)
    requires Rooted(db, b) && Reviewed(db, mid, b, now) && a != b && mid.attempts[a].memorial != db.attempts[b].memorial
    ensures Reviewed(db, next, b, now)
  {
  }

  lemma OthersStep(db: Db, mid: Db, next: Db, rows: seq<AttemptId>, now: Time)
    requires AllReviewable(db, rows) && rows != []
    requires OthersKept(db, mid, rows[..|rows| - 1]) && SameView(db, mid, rows[|rows| - 1])
    requires Rooted(mid, rows[|rows| - 1]) && RowReviewed(mid, next, rows[|rows| - 1], now)
    ensures OthersKept(db, next, rows)
  {
    var last := |rows| - 1;
    forall a | a in db.attempts && a !in rows ensures next.attempts[a] == db.attempts[a] {
      assert a !in rows[..last] && a != rows[last];
    }
  }

  lemma EventsStep(db: Db, mid: Db, next: Db, rows: seq<AttemptId>, now: Time)
    requires rows != [] && EventsAnnounced(db, mid, rows[..|rows| - 1])
    requires Rooted(mid, rows[|rows| - 1]) && VerdictOn(mid, rows[|rows| - 1]) == VerdictOn(db, rows[|rows| - 1])
    requires RowReviewed(mid, next, rows[|rows| - 1], now)
    ensures EventsAnnounced(db, next, rows)
  {
    var last := |rows| - 1;
    forall e ensures e in next.outbox <==> e in db.outbox || Announced(db, rows, e) {
      AnnouncedLast(db, rows, e);
      assert e in next.outbox <==> e in mid.outbox || Announces(db, rows[last], e);
    }
  }

  lemma AnnouncedLast(db: Db, rows: seq<AttemptId>, e: EventId)
    requires rows != []
    ensures Announced(db, rows, e) <==> Announced(db, rows[..|rows| - 1], e) || Announces(db, rows[|rows| - 1], e)
  {
    var last := |rows| - 1;
    if i :| 0 <= i < last && Announces(db, rows[..last][i], e) {
      assert Announces(db, rows[i], e);
    }
    if i :| 0 <= i < |rows| && Announces(db, rows[i], e) && i < last {
      assert Announces(db, rows[..last][i], e);
    }
  }

  lemma {:induction false} ReviewKeeps(db: Db, rows: seq<AttemptId>, now: Time)
    requires Inv(db) && AllReviewable(db, rows)
    ensures Keeps(db, Review(db, rows, now).After(db))
  {
    if rows == [] || Review(db, rows, now).Raised? {
      KeepsSame(db);
    } else {
      InitReviewable(db, rows);
      ReviewKeeps(db, rows[..|rows| - 1], now);
      var mid := ReviewMid(db, rows, now);
      JoinKeeps(db, rows, mid, now);
    }
  }

  lemma InitReviewable(db: Db, rows: seq<AttemptId>)
    requires AllReviewable(db, rows) && rows != []
    ensures AllReviewable(db, rows[..|rows| - 1])
  {
  }

  lemma ReviewMid(db: Db, rows: seq<AttemptId>, now: Time) returns (mid: Db)
    requires Inv(db) && AllReviewable(db, rows) && rows != [] && Review(db, rows, now).Committed?
    ensures Review(db, rows[..|rows| - 1], now).Committed? && mid == Review(db, rows[..|rows| - 1], now).db
    ensures var row := ReviewRow(mid, rows[|rows| - 1], now); row.Committed? && Review(db, rows, now).db == row.db
    ensures AllReviewable(db, rows[..|rows| - 1]) && PassReviewed(db, mid, rows[..|rows| - 1], now)
  {
    InitReviewable(db, rows);
    mid := ReviewUnfolds(db, rows, now);
    ReviewWorks(db, rows[..|rows| - 1], now);
  }

  lemma ReviewUnfolds(db: Db, rows: seq<AttemptId>, now: Time) returns (mid: Db)
    requires rows != [] && Review(db, rows, now).Committed?
    ensures Review(db, rows[..|rows| - 1], now).Committed? && mid == Review(db, rows[..|rows| - 1], now).db
    ensures var row := ReviewRow(mid, rows[|rows| - 1], now); row.Committed? && Review(db, rows, now).db == row.db
  {
    mid := Review(db, rows[..|rows| - 1], now).db;
  }

  lemma JoinKeeps(db: Db, rows: seq<AttemptId>, mid: Db, now: Time)
    requires Inv(db) && AllReviewable(db, rows) && rows != [] && ReviewRow(mid, rows[|rows| - 1], now).Committed?
    requires PassReviewed(db, mid, rows[..|rows| - 1], now) && Keeps(db, mid)
    ensures Keeps(db, ReviewRow(mid, rows[|rows| - 1], now).db)
  {
    ReviewLastKeeps(db, rows, mid, now);
    KeepsTransitive(db, mid, ReviewRow(mid, rows[|rows| - 1], now).db);
  }

  lemma ReviewLastKeeps(db: Db, rows: seq<AttemptId>, mid: Db, now: Time)
    requires Inv(db) && Inv(mid) && AllReviewable(db, rows) && rows != []
    requires PassReviewed(db, mid, rows[..|rows| - 1], now)
    ensures Keeps(mid, ReviewRow(mid, rows[|rows| - 1], now).After(mid))
  {
    var a := rows[|rows| - 1];
    SameViewAfter(db, mid, rows, now);
    SameViewSameVerdict(db, mid, a);
    ReviewRowKeeps(mid, a, now);
  }

  // ---------------------------------------------------------------- the partition

  /** The root's RunState and plan review `d` are about the same root, edict and plan, and the plan is the one hashed. */
  predicate PlanOf(db: Db, m: MemorialId, d: DecisionId) {
    && Root(db, m) && d in db.decisions && m in db.runStates && db.runStates[m].Decoded?
    && var s, r := db.runStates[m].state, db.decisions[d];
       && r.kind == PlanReviewDecision && r.memorial == m && r.edict == s.edict && r.edict == db.memorials[m].edict
       && s.kind == AgentContinuation && r.plan.Some?
       && s.plan == Some(PlanBinding(r.plan.value.planRef, r.plan.value.planHash))
       && r.plan.value.planHash == HashOf(r.plan.value.document)
  }

  predicate WaitsOn(s: RunState, d: DecisionId) {
    s.phase == PhaseWaiting && s.pending == Some(d) && s.resolved == None
  }

  predicate MovedOn(s: RunState, d: DecisionId, phase: RunPhase) {
    s.phase == phase && s.pending == None && s.resolved == Some(d)
  }

  predicate AwaitsReview(db: Db, a: AttemptId, d: DecisionId) {
    && a in db.attempts && PlanOf(db, db.attempts[a].memorial, d)
    && WaitsOn(db.runStates[db.attempts[a].memorial].state, d) && db.decisions[d].status == Pending
  }

  predicate Approval(r: Decision) {
    r.status.Resolved? && r.status.action == Approve
  }

  /** An approval that the RunState waits for, or was already moved on by. */
  predicate HasApproval(db: Db, a: AttemptId, d: DecisionId) {
    && a in db.attempts && PlanOf(db, db.attempts[a].memorial, d) && Approval(db.decisions[d])
    && var s := db.runStates[db.attempts[a].memorial].state; WaitsOn(s, d) || MovedOn(s, d, PhasePlanning)
  }

  /** Any other end of the review, which the RunState waits for or was already moved on by. */
  predicate HasRefusal(db: Db, a: AttemptId, d: DecisionId) {
    && a in db.attempts && PlanOf(db, db.attempts[a].memorial, d)
    && db.decisions[d].status != Pending && !Approval(db.decisions[d])
    && var s := db.runStates[db.attempts[a].memorial].state; WaitsOn(s, d) || MovedOn(s, d, PhaseFailed)
  }

  /** What the failure of an attempt without a valid review is named after: the decision its RunState is at, if any. */
  function BlamedOn(db: Db, a: AttemptId): PlanIdentity
    requires a in db.attempts
  {
    var m := db.attempts[a].memorial;
    if m !in db.runStates || db.runStates[m].Undecodable? then ByAttempt(a)
    else
      var s := db.runStates[m].state;
      if s.phase == PhaseWaiting && s.pending.Some? then ByDecision(s.pending.value)
      else if (s.phase == PhasePlanning || s.phase == PhaseFailed) && s.resolved.Some? then ByDecision(s.resolved.value)
      else ByAttempt(a)
  }

  ghost predicate Undecided(db: Db, a: AttemptId) {
    exists d :: AwaitsReview(db, a, d)
  }

  ghost predicate IsApproved(db: Db, a: AttemptId) {
    exists d :: HasApproval(db, a, d)
  }

  ghost predicate IsRefused(db: Db, a: AttemptId) {
    exists d :: HasRefusal(db, a, d)
  }

  /** When a decision ended. */
  function EndedAt(r: Decision): Time {
    match r.status
    case Resolved(_, at) => at
    case _ => r.updatedAt
  }

  /** The verdict, both ways: pending, approved and refused reviews by what is stored, and everything else invalid. */
  lemma VerdictMeans(db: Db, a: AttemptId)
    requires Reviewable(db, a)
    ensures VerdictOn(db, a).Stay? <==> Undecided(db, a)
    ensures VerdictOn(db, a).Approved? <==> IsApproved(db, a)
    ensures VerdictOn(db, a).Rejected? <==> IsRefused(db, a)
    ensures forall d :: HasApproval(db, a, d) ==> VerdictOn(db, a) == Approved(d, EndedAt(db.decisions[d]))
    ensures forall d :: HasRefusal(db, a, d) ==> VerdictOn(db, a) == Rejected(d, EndedAt(db.decisions[d]))
    ensures VerdictOn(db, a).Invalid? ==> VerdictOn(db, a) == Invalid(BlamedOn(db, a))
  {
    var v := VerdictOn(db, a);
    if v.Stay? {
      assert AwaitsReview(db, a, DecisionIdOf(db.runStates[db.attempts[a].memorial].state).value);
    }
    if v.Approved? {
      assert HasApproval(db, a, v.decision);
    }
    if v.Rejected? {
      assert HasRefusal(db, a, v.decision);
    }
  }

  /** A pending review: attempt, root and RunState are as they were. */
  predicate Untouched(db: Db, next: Db, a: AttemptId)
    requires Rooted(db, a)
  {
    var m := db.attempts[a].memorial;
    && a in next.attempts && next.attempts[a] == db.attempts[a]
    && m in next.memorials && next.memorials[m] == db.memorials[m]
    && RowOf(next.runStates, m) == RowOf(db.runStates, m)
  }

  /** An approval: the attempt is due at the later of now and the decision, the root plans, and a RunState that waited
      is in planning with the decision resolved, its plan and cursor kept. */
  predicate AdmittedBy(db: Db, next: Db, a: AttemptId, d: DecisionId, now: Time)
    requires HasApproval(db, a, d)
  {
    var t, m, at := db.attempts[a], db.attempts[a].memorial, EndedAt(db.decisions[d]);
    var s := db.runStates[m].state;
    && a in next.attempts
    && next.attempts[a] == t.(status := Claimable, availableAt := Max(now, at), version := t.version + 1)
    && m in next.memorials && next.memorials[m] == db.memorials[m].(status := Planning)
    && m in next.runStates
    && next.runStates[m] ==
         Decoded(if s.phase == PhaseWaiting
                 then s.(phase := PhasePlanning, pending := None, resolved := Some(d), version := s.version + 1,
                         updatedAt := Max(s.updatedAt, at))
                 else s)
  }

  /** The attempt has failed without a lease and its root with it, its output kept. */
  predicate FailedWithRoot(db: Db, next: Db, a: AttemptId)
    requires Rooted(db, a)
  {
    var t, m := db.attempts[a], db.attempts[a].memorial;
    && a in next.attempts && next.attempts[a] == t.(status := AttemptFailed, lease := None, version := t.version + 1)
    && m in next.memorials && next.memorials[m] == db.memorials[m].(status := Failed)
  }

  /** A refusal: the RunState has failed with the decision resolved and nothing pending. */
  predicate RefusedBy(db: Db, next: Db, a: AttemptId, d: DecisionId, now: Time)
    requires HasRefusal(db, a, d)
  {
    var m, at := db.attempts[a].memorial, EndedAt(db.decisions[d]);
    var s := db.runStates[m].state;
    var waits := s.phase == PhaseWaiting;
    && FailedWithRoot(db, next, a) && m in next.runStates
    && next.runStates[m] ==
         Decoded(s.(phase := PhaseFailed, pending := None, resolved := Some(d),
                    version := s.version + (if waits then 2 else 1),
                    updatedAt := Max(now, if waits then Max(s.updatedAt, at) else s.updatedAt)))
  }

  /** No valid review: a decodable RunState has failed under the root's own edict with nothing pending. */
  predicate FailedUnbound(db: Db, next: Db, a: AttemptId, now: Time)
    requires Rooted(db, a)
  {
    var m := db.attempts[a].memorial;
    && FailedWithRoot(db, next, a)
    && RowOf(next.runStates, m) ==
         if m in db.runStates && db.runStates[m].Decoded?
         then var s := db.runStates[m].state;
              Some(Decoded(s.(edict := db.memorials[m].edict, phase := PhaseFailed, pending := None, version := s.version + 1,
                              updatedAt := Max(now, s.updatedAt))))
         else RowOf(db.runStates, m)
  }

  /** The fate of one attempt, its root and its RunState. */
  ghost predicate Fate(db: Db, next: Db, a: AttemptId, now: Time)
    requires Rooted(db, a)
  {
    && (Undecided(db, a) ==> Untouched(db, next, a))
    && (forall d :: HasApproval(db, a, d) ==> AdmittedBy(db, next, a, d, now))
    && (forall d :: HasRefusal(db, a, d) ==> RefusedBy(db, next, a, d, now))
    && (!Undecided(db, a) && !IsApproved(db, a) && !IsRefused(db, a) ==> FailedUnbound(db, next, a, now))
  }

  lemma ApprovedFate(db: Db, next: Db, a: AttemptId, d: DecisionId, now: Time)
    requires Reviewable(db, a) && Reviewed(db, next, a, now) && HasApproval(db, a, d)
    requires VerdictOn(db, a) == Approved(d, EndedAt(db.decisions[d]))
    ensures AdmittedBy(db, next, a, d, now)
  {
    var m := db.attempts[a].memorial;
    assert RowOf(next.runStates, m).Some?;
  }

  lemma RefusedFate(db: Db, next: Db, a: AttemptId, d: DecisionId, now: Time)
    requires Reviewable(db, a) && Reviewed(db, next, a, now) && HasRefusal(db, a, d)
    requires VerdictOn(db, a) == Rejected(d, EndedAt(db.decisions[d]))
    ensures RefusedBy(db, next, a, d, now)
  {
    var m := db.attempts[a].memorial;
    assert RowOf(next.runStates, m).Some?;
  }

  lemma UnboundFate(db: Db, next: Db, a: AttemptId, now: Time)
    requires Reviewable(db, a) && Reviewed(db, next, a, now) && VerdictOn(db, a).Invalid?
    ensures FailedUnbound(db, next, a, now)
  {
  }

  lemma ReviewedFate(db: Db, next: Db, a: AttemptId, now: Time)
    requires Reviewable(db, a) && Reviewed(db, next, a, now)
    ensures Fate(db, next, a, now)
  {
    VerdictMeans(db, a);
    match VerdictOn(db, a)
    case Stay =>
      var m := db.attempts[a].memorial;
      assert m in db.runStates ==> db.runStates[m := db.runStates[m]] == db.runStates;
    case Approved(d, _) => ApprovedFate(db, next, a, d, now);
    case Rejected(d, _) => RefusedFate(db, next, a, d, now);
    case Invalid(_) => UnboundFate(db, next, a, now);
  }

  lemma RowIsReviewed(db: Db, rows: seq<AttemptId>, now: Time, i: nat)
    requires Inv(db) && AllReviewable(db, rows) && Review(db, rows, now).Committed? && i < |rows|
    ensures Reviewable(db, rows[i]) && Reviewed(db, Review(db, rows, now).db, rows[i], now)
  {
    ReviewWorks(db, rows, now);
    var next := Review(db, rows, now).db;
    assert RowsReviewed(db, next, rows, now);
  }

  /** A committed pass splits what it scanned.  Exactly the attempts validly bound to a pending plan review stay as they
      are, exactly those with an approval become claimable with their RunState in planning, and all others fail
      together with their root and RunState; each failure is announced under the refused decision, or under what the
      attempt was blamed on. */
  lemma PassPartitions(db: Db, rows: seq<AttemptId>, now: Time, i: nat)
    requires Inv(db) && AllReviewable(db, rows) && Review(db, rows, now).Committed? && i < |rows|
    ensures Rooted(db, rows[i]) && Fate(db, Review(db, rows, now).db, rows[i], now)
    ensures forall d :: HasRefusal(db, rows[i], d) ==>
              PlanFailedEvent(ByDecision(d), ReviewRejected) in Review(db, rows, now).db.outbox
    ensures !Undecided(db, rows[i]) && !IsApproved(db, rows[i]) && !IsRefused(db, rows[i]) ==>
              PlanFailedEvent(BlamedOn(db, rows[i]), BindingInvalid) in Review(db, rows, now).db.outbox
  {
    RowIsReviewed(db, rows, now, i);
    ReviewedFate(db, Review(db, rows, now).db, rows[i], now);
    VerdictMeans(db, rows[i]);
    FailureIsAnnounced(db, rows, now, i);
  }

  lemma FailureIsAnnounced(db: Db, rows: seq<AttemptId>, now: Time, i: nat)
    requires Inv(db) && AllReviewable(db, rows) && Review(db, rows, now).Committed? && i < |rows|
    ensures Failing(VerdictOn(db, rows[i])) ==> EventOf(VerdictOn(db, rows[i])) in Review(db, rows, now).db.outbox
  {
    ReviewWorks(db, rows, now);
    if Failing(VerdictOn(db, rows[i])) {
      assert Announces(db, rows[i], EventOf(VerdictOn(db, rows[i])));
    }
  }

  lemma {:induction false} AllStay(db: Db, rows: seq<AttemptId>, now: Time)
    requires forall i :: 0 <= i < |rows| ==> Rooted(db, rows[i]) && VerdictOn(db, rows[i]).Stay?
    ensures Review(db, rows, now) == Committed(db, 0)
  {
    if rows != [] {
      AllStay(db, rows[..|rows| - 1], now);
    }
  }

  /** When nothing is decided in between, a second pass after one that saw every suspended attempt finds nothing
      to do: it returns 0 and changes nothing, whatever its clock, limit and order. */
  lemma SecondPassIsIdle(db: Db, limit: int, rows: seq<AttemptId>, now: Time, limit': int, rows': seq<AttemptId>, now': Time)
    requires Inv(db) && IsSuspendedScan(db, limit, rows)
    requires forall a :: a in db.attempts && db.attempts[a].status.Suspended? ==> a in rows
    requires Review(db, rows, now).Committed?
    requires IsSuspendedScan(Review(db, rows, now).db, limit', rows')
    ensures Review(Review(db, rows, now).db, rows', now') == Committed(Review(db, rows, now).db, 0)
  {
    ScanReviewable(db, limit, rows);
    ReviewWorks(db, rows, now);
    var next := Review(db, rows, now).db;
    forall i | 0 <= i < |rows'| ensures Rooted(next, rows'[i]) && VerdictOn(next, rows'[i]).Stay? {
      StillSuspendedStays(db, next, rows, now, rows'[i]);
    }
    AllStay(next, rows', now');
  }

  lemma StillSuspendedStays(db: Db, next: Db, rows: seq<AttemptId>, now: Time, a: AttemptId)
    requires Inv(db) && AllReviewable(db, rows) && PassReviewed(db, next, rows, now)
    requires forall b :: b in db.attempts && db.attempts[b].status.Suspended? ==> b in rows
    requires a in next.attempts && next.attempts[a].status.Suspended?
    ensures Rooted(next, a) && VerdictOn(next, a).Stay?
  {
    assert a in rows;
    var i :| 0 <= i < |rows| && rows[i] == a;
    assert Reviewable(db, rows[i]) && Reviewed(db, next, rows[i], now);
    SuspendedIsUntouched(db, next, a, now);
    SameViewSameVerdict(db, next, a);
  }

  lemma SuspendedIsUntouched(db: Db, next: Db, a: AttemptId, now: Time)
    requires Reviewable(db, a) && Reviewed(db, next, a, now) && next.attempts[a].status.Suspended?
    requires next.decisions == db.decisions
    ensures VerdictOn(db, a).Stay? && SameView(db, next, a)
  {
    var m := db.attempts[a].memorial;
    assert m in db.runStates ==> db.runStates[m := db.runStates[m]] == db.runStates;
  }

  // ---------------------------------------------------------------- suspensions of other kinds

  /** The root's RunState waits for decision `d` and that is no plan review. */
  predicate WaitsForOther(db: Db, a: AttemptId, d: DecisionId) {
    && Rooted(db, a)
    && HasState(db, db.attempts[a].memorial)
    && db.runStates[db.attempts[a].memorial].state.phase.PhaseWaiting?
    && db.runStates[db.attempts[a].memorial].state.pending == Some(d)
    && d in db.decisions && !db.decisions[d].kind.PlanReviewDecision?
  }

  lemma OtherIsInvalid(db: Db, a: AttemptId, d: DecisionId)
    requires WaitsForOther(db, a, d)
    ensures VerdictOn(db, a) == Invalid(ByDecision(d))
  {
  }

  /** The scan does not look at the kind of a suspension.  An attempt suspended on a tool or outer-loop
      decision, resolved or not, does not survive a committed pass that scans it. */
  lemma OtherSuspensionsFail(db: Db, rows: seq<AttemptId>, now: Time, i: nat, d: DecisionId)
    requires Inv(db) && AllReviewable(db, rows) && Review(db, rows, now).Committed? && i < |rows|
    requires WaitsForOther(db, rows[i], d)
    ensures var next := Review(db, rows, now).db;
            var a := rows[i];
            && a in next.attempts && next.attempts[a].status.AttemptFailed?
            && ActiveRoot(db, db.attempts[a].memorial) && !ActiveRoot(next, db.attempts[a].memorial)
  {
    RowIsReviewed(db, rows, now, i);
    OtherIsInvalid(db, rows[i], d);
  }

  // ---------------------------------------------------------------- nothing else is touched

  lemma ReviewRowStill(db: Db, a: AttemptId, now: Time)
    ensures Still(db, ReviewRow(db, a, now).After(db))
  {
    if Rooted(db, a) && ReviewRow(db, a, now).Committed? && !VerdictOn(db, a).Stay? {
      var v := VerdictOn(db, a);
      var mid := Project(db, db.attempts[a].memorial, v);
      ProjectStill(db, db.attempts[a].memorial, v);
      if v.Approved? {
        ReadmitStill(mid, a, Max(now, v.at));
      } else {
        TerminalizeStill(mid, a, EventOf(v), now);
      }
    }
  }

  lemma ProjectStill(db: Db, m: MemorialId, v: Verdict)
    requires v.Approved? || v.Rejected? ==> IsPlanReview(db.decisions, v.decision)
    ensures Still(db, Project(db, m, v))
  {
  }

  lemma ReadmitStill(db: Db, a: AttemptId, at: Time)
    requires Rooted(db, a)
    ensures Still(db, Readmit(db, a, at).After(db))
  {
    var m, mid := db.attempts[a].memorial, Update(db, a, Reopened(db.attempts[a], at));
    UpdateStill(db, a, Reopened(db.attempts[a], at));
    assert Still(mid, SetMemorial(mid, m, PlanningRoot(db.memorials[m])));
  }

  lemma TerminalizeStill(db: Db, a: AttemptId, e: EventId, now: Time)
    requires Rooted(db, a)
    ensures Still(db, Terminalize(db, a, e, now).After(db))
  {
    var m := db.attempts[a].memorial;
    SettleStill(db, m, FailedRoot(db.memorials[m]), db.attempts[a := Retire(db.attempts[a], AttemptFailed)],
                FailedStates(db, m, now), e, Event(ExecutionFailed, db.memorials[m].edict, m, Plain));
  }

  lemma {:induction false} ReviewStill(db: Db, rows: seq<AttemptId>, now: Time)
    ensures Still(db, Review(db, rows, now).After(db))
  {
    if rows != [] && Review(db, rows, now).Committed? {
      ReviewStill(db, rows[..|rows| - 1], now);
      ReviewRowStill(Review(db, rows[..|rows| - 1], now).db, rows[|rows| - 1], now);
    }
  }
}
