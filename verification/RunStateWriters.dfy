/**
 Who else writes RunStates: the runner under its authority, the planner, the tools and the DAG scheduler under none,
 and the projection of decisions (`governance/decision_service.py`).
 */
module RunStateWriters {
  import opened Durable
  import opened Invariant
  import opened AttemptLedger
  import opened RunStateRepository

  predicate Own(db: Db, m: MemorialId, d: Option<DecisionId>) {
    d.Some? ==> d.value in db.decisions && db.decisions[d.value].memorial == m
  }

  /** What every writer brings: a bound state of the Memorial's edict that names decisions of this Memorial only.
      The request of a decision and the state that waits for it are made for one Memorial; that a decision is
      resolved is written by services only, and kept or dropped by everyone else. */
  predicate Writable(db: Db, m: MemorialId, candidate: RunState) {
    && m in db.memorials && candidate.edict == db.memorials[m].edict && DecisionBound(candidate)
    && Own(db, m, candidate.pending) && Own(db, m, candidate.resolved)
    && (candidate.resolved.Some? ==> ResolvedIn(db.runStates, m, candidate.resolved.value))
  }

  // ---------------------------------------------------------------- under the authority of a claim

  /** The first version, or a swap, after `require_current`. */
  function SaveState(db: Db, auth: Authority, now: Time, candidate: RunState): Outcome<bool> {
    if !Current(db, auth, now) then Raised(FenceLost)
    else
      var m := db.attempts[auth.attempt].memorial;
      if !Writable(db, m, candidate) then Raised(Conflict)
      else if m !in db.runStates then
        if candidate.version != 1 then Raised(InvalidRequest) else Committed(SetState(db, m, Decoded(candidate)), true)
      else if !Swappable(db, m, candidate) then Raised(Conflict)
      else Committed(Swap(db, m, candidate), true)
  }

  lemma SaveKeeps(db: Db, auth: Authority, now: Time, candidate: RunState)
    requires Inv(db)
    ensures var next := SaveState(db, auth, now, candidate).After(db); Inv(next) && Advances(db, next)
  {
    if SaveState(db, auth, now, candidate).Raised? {
      KeepsSame(db);
    } else {
      var m := db.attempts[auth.attempt].memorial;
      assert AttemptWell(db.memorials, db.attempts[auth.attempt]);
      if m in db.runStates {
        RewritesKeeps(db, m, Decoded(Saved(candidate)));
      } else {
        RewritesKeeps(db, m, Decoded(candidate));
      }
    }
  }

  // ---------------------------------------------------------------- under no authority

  /** The phases a writer without authority creates a row in. */
  predicate DraftPhase(p: RunPhase) {
    p.PhasePlanning? || p.PhaseExecuting? || p.PhaseWaiting?
  }

  /** A plan is revised or activated at a planning boundary, or a decision is requested while executing after one. */
  predicate MayDraft(x: RunState, y: RunState) {
    || ((x.phase.PhasePlanning? || x.phase.PhasePaused?) && (y.phase.PhasePlanning? || y.phase.PhaseExecuting?))
    || (x.phase.PhaseExecuting? && x.pending.None? && x.resolved.Some? && y.phase.PhaseWaiting?)
  }

  /** A save that looks at the stored row only: neither at the claim nor at the root's status. */
  function DraftState(db: Db, m: MemorialId, candidate: RunState): Outcome<bool> {
    if !Writable(db, m, candidate) then Raised(Conflict)
    else if m !in db.runStates then
      if candidate.version != 1 || !DraftPhase(candidate.phase) then Raised(InvalidRequest)
      else Committed(SetState(db, m, Decoded(candidate)), true)
    else if db.runStates[m].Undecodable? then Raised(DecodeError)
    else if !MayDraft(db.runStates[m].state, candidate) || !Swappable(db, m, candidate) then Raised(Conflict)
    else Committed(Swap(db, m, candidate), true)
  }

  /** Without any fence a save still keeps the invariant, and never touches a row that matches a finished root. */
  lemma DraftKeeps(db: Db, m: MemorialId, candidate: RunState)
    requires Inv(db)
    ensures var next := DraftState(db, m, candidate).After(db); Inv(next) && Advances(db, next)
  {
    if DraftState(db, m, candidate).Raised? {
      KeepsSame(db);
    } else if m in db.runStates {
      RewritesKeeps(db, m, Decoded(Saved(candidate)));
    } else {
      RewritesKeeps(db, m, Decoded(candidate));
    }
  }

  // ---------------------------------------------------------------- the projection of a decision

  /** `_terminal_phase` */
  function ProjectedPhase(r: Decision): RunPhase {
    if !r.kind.PlanReviewDecision? then PhaseExecuting
    else if r.status.Resolved? && r.status.action.Approve? then PhasePlanning
    else PhaseFailed
  }

  function Released(s: RunState, r: Decision, d: DecisionId): RunState {
    s.(phase := ProjectedPhase(r), pending := None, resolved := Some(d),
       updatedAt := Max(s.updatedAt, if r.status.Resolved? then r.status.resolvedAt else r.updatedAt))
  }

  /** `_mark_run_state_terminal`: the row that waits for the decision is moved on, once. */
  function ProjectDecision(db: Db, d: DecisionId): Outcome<bool> {
    if d !in db.decisions || db.decisions[d].kind.GovernedApplyDecision? || db.decisions[d].status.Pending? then
      Raised(Conflict)
    else
      var r := db.decisions[d];
      var m := r.memorial;
      if m !in db.runStates then Raised(Conflict)
      else if db.runStates[m].Undecodable? then Raised(DecodeError)
      else
        var s := db.runStates[m].state;
        if s.phase == ProjectedPhase(r) && s.pending.None? && s.resolved == Some(d) then Committed(db, false)
        else if !s.phase.PhaseWaiting? || s.pending != Some(d) then Raised(Conflict)
        else if !Swappable(db, m, Released(s, r, d)) then Raised(Conflict)
        else Committed(Swap(db, m, Released(s, r, d)), true)
  }

  lemma ProjectDecisionKeeps(db: Db, d: DecisionId)
    requires Inv(db)
    ensures Keeps(db, ProjectDecision(db, d).After(db))
  {
    var o := ProjectDecision(db, d);
    if o.Raised? || !o.value {
      KeepsSame(db);
    } else {
      var r := db.decisions[d];
      var s := db.runStates[r.memorial].state;
      assert forall e :: Names(Decoded(Released(s, r, d)), e) ==> Names(Decoded(s), e);
      SwapKeeps(db, r.memorial, Released(s, r, d));
    }
  }

  /** Projecting a decision twice is projecting it once. */
  lemma ProjectDecisionTwice(db: Db, d: DecisionId)
    requires ProjectDecision(db, d).Committed?
    ensures ProjectDecision(ProjectDecision(db, d).db, d) == Committed(ProjectDecision(db, d).db, false)
  {
  }

  // ---------------------------------------------------------------- the whole answer of each

  predicate NamesOwn(db: Db, m: MemorialId, d: Option<DecisionId>) {
    match d
    case Some(id) => id in db.decisions && db.decisions[id].memorial == m
    case None => true
  }

  /** The state is of the Memorial's edict, waits exactly while a decision is pending and none is resolved, names
      decisions of this Memorial only, and holds as resolved at most the one stored. */
  predicate Fits(db: Db, m: MemorialId, s: RunState) {
    && m in db.memorials && db.memorials[m].edict == s.edict
    && (s.pending.Some? <==> s.phase == PhaseWaiting) && (s.pending == None || s.resolved == None)
    && NamesOwn(db, m, s.pending) && NamesOwn(db, m, s.resolved)
    && (s.resolved == None || (m in db.runStates && db.runStates[m].Decoded? && db.runStates[m].state.resolved == s.resolved))
  }

  /** The state was read at the stored version, and is of the same edict and not older. */
  predicate Supersedes(row: RunRow, s: RunState) {
    row.Decoded? && row.state.version == s.version && row.state.edict == s.edict && row.state.updatedAt <= s.updatedAt
  }

  /** A first version is stored as it is, a later one with the next version; nothing else is written. */
  function Stores(db: Db, m: MemorialId, s: RunState): Db {
    db.(runStates := db.runStates[m := Decoded(if m in db.runStates then s.(version := s.version + 1) else s)])
  }

  /** A fenced save commits if and only if its authority is current and the state fits and supersedes the stored one, or
      is a first version. */
  lemma SaveAnswers(db: Db, auth: Authority, now: Time, candidate: RunState)
    ensures var o := SaveState(db, auth, now, candidate);
            && (o.Committed? <==>
                  && Current(db, auth, now)
                  && var m := db.attempts[auth.attempt].memorial;
                     && Fits(db, m, candidate)
                     && if m in db.runStates then Supersedes(db.runStates[m], candidate) else candidate.version == 1)
            && (o.Committed? ==> o == Committed(Stores(db, db.attempts[auth.attempt].memorial, candidate), true))
  {
  }

  /** A save without authority commits if and only if the state fits and is a first version in planning, executing or
      waiting, or supersedes the stored one at a planning boundary, or waits right after a resolved decision. */
  lemma DraftAnswers(db: Db, m: MemorialId, candidate: RunState)
    ensures var o := DraftState(db, m, candidate);
            && (o.Committed? <==>
                  && Fits(db, m, candidate)
                  && if m !in db.runStates
                     then candidate.version == 1 && candidate.phase in {PhasePlanning, PhaseExecuting, PhaseWaiting}
                     else
                       && Supersedes(db.runStates[m], candidate)
                       && var s := db.runStates[m].state;
                          || (s.phase in {PhasePlanning, PhasePaused} && candidate.phase in {PhasePlanning, PhaseExecuting})
                          || (s.phase == PhaseExecuting && s.pending == None && s.resolved != None
                              && candidate.phase == PhaseWaiting))
            && (o.Committed? ==> o == Committed(Stores(db, m, candidate), true))
  {
  }

  /** Where the end of a decision leads: a plan review back to planning or to failure, any other back to execution. */
  predicate LeadsTo(r: Decision, phase: RunPhase) {
    match r.kind
    case PlanReviewDecision =>
      phase == if r.status.Resolved? && r.status.action == Approve then PhasePlanning else PhaseFailed
    case _ => phase == PhaseExecuting
  }

  /** The projection of a decision commits if and only if the decision has ended and the RunState of its Memorial waits
      for it, under the Memorial's edict, or was moved on by it.  In the first case the row is moved on, with cursor and proposal as they were; in
      the second nothing changes. */
  lemma ProjectionAnswers(db: Db, d: DecisionId)
    ensures var o := ProjectDecision(db, d);
            && (o.Committed? <==>
                  && d in db.decisions && db.decisions[d].kind != GovernedApplyDecision && db.decisions[d].status != Pending
                  && var m := db.decisions[d].memorial;
                     && m in db.runStates && db.runStates[m].Decoded?
                     && var s := db.runStates[m].state;
                        || (s.phase == PhaseWaiting && s.pending == Some(d)
                            && m in db.memorials && db.memorials[m].edict == s.edict)
                        || (LeadsTo(db.decisions[d], s.phase) && s.pending == None && s.resolved == Some(d)))
            && (o.Committed? ==>
                  var r, s := db.decisions[d], db.runStates[db.decisions[d].memorial].state;
                  if s.phase != PhaseWaiting then o == Committed(db, false)
                  else
                    && o.value && r.memorial in o.db.runStates && o.db.runStates[r.memorial].Decoded?
                    && LeadsTo(r, o.db.runStates[r.memorial].state.phase)
                    && o.db == db.(runStates := db.runStates[r.memorial :=
                         Decoded(s.(phase := o.db.runStates[r.memorial].state.phase, pending := None, resolved := Some(d),
                                    version := s.version + 1,
                                    updatedAt := Max(s.updatedAt, if r.status.Resolved? then r.status.resolvedAt else r.updatedAt)))]))
  {
  }

  // ---------------------------------------------------------------- nothing else is touched

  /** At most the RunState of `m` is written. */
  ghost predicate WritesOnly(db: Db, next: Db, m: MemorialId) {
    && next.memorials == db.memorials && next.attempts == db.attempts && next.outbox == db.outbox
    && next.decisions == db.decisions
    && forall n :: n != m ==>
         (n in next.runStates <==> n in db.runStates) && (n in db.runStates ==> next.runStates[n] == db.runStates[n])
  }

  lemma SetStateWritesOnly(db: Db, m: MemorialId, row: RunRow)
    ensures WritesOnly(db, SetState(db, m, row), m)
  {
  }

  lemma SaveWritesOnly(db: Db, auth: Authority, now: Time, candidate: RunState)
    ensures var next := SaveState(db, auth, now, candidate).After(db);
            next == db || (Current(db, auth, now) && WritesOnly(db, next, db.attempts[auth.attempt].memorial))
  {
    if SaveState(db, auth, now, candidate).Committed? {
      SetStateWritesOnly(db, db.attempts[auth.attempt].memorial, Decoded(candidate));
      SetStateWritesOnly(db, db.attempts[auth.attempt].memorial, Decoded(Saved(candidate)));
    }
  }

  lemma DraftWritesOnly(db: Db, m: MemorialId, candidate: RunState)
    ensures WritesOnly(db, DraftState(db, m, candidate).After(db), m)
  {
    SetStateWritesOnly(db, m, Decoded(candidate));
    SetStateWritesOnly(db, m, Decoded(Saved(candidate)));
  }

  lemma SetStateQuiet(db: Db, m: MemorialId, row: RunRow)
    ensures Quiet(db, SetState(db, m, row))
  {
  }

  lemma SaveQuiet(db: Db, auth: Authority, now: Time, candidate: RunState)
    ensures Quiet(db, SaveState(db, auth, now, candidate).After(db))
  {
    if SaveState(db, auth, now, candidate).Committed? {
      SetStateQuiet(db, db.attempts[auth.attempt].memorial, Decoded(candidate));
      SetStateQuiet(db, db.attempts[auth.attempt].memorial, Decoded(Saved(candidate)));
    }
  }

  lemma DraftQuiet(db: Db, m: MemorialId, candidate: RunState)
    ensures Quiet(db, DraftState(db, m, candidate).After(db))
  {
    SetStateQuiet(db, m, Decoded(candidate));
    SetStateQuiet(db, m, Decoded(Saved(candidate)));
  }

  lemma ProjectDecisionQuiet(db: Db, d: DecisionId)
    ensures Quiet(db, ProjectDecision(db, d).After(db))
  {
    var o := ProjectDecision(db, d);
    if o.Committed? && o.value {
      var r := db.decisions[d];
      SetStateQuiet(db, r.memorial, Decoded(Saved(Released(db.runStates[r.memorial].state, r, d))));
    }
  }
}
