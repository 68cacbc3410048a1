/** Convergence of resolved tool and outer-loop decisions: `application/continuation_recovery.py`. */
module ContinuationRecovery {
  import opened Durable
  import opened Invariant
  import opened AttemptLedger
  import opened RunStateRepository
  import opened FencedCompletion

  /** A `decision.resolved` envelope. */
  datatype ResolvedEvent =
    ResolvedEvent(decision: DecisionId, edict: EdictId, memorial: MemorialId, kind: DecisionKind, action: Action)

  predicate Supported(db: Db, d: DecisionId) {
    && d in db.decisions
    && db.decisions[d].status.Resolved?
    && (|| db.decisions[d].kind.OuterLoopDecision?
        || (db.decisions[d].kind.ToolDecision? && db.decisions[d].requestKey.SideEffectKey?))
  }

  predicate IsCancel(r: Decision)
    requires r.status.Resolved?
  {
    || (r.kind.OuterLoopDecision? && r.status.action.Abort?)
    || (r.kind.ToolDecision? && r.status.action.Reject?)
  }

  predicate EventMatches(ev: ResolvedEvent, r: Decision)
    requires r.status.Resolved?
  {
    ev.edict == r.edict && ev.memorial == r.memorial && ev.kind == r.kind && ev.action == r.status.action
  }

  predicate Answered(db: Db, d: DecisionId) {
    ResumeEvent(d) in db.outbox || DecisionCancelEvent(d) in db.outbox
  }

  /** The RunState waits for this decision, or has already been moved on by it. */
  predicate StateBinding(s: RunState, d: DecisionId, edict: EdictId) {
    && s.edict == edict
    && (|| (s.phase.PhaseWaiting? && s.pending == Some(d) && s.resolved.None?)
        || (s.phase.PhaseExecuting? && s.pending.None? && s.resolved == Some(d)))
  }

  predicate IntentBound(db: Db, r: Decision) {
    r.requestKey.SideEffectKey? && r.requestKey.intent in db.intents
    && db.intents[r.requestKey.intent].memorial == r.memorial
  }

  function ResumedState(db: Db, r: Decision, d: DecisionId, s: RunState, now: Time): RunState
    requires r.status.Resolved? && (r.kind.ToolDecision? ==> IntentBound(db, r))
  {
    var moved := s.(phase := PhaseExecuting, pending := None, resolved := Some(d),
                    updatedAt := Max(Max(s.updatedAt, r.status.resolvedAt), now));
    if r.kind.ToolDecision? then
      var after := db.intents[r.requestKey.intent].sequenceNo + 1;
      moved.(pendingTool := false, cursor := if s.cursor < after then after else s.cursor)
    else moved
  }

  /** `_resume_state` does not raise: a state the decision has already moved on is left alone. */
  predicate CanResumeState(db: Db, r: Decision, d: DecisionId, s: RunState, now: Time)
    requires r.status.Resolved?
  {
    || s.phase.PhaseExecuting?
    || ((r.kind.ToolDecision? ==> IntentBound(db, r)) && Swappable(db, r.memorial, ResumedState(db, r, d, s, now)))
  }

  function ResumeState(db: Db, r: Decision, d: DecisionId, s: RunState, now: Time): Db
    requires r.status.Resolved? && CanResumeState(db, r, d, s, now)
  {
    if s.phase.PhaseExecuting? then db else Swap(db, r.memorial, ResumedState(db, r, d, s, now))
  }

  function CancelledState(r: Decision, d: DecisionId, s: RunState, now: Time): RunState
    requires r.status.Resolved?
  {
    s.(phase := PhaseFailed, pending := None, resolved := Some(d), pendingTool := false,
       updatedAt := Max(Max(s.updatedAt, r.status.resolvedAt), now))
  }

  function Resumed(t: Attempt, availableAt: Time): Attempt {
    t.(status := Claimable, lease := None, availableAt := availableAt, version := t.version + 1)
  }

  /** `_cancel` */
  function Cancel(db: Db, d: DecisionId, s: RunState, a: AttemptId, now: Time): Outcome<bool>
    requires Supported(db, d) && a in db.attempts && ActiveRoot(db, db.decisions[d].memorial)
  {
    var r := db.decisions[d];
    var m := r.memorial;
    if !Swappable(db, m, CancelledState(r, d, s, now)) then Raised(Conflict)
    else if DecisionCancelEvent(d) in db.outbox then Raised(Conflict)
    else
      Committed(
        Settle(db, m, Finished(db.memorials[m], Cancelled, None),
               db.attempts[a := Retire(db.attempts[a], AttemptFailed)],
               Swap(db, m, CancelledState(r, d, s, now)).runStates,
               DecisionCancelEvent(d), Event(ExecutionCancelled, r.edict, m, Plain)),
        true)
  }

  function Wake(db: Db, a: AttemptId, now: Time): Db {
    if a in db.attempts && db.attempts[a].status.Suspended? then Update(db, a, Resumed(db.attempts[a], now)) else db
  }

  function Resume(db: Db, d: DecisionId, s: RunState, a: AttemptId, now: Time): Outcome<bool>
    requires Supported(db, d) && a in db.attempts
  {
    var r := db.decisions[d];
    if !CanResumeState(db, r, d, s, now) then Raised(Conflict)
    else if ResumeEvent(d) in db.outbox then Raised(Conflict)
    else Committed(Post(Wake(ResumeState(db, r, d, s, now), a, now), ResumeEvent(d), Event(ResumeRequested, r.edict, r.memorial, Plain)), true)
  }

  /** The part of the handler that acts: an unanswered decision of an active root. */
  ghost function Act(db: Db, d: DecisionId, now: Time): Outcome<bool>
    requires Supported(db, d) && ActiveRoot(db, db.decisions[d].memorial)
  {
    var r := db.decisions[d];
    var m := r.memorial;
    if m !in db.runStates then Raised(Unavailable)
    else if db.runStates[m].Undecodable? then Raised(DecodeError)
    else if !StateBinding(db.runStates[m].state, d, r.edict) then Raised(Conflict)
    else
      var live := LiveOf(db, m);
      if live.None? then Raised(Unavailable)
      else if IsCancel(r) then Cancel(db, d, db.runStates[m].state, live.value, now)
      else Resume(db, d, db.runStates[m].state, live.value, now)
  }

  /** `handle_decision_resolved` */
  ghost function Handle(db: Db, ev: ResolvedEvent, now: Time): Outcome<bool> {
    if !Supported(db, ev.decision) then Committed(db, false)
    else
      var r := db.decisions[ev.decision];
      if !EventMatches(ev, r) then Raised(Conflict)
      else if !Root(db, r.memorial) || db.memorials[r.memorial].edict != r.edict then Raised(Unavailable)
      else if Terminal(db.memorials[r.memorial].status) || Answered(db, ev.decision) then Committed(db, false)
      else Act(db, ev.decision, now)
  }

  method HandleDecisionResolved(storage: Storage, ev: ResolvedEvent, now: Time) returns (r: Option<bool>)
    requires OneLive(storage.db)
    modifies storage
    ensures storage.db == Handle(old(storage.db), ev, now).After(old(storage.db))
    ensures r == match Handle(old(storage.db), ev, now)
                 case Committed(_, handled) => Some(handled)
                 case Raised(_) => None
  {
    var db, d := storage.db, ev.decision;
    if !Supported(db, d) { return Some(false); }
    var record := db.decisions[d];
    var m := record.memorial;
    if !EventMatches(ev, record) { return None; }
    if !Root(db, m) || db.memorials[m].edict != record.edict { return None; }
    if Terminal(db.memorials[m].status) { return Some(false); }
    if ResumeEvent(d) in db.outbox || DecisionCancelEvent(d) in db.outbox { return Some(false); }
    if m !in db.runStates || db.runStates[m].Undecodable? { return None; }
    var state := db.runStates[m].state;
    if !StateBinding(state, d, record.edict) { return None; }
    if a :| a in db.attempts && IsLive(db.attempts, a, m) {
      assert LiveOf(db, m) == Some(a);
      if IsCancel(record) {
        if !Swappable(db, m, CancelledState(record, d, state, now)) { return None; }
        db := Swap(db, m, CancelledState(record, d, state, now));
        db := Update(db, a, Retire(db.attempts[a], AttemptFailed));
        db := SetMemorial(db, m, Finished(db.memorials[m], Cancelled, None));
        db := Post(db, DecisionCancelEvent(d), Event(ExecutionCancelled, record.edict, m, Plain));
      } else {
        if !CanResumeState(db, record, d, state, now) { return None; }
        db := ResumeState(db, record, d, state, now);
        if db.attempts[a].status.Suspended? {
          db := Update(db, a, Resumed(db.attempts[a], now));
        }
        db := Post(db, ResumeEvent(d), Event(ResumeRequested, record.edict, m, Plain));
      }
      storage.db := db;
      return Some(true);
    } else {
      return None;
    }
  }

  // ---------------------------------------------------------------- it keeps the invariant

  /** The stored RunState of the decision's root is `s` and is bound to the decision. */
  predicate BoundTo(db: Db, d: DecisionId, s: RunState)
    requires d in db.decisions
  {
    && db.decisions[d].memorial in db.runStates && db.runStates[db.decisions[d].memorial] == Decoded(s)
    && StateBinding(s, d, db.decisions[d].edict)
  }

  lemma CancelSettles(db: Db, d: DecisionId, s: RunState, a: AttemptId, now: Time)
    requires Supported(db, d) && !Answered(db, d) && ActiveRoot(db, db.decisions[d].memorial) && a in db.attempts
    requires Retires(db.attempts, db.attempts[a := Retire(db.attempts[a], AttemptFailed)], db.decisions[d].memorial)
    requires BoundTo(db, d, s)
    requires Cancel(db, d, s, a, now).Committed?
    ensures SettlesTo(db, Cancel(db, d, s, a, now).db)
  {
    var r := db.decisions[d];
    var m := r.memorial;
    assert Settles(db, m, Finished(db.memorials[m], Cancelled, None),
                   db.attempts[a := Retire(db.attempts[a], AttemptFailed)],
                   Swap(db, m, CancelledState(r, d, s, now)).runStates,
                   DecisionCancelEvent(d), Event(ExecutionCancelled, r.edict, m, Plain));
  }

  lemma CancelKeeps(db: Db, d: DecisionId, s: RunState, a: AttemptId, now: Time)
    requires Inv(db) && Supported(db, d) && !Answered(db, d) && ActiveRoot(db, db.decisions[d].memorial)
    requires IsLive(db.attempts, a, db.decisions[d].memorial)
    requires BoundTo(db, d, s)
    ensures Keeps(db, Cancel(db, d, s, a, now).After(db))
  {
    if Cancel(db, d, s, a, now).Raised? {
      KeepsSame(db);
    } else {
      RetireOne(db, a, AttemptFailed);
      CancelSettles(db, d, s, a, now);
      SettlesToKeeps(db, Cancel(db, d, s, a, now).db);
    }
  }

  lemma ResumeStateKeeps(db: Db, d: DecisionId, s: RunState, now: Time)
    requires Inv(db) && Supported(db, d) && ActiveRoot(db, db.decisions[d].memorial)
    requires BoundTo(db, d, s)
    requires CanResumeState(db, db.decisions[d], d, s, now)
    ensures Keeps(db, ResumeState(db, db.decisions[d], d, s, now))
  {
    if s.phase.PhaseExecuting? {
      KeepsSame(db);
    } else {
      SwapKeeps(db, db.decisions[d].memorial, ResumedState(db, db.decisions[d], d, s, now));
    }
  }

  lemma WakeKeeps(db: Db, a: AttemptId, now: Time)
    requires Inv(db) && a in db.attempts
    ensures Keeps(db, Wake(db, a, now))
  {
    if db.attempts[a].status.Suspended? {
      MovesKeeps(db, a, Resumed(db.attempts[a], now));
    } else {
      KeepsSame(db);
    }
  }

  lemma MovedKeeps(db: Db, d: DecisionId, s: RunState, a: AttemptId, now: Time)
    requires Inv(db) && Supported(db, d) && ActiveRoot(db, db.decisions[d].memorial)
    requires a in db.attempts && CanResumeState(db, db.decisions[d], d, s, now)
    requires BoundTo(db, d, s)
    ensures var next := Wake(ResumeState(db, db.decisions[d], d, s, now), a, now);
            Keeps(db, next) && next.outbox == db.outbox
  {
    ResumeStateKeeps(db, d, s, now);
    var moved := ResumeState(db, db.decisions[d], d, s, now);
    ResumeStateAside(db, db.decisions[d], d, s, now);
    WakeKeeps(moved, a, now);
    WakeAside(moved, a, now);
    KeepsTransitive(db, moved, Wake(moved, a, now));
  }

  lemma ResumeAnnounceKeeps(db: Db, d: DecisionId, edict: EdictId, m: MemorialId)
    requires Inv(db) && !Answered(db, d)
    ensures Keeps(db, Post(db, ResumeEvent(d), Event(ResumeRequested, edict, m, Plain)))
  {
    AnnouncesKeeps(db, ResumeEvent(d), Event(ResumeRequested, edict, m, Plain));
  }

  lemma ResumeKeeps(db: Db, d: DecisionId, s: RunState, a: AttemptId, now: Time)
    requires Inv(db) && Supported(db, d) && !Answered(db, d) && ActiveRoot(db, db.decisions[d].memorial)
    requires a in db.attempts
    requires BoundTo(db, d, s)
    ensures Keeps(db, Resume(db, d, s, a, now).After(db))
  {
    var o := Resume(db, d, s, a, now);
    var r := db.decisions[d];
    if o.Raised? {
      KeepsSame(db);
    } else {
      MovedKeeps(db, d, s, a, now);
      var moved := Wake(ResumeState(db, r, d, s, now), a, now);
      ResumeAnnounceKeeps(moved, d, r.edict, r.memorial);
      KeepsTransitive(db, moved, o.db);
    }
  }

  lemma HandleKeeps(db: Db, ev: ResolvedEvent, now: Time)
    requires Inv(db)
    ensures Keeps(db, Handle(db, ev, now).After(db))
  {
    var o := Handle(db, ev, now);
    if o.Raised? || o == Committed(db, false) {
      KeepsSame(db);
    } else {
      var r := db.decisions[ev.decision];
      var s, a := db.runStates[r.memorial].state, LiveOf(db, r.memorial).value;
      if IsCancel(r) {
        CancelKeeps(db, ev.decision, s, a, now);
      } else {
        ResumeKeeps(db, ev.decision, s, a, now);
      }
    }
  }

  // ---------------------------------------------------------------- what it promises

  lemma CancelMeans(db: Db, d: DecisionId, s: RunState, a: AttemptId, now: Time)
    requires Supported(db, d) && a in db.attempts && ActiveRoot(db, db.decisions[d].memorial)
    requires Cancel(db, d, s, a, now).Committed?
    ensures var o := Cancel(db, d, s, a, now);
            var m := db.decisions[d].memorial;
            && o.value && DecisionCancelEvent(d) in o.db.outbox && o.db.decisions == db.decisions
            && o.db.memorials == db.memorials[m := Finished(db.memorials[m], Cancelled, None)]
            && o.db.runStates == db.runStates[m := Decoded(Saved(CancelledState(db.decisions[d], d, s, now)))]
  {
  }

  lemma ResumeStateAside(db: Db, r: Decision, d: DecisionId, s: RunState, now: Time)
    requires r.status.Resolved? && CanResumeState(db, r, d, s, now)
    ensures var next := ResumeState(db, r, d, s, now);
            && next.memorials == db.memorials && next.decisions == db.decisions && next.outbox == db.outbox
            && next.attempts == db.attempts
  {
  }

  lemma WakeAside(db: Db, a: AttemptId, now: Time)
    ensures var next := Wake(db, a, now);
            next.memorials == db.memorials && next.decisions == db.decisions && next.outbox == db.outbox
  {
  }

  lemma ResumeMeans(db: Db, d: DecisionId, s: RunState, a: AttemptId, now: Time)
    requires Supported(db, d) && a in db.attempts && Resume(db, d, s, a, now).Committed?
    ensures var o := Resume(db, d, s, a, now);
            && o.value && ResumeEvent(d) in o.db.outbox && o.db.decisions == db.decisions
            && o.db.memorials == db.memorials
  {
    ResumeStateAside(db, db.decisions[d], d, s, now);
    WakeAside(ResumeState(db, db.decisions[d], d, s, now), a, now);
  }

  /** A delivery that acts answers its decision, on its own root: a cancelling decision leaves the root
      cancelled, any other leaves every root as it was. */
  lemma ActAnswers(db: Db, d: DecisionId, now: Time)
    requires Supported(db, d) && ActiveRoot(db, db.decisions[d].memorial) && Act(db, d, now).Committed?
    ensures var o := Act(db, d, now);
            var m := db.decisions[d].memorial;
            && o.value && Answered(o.db, d) && o.db.decisions == db.decisions
            && o.db.memorials == if IsCancel(db.decisions[d])
                                 then db.memorials[m := Finished(db.memorials[m], Cancelled, None)] else db.memorials
  {
    var s, a := db.runStates[db.decisions[d].memorial].state, LiveOf(db, db.decisions[d].memorial).value;
    if IsCancel(db.decisions[d]) {
      CancelMeans(db, d, s, a, now);
    } else {
      ResumeMeans(db, d, s, a, now);
    }
  }

  /** The event's decision is answered and its root is there. */
  predicate Settled(db: Db, ev: ResolvedEvent) {
    && Supported(db, ev.decision) && EventMatches(ev, db.decisions[ev.decision]) && Answered(db, ev.decision)
    && Root(db, ev.memorial) && db.memorials[ev.memorial].edict == ev.edict
  }

  lemma SettledIsNoChange(db: Db, ev: ResolvedEvent, now: Time)
    requires Settled(db, ev)
    ensures Handle(db, ev, now) == Committed(db, false)
  {
  }

  lemma SettledStays(db: Db, later: Db, ev: ResolvedEvent)
    requires Settled(db, ev) && Advances(db, later)
    ensures Settled(later, ev)
  {
    assert DecisionAdvances(db.decisions[ev.decision], later.decisions[ev.decision]);
    assert MemorialAdvances(db.memorials[ev.memorial], later.memorials[ev.memorial]);
  }

  lemma DeliverySettles(db: Db, ev: ResolvedEvent, now: Time)
    requires Handle(db, ev, now).Committed? && Handle(db, ev, now).value
    ensures Settled(Handle(db, ev, now).db, ev)
  {
    assert Handle(db, ev, now) == Act(db, ev.decision, now);
    ActAnswers(db, ev.decision, now);
  }

  /** A delivery that acted is answered for good: whatever happens to the rows afterwards, the same event
      delivered again returns False and changes nothing. */
  lemma RedeliveryIsNoChange(db: Db, ev: ResolvedEvent, now: Time, later: Db, again: Time)
    requires Handle(db, ev, now).Committed? && Handle(db, ev, now).value
    requires Advances(Handle(db, ev, now).db, later)
    ensures Handle(later, ev, again) == Committed(later, false)
  {
    DeliverySettles(db, ev, now);
    SettledStays(Handle(db, ev, now).db, later, ev);
    SettledIsNoChange(later, ev, again);
  }

  // ---------------------------------------------------------------- what a resume does to the RunState

  /** The delivery acts: it commits and returns True. */
  ghost predicate Acts(db: Db, ev: ResolvedEvent, now: Time) {
    Handle(db, ev, now).Committed? && Handle(db, ev, now).value
  }

  /** The delivery acts and does not cancel. */
  ghost predicate Resumes(db: Db, ev: ResolvedEvent, now: Time) {
    Supported(db, ev.decision) && !IsCancel(db.decisions[ev.decision]) && Acts(db, ev, now)
  }

  lemma ResumeWrites(db: Db, ev: ResolvedEvent, now: Time)
    requires Resumes(db, ev, now)
    ensures var d, r := ev.decision, db.decisions[ev.decision];
            && r.memorial in db.runStates && db.runStates[r.memorial].Decoded?
            && BoundTo(db, d, db.runStates[r.memorial].state)
            && CanResumeState(db, r, d, db.runStates[r.memorial].state, now)
            && Handle(db, ev, now).db.runStates == ResumeState(db, r, d, db.runStates[r.memorial].state, now).runStates
  {
    var r := db.decisions[ev.decision];
    var s, a := db.runStates[r.memorial].state, LiveOf(db, r.memorial).value;
    assert Handle(db, ev, now) == Resume(db, ev.decision, s, a, now);
    WakeMeans(ResumeState(db, r, ev.decision, s, now), a, now);
  }

  /** What a tool resume leaves, exactly.  The side-effect cursor is past the intent of the decision if and only if
      the RunState still waited, or was past it before; the proposal is cleared if and only if it still waited, or
      there was none.  A RunState that the projection of the decision has moved on already is resumed as it is, and
      only then may the intent be missing. */
  lemma ToolResumePassesIntent(db: Db, ev: ResolvedEvent, now: Time)
    requires Resumes(db, ev, now) && db.decisions[ev.decision].kind.ToolDecision?
    ensures var r, next := db.decisions[ev.decision], Handle(db, ev, now).db;
            && r.memorial in db.runStates && db.runStates[r.memorial].Decoded?
            && r.memorial in next.runStates && next.runStates[r.memorial].Decoded?
            && var s, t := db.runStates[r.memorial].state, next.runStates[r.memorial].state;
               && s.cursor <= t.cursor
               && (IntentBound(db, r) ==>
                     (db.intents[r.requestKey.intent].sequenceNo < t.cursor <==>
                        s.phase.PhaseWaiting? || db.intents[r.requestKey.intent].sequenceNo < s.cursor))
               && (!t.pendingTool <==> s.phase.PhaseWaiting? || !s.pendingTool)
               && (s.phase.PhaseWaiting? ==> IntentBound(db, r))
               && (!s.phase.PhaseWaiting? ==> t == s)
  {
    ResumeWrites(db, ev, now);
  }

  // ---------------------------------------------------------------- the whole answer of a delivery

  /** The decision is stored, resolved and of a kind the service handles. */
  predicate Concerns(db: Db, d: DecisionId) {
    && d in db.decisions && db.decisions[d].status.Resolved?
    && (|| db.decisions[d].kind == OuterLoopDecision
        || (db.decisions[d].kind == ToolDecision && db.decisions[d].requestKey.SideEffectKey?))
  }

  /** The event says what is stored, and the decision's Memorial is a root of its edict. */
  predicate Trusted(db: Db, ev: ResolvedEvent)
    requires Concerns(db, ev.decision)
  {
    var r := db.decisions[ev.decision];
    && ev == ResolvedEvent(ev.decision, r.edict, r.memorial, r.kind, r.status.action)
    && r.memorial in db.memorials && db.memorials[r.memorial].isRoot && db.memorials[r.memorial].edict == r.edict
  }

  /** The root is finished or the decision has its answer. */
  predicate Over(db: Db, d: DecisionId)
    requires d in db.decisions && db.decisions[d].memorial in db.memorials
  {
    || db.memorials[db.decisions[d].memorial].status in {Completed, Failed, Cancelled}
    || ResumeEvent(d) in db.outbox || DecisionCancelEvent(d) in db.outbox
  }

  /** The root's RunState waits for the decision or was moved on by it. */
  predicate HoldsDecision(db: Db, d: DecisionId)
    requires d in db.decisions
  {
    var r := db.decisions[d];
    && r.memorial in db.runStates && db.runStates[r.memorial].Decoded?
    && var s := db.runStates[r.memorial].state;
       && s.edict == r.edict
       && (|| (s.phase == PhaseWaiting && s.pending == Some(d) && s.resolved == None)
           || (s.phase == PhaseExecuting && s.pending == None && s.resolved == Some(d)))
  }

  /** A tool decision that is to be resumed from the waiting phase has its intent. */
  predicate IntentThere(db: Db, d: DecisionId)
    requires Concerns(db, d) && HoldsDecision(db, d)
  {
    var r := db.decisions[d];
    r.kind == ToolDecision && r.status.action != Reject && db.runStates[r.memorial].state.phase == PhaseWaiting ==>
      r.requestKey.intent in db.intents && db.intents[r.requestKey.intent].memorial == r.memorial
  }

  /** A delivery is ignored, acts or raises: ignored for decisions of other kinds or states, and when all is over; it
      acts exactly when the decision is held by its root's RunState, an attempt is live and the intent is there. */
  lemma HandleAnswers(db: Db, ev: ResolvedEvent, now: Time)
    ensures var d, o := ev.decision, Handle(db, ev, now);
            && (o == Committed(db, false) <==> !Concerns(db, d) || (Trusted(db, ev) && Over(db, d)))
            && (Acts(db, ev, now) <==>
                  && Concerns(db, d) && Trusted(db, ev) && !Over(db, d) && HoldsDecision(db, d) && IntentThere(db, d)
                  && exists a :: IsLive(db.attempts, a, db.decisions[d].memorial))
            && (o.Committed? ==> Acts(db, ev, now) || o == Committed(db, false))
  {
    assert Supported(db, ev.decision) == Concerns(db, ev.decision);
    if Supported(db, ev.decision) && Trusted(db, ev) && !Over(db, ev.decision) {
      ActCommits(db, ev.decision, now);
    }
  }

  lemma ActCommits(db: Db, d: DecisionId, now: Time)
    requires Supported(db, d) && ActiveRoot(db, db.decisions[d].memorial) && !Answered(db, d)
    requires db.memorials[db.decisions[d].memorial].edict == db.decisions[d].edict
    ensures Concerns(db, d)
    ensures Act(db, d, now).Committed? <==>
              && HoldsDecision(db, d) && IntentThere(db, d) && exists a :: IsLive(db.attempts, a, db.decisions[d].memorial)
    ensures Act(db, d, now).Committed? ==> Act(db, d, now).value
  {
    var m, live := db.decisions[d].memorial, LiveOf(db, db.decisions[d].memorial);
    if HoldsDecision(db, d) && live.Some? {
      assert IsLive(db.attempts, live.value, m);
    }
  }

  /** Every suspended attempt of the root is claimable from `now` on; all others are as they were. */
  ghost predicate Woken(ts: Attempts, us: Attempts, m: MemorialId, now: Time) {
    && us.Keys == ts.Keys
    && forall a :: a in ts ==>
         us[a] == if ts[a].memorial == m && ts[a].status == Suspended
                  then ts[a].(status := Claimable, lease := None, availableAt := now, version := ts[a].version + 1) else ts[a]
  }

  lemma OnlySuspended(ts: Attempts, us: Attempts, a: AttemptId, m: MemorialId, now: Time)
    requires IsLive(ts, a, m) && forall b :: IsLive(ts, b, m) ==> b == a
    requires us == if ts[a].status.Suspended? then ts[a := Resumed(ts[a], now)] else ts
    ensures Woken(ts, us, m, now)
  {
    forall b | b in ts
      ensures us[b] == if ts[b].memorial == m && ts[b].status == Suspended
                       then ts[b].(status := Claimable, lease := None, availableAt := now, version := ts[b].version + 1)
                       else ts[b]
    {
      assert b != a ==> !IsLive(ts, b, m);
    }
  }

  lemma WakesSuspended(db: Db, a: AttemptId, m: MemorialId, now: Time)
    requires OneLive(db) && IsLive(db.attempts, a, m)
    ensures Woken(db.attempts, Wake(db, a, now).attempts, m, now)
  {
    OnlySuspended(db.attempts, Wake(db, a, now).attempts, a, m, now);
  }

  lemma RevokesLive(db: Db, a: AttemptId, m: MemorialId)
    requires OneLive(db) && IsLive(db.attempts, a, m)
    ensures Revoked(db.attempts, db.attempts[a := Retire(db.attempts[a], AttemptFailed)], m)
  {
    forall b | b in db.attempts && db.attempts[b].memorial == m && db.attempts[b].status in {Claimable, Claimed, Suspended}
      ensures b == a
    {
      assert IsLive(db.attempts, b, m);
    }
  }

  /** The RunState after a resume: one that waited executes, past the intent of a tool decision by exactly one and with
      the proposal cleared; one already moved on is as it was. */
  predicate StateResumes(db: Db, d: DecisionId, s: RunState, t: RunState, now: Time)
    requires Concerns(db, d)
  {
    var r := db.decisions[d];
    if s.phase == PhaseExecuting then t == s
    else
      && t == s.(phase := PhaseExecuting, pending := None, resolved := Some(d), version := s.version + 1,
                 updatedAt := Max(s.updatedAt, Max(r.status.resolvedAt, now)), pendingTool := t.pendingTool, cursor := t.cursor)
      && if r.kind == ToolDecision
         then && r.requestKey.intent in db.intents && !t.pendingTool
              && t.cursor == Max(s.cursor, db.intents[r.requestKey.intent].sequenceNo + 1)
         else t.pendingTool == s.pendingTool && t.cursor == s.cursor
  }

  lemma ResumeStateIs(db: Db, d: DecisionId, s: RunState, now: Time)
    requires Supported(db, d) && BoundTo(db, d, s) && CanResumeState(db, db.decisions[d], d, s, now)
    ensures Concerns(db, d)
    ensures var m, next := db.decisions[d].memorial, ResumeState(db, db.decisions[d], d, s, now);
            && m in next.runStates && next.runStates[m].Decoded? && StateResumes(db, d, s, next.runStates[m].state, now)
            && next == db.(runStates := db.runStates[m := next.runStates[m]])
  {
    var m := db.decisions[d].memorial;
    if s.phase.PhaseExecuting? {
      assert db.runStates[m := db.runStates[m]] == db.runStates;
    }
  }

  /** All that a delivery of any other answer writes: the root is as it was, its RunState resumes, its suspended attempt
      is claimable from now on, and the resume event is posted. */
  lemma DeliveryResumes(db: Db, ev: ResolvedEvent, now: Time)
    requires Inv(db) && Acts(db, ev, now) && Concerns(db, ev.decision) && HoldsDecision(db, ev.decision)
    requires var r := db.decisions[ev.decision];
             !(r.kind == OuterLoopDecision && r.status.action == Abort) && !(r.kind == ToolDecision && r.status.action == Reject)
    ensures var d, r, next := ev.decision, db.decisions[ev.decision], Handle(db, ev, now).db;
            && r.memorial in next.runStates && next.runStates[r.memorial].Decoded?
            && StateResumes(db, d, db.runStates[r.memorial].state, next.runStates[r.memorial].state, now)
            && Woken(db.attempts, next.attempts, r.memorial, now)
            && next == db.(
                 attempts := next.attempts,
                 runStates := db.runStates[r.memorial := next.runStates[r.memorial]],
                 outbox := db.outbox[ResumeEvent(d) := Event(ResumeRequested, r.edict, r.memorial, Plain)])
  {
    var d, m := ev.decision, db.decisions[ev.decision].memorial;
    var s, a := db.runStates[m].state, LiveOf(db, m).value;
    assert Handle(db, ev, now) == Resume(db, d, s, a, now);
    ResumeStateIs(db, d, s, now);
    InvOneLive(db);
    var moved := ResumeState(db, db.decisions[d], d, s, now);
    assert moved.attempts == db.attempts;
    WakesSuspended(moved, a, m, now);
    WakeMeans(moved, a, now);
  }

  lemma CancelIs(db: Db, d: DecisionId, s: RunState, a: AttemptId, now: Time)
    requires Supported(db, d) && a in db.attempts && ActiveRoot(db, db.decisions[d].memorial)
    requires Cancel(db, d, s, a, now).Committed?
    ensures var r := db.decisions[d];
            Cancel(db, d, s, a, now).db == db.(
              memorials := db.memorials[r.memorial := db.memorials[r.memorial].(status := Cancelled)],
              attempts := db.attempts[a := Retire(db.attempts[a], AttemptFailed)],
              runStates := db.runStates[r.memorial :=
                Decoded(s.(phase := PhaseFailed, pending := None, resolved := Some(d), pendingTool := false,
                           version := s.version + 1, updatedAt := Max(s.updatedAt, Max(r.status.resolvedAt, now))))],
              outbox := db.outbox[DecisionCancelEvent(d) := Event(ExecutionCancelled, r.edict, r.memorial, Plain)])
  {
  }

  /** All that a delivery of an abort or a rejection writes: the root is cancelled and keeps its output, its live attempt
      is failed without its lease, its RunState fails with the decision resolved, and the cancel event is posted. */
  lemma DeliveryCancels(db: Db, ev: ResolvedEvent, now: Time)
    requires Inv(db) && Acts(db, ev, now) && Concerns(db, ev.decision) && HoldsDecision(db, ev.decision)
    requires var r := db.decisions[ev.decision];
             (r.kind == OuterLoopDecision && r.status.action == Abort) || (r.kind == ToolDecision && r.status.action == Reject)
    ensures var d, r, next := ev.decision, db.decisions[ev.decision], Handle(db, ev, now).db;
            var s := db.runStates[r.memorial].state;
            && r.memorial in db.memorials && Revoked(db.attempts, next.attempts, r.memorial)
            && next == db.(
                 memorials := db.memorials[r.memorial := db.memorials[r.memorial].(status := Cancelled)],
                 attempts := next.attempts,
                 runStates := db.runStates[r.memorial :=
                   Decoded(s.(phase := PhaseFailed, pending := None, resolved := Some(d), pendingTool := false,
                              version := s.version + 1, updatedAt := Max(s.updatedAt, Max(r.status.resolvedAt, now))))],
                 outbox := db.outbox[DecisionCancelEvent(d) := Event(ExecutionCancelled, r.edict, r.memorial, Plain)])
  {
    var d, m := ev.decision, db.decisions[ev.decision].memorial;
    var s, a := db.runStates[m].state, LiveOf(db, m).value;
    HandleIsCancel(db, ev, now);
    CancelIs(db, d, s, a, now);
    InvOneLive(db);
    RevokesLive(db, a, m);
  }

  lemma HandleIsCancel(db: Db, ev: ResolvedEvent, now: Time)
    requires Acts(db, ev, now) && Concerns(db, ev.decision) && HoldsDecision(db, ev.decision)
    requires var r := db.decisions[ev.decision];
             (r.kind == OuterLoopDecision && r.status.action == Abort) || (r.kind == ToolDecision && r.status.action == Reject)
    ensures var m := db.decisions[ev.decision].memorial;
            && Supported(db, ev.decision) && ActiveRoot(db, m) && LiveOf(db, m).Some?
            && Handle(db, ev, now) == Cancel(db, ev.decision, db.runStates[m].state, LiveOf(db, m).value, now)
  {
  }

  /** The root is cancelled, nothing of it is live and the cancel event is there. */
  ghost predicate EndedBy(db: Db, d: DecisionId, m: MemorialId) {
    && m in db.memorials && db.memorials[m].status == Cancelled && (forall a :: !IsLive(db.attempts, a, m))
    && DecisionCancelEvent(d) in db.outbox && ResumeEvent(d) !in db.outbox
  }

  /** The root is active with a live attempt and the resume event is there. */
  ghost predicate ContinuedBy(db: Db, d: DecisionId, m: MemorialId) {
    && ActiveRoot(db, m) && (exists a :: IsLive(db.attempts, a, m))
    && ResumeEvent(d) in db.outbox && DecisionCancelEvent(d) !in db.outbox
  }

  lemma CancelEnds(db: Db, ev: ResolvedEvent, now: Time)
    requires Inv(db) && Acts(db, ev, now) && Concerns(db, ev.decision) && HoldsDecision(db, ev.decision)
    requires var r := db.decisions[ev.decision];
             (r.kind == OuterLoopDecision && r.status.action == Abort) || (r.kind == ToolDecision && r.status.action == Reject)
    ensures EndedBy(Handle(db, ev, now).db, ev.decision, db.decisions[ev.decision].memorial)
  {
    DeliveryCancels(db, ev, now);
    RevokedIsDead(db.attempts, Handle(db, ev, now).db.attempts, db.decisions[ev.decision].memorial);
  }

  lemma ResumeContinues(db: Db, ev: ResolvedEvent, now: Time, a: AttemptId)
    requires Inv(db) && Acts(db, ev, now) && Concerns(db, ev.decision) && HoldsDecision(db, ev.decision)
    requires var r := db.decisions[ev.decision];
             !(r.kind == OuterLoopDecision && r.status.action == Abort) && !(r.kind == ToolDecision && r.status.action == Reject)
    requires Trusted(db, ev) && !Over(db, ev.decision) && IsLive(db.attempts, a, db.decisions[ev.decision].memorial)
    ensures ContinuedBy(Handle(db, ev, now).db, ev.decision, db.decisions[ev.decision].memorial)
  {
    DeliveryResumes(db, ev, now);
    WokenIsLive(db.attempts, Handle(db, ev, now).db.attempts, db.decisions[ev.decision].memorial, now, a);
  }

  lemma WokenIsLive(ts: Attempts, us: Attempts, m: MemorialId, now: Time, a: AttemptId)
    requires Woken(ts, us, m, now) && IsLive(ts, a, m)
    ensures IsLive(us, a, m)
  {
  }

  /** A delivery that acts ends the root if and only if an outer-loop decision was aborted or a tool decision rejected;
      for every other answer it continues the root. */
  lemma CancelsIffAbortedOrRejected(db: Db, ev: ResolvedEvent, now: Time)
    requires Inv(db) && Acts(db, ev, now)
    ensures ev.decision in db.decisions && db.decisions[ev.decision].status.Resolved?
    ensures var d, r, next := ev.decision, db.decisions[ev.decision], Handle(db, ev, now).db;
            if (r.kind == OuterLoopDecision && r.status.action == Abort) || (r.kind == ToolDecision && r.status.action == Reject)
            then EndedBy(next, d, r.memorial) && !ContinuedBy(next, d, r.memorial)
            else ContinuedBy(next, d, r.memorial) && !EndedBy(next, d, r.memorial)
  {
    HandleAnswers(db, ev, now);
    var r := db.decisions[ev.decision];
    if (r.kind == OuterLoopDecision && r.status.action == Abort) || (r.kind == ToolDecision && r.status.action == Reject) {
      CancelEnds(db, ev, now);
    } else {
      var a :| IsLive(db.attempts, a, r.memorial);
      ResumeContinues(db, ev, now, a);
    }
  }

  lemma RevokedIsDead(ts: Attempts, us: Attempts, m: MemorialId)
    requires Revoked(ts, us, m)
    ensures forall a :: !IsLive(us, a, m)
  {
    forall a ensures !IsLive(us, a, m) {
      assert a in us ==> a in ts;
    }
  }

  lemma ResumeQuiet(db: Db, d: DecisionId, s: RunState, a: AttemptId, now: Time)
    requires Supported(db, d) && a in db.attempts
    ensures Quiet(db, Resume(db, d, s, a, now).After(db))
  {
    if Resume(db, d, s, a, now).Committed? {
      ResumeStateQuiet(db, db.decisions[d], d, s, now);
      WakeQuiet(ResumeState(db, db.decisions[d], d, s, now), a, now);
    }
  }

  lemma ResumeStateQuiet(db: Db, r: Decision, d: DecisionId, s: RunState, now: Time)
    requires r.status.Resolved? && CanResumeState(db, r, d, s, now)
    ensures Quiet(db, ResumeState(db, r, d, s, now))
  {
  }

  lemma WakeQuiet(db: Db, a: AttemptId, now: Time)
    ensures Quiet(db, Wake(db, a, now))
  {
  }

  lemma CancelQuiet(db: Db, d: DecisionId, s: RunState, a: AttemptId, now: Time)
    requires Supported(db, d) && a in db.attempts && ActiveRoot(db, db.decisions[d].memorial)
    ensures Quiet(db, Cancel(db, d, s, a, now).After(db))
  {
  }

  lemma HandleQuiet(db: Db, ev: ResolvedEvent, now: Time)
    ensures Quiet(db, Handle(db, ev, now).After(db))
  {
    var o := Handle(db, ev, now);
    if o.Committed? && o != Committed(db, false) {
      var r := db.decisions[ev.decision];
      var s, a := db.runStates[r.memorial].state, LiveOf(db, r.memorial).value;
      if IsCancel(r) {
        CancelQuiet(db, ev.decision, s, a, now);
      } else {
        ResumeQuiet(db, ev.decision, s, a, now);
      }
    }
  }

  /** A resume leaves the RunState executing with the decision resolved and nothing pending, and a suspended
      attempt claimable from now on. */
  lemma ResumeProjects(db: Db, d: DecisionId, s: RunState, a: AttemptId, now: Time)
    requires Supported(db, d) && a in db.attempts && Resume(db, d, s, a, now).Committed?
    requires BoundTo(db, d, s)
    ensures var next, m := Resume(db, d, s, a, now).db, db.decisions[d].memorial;
            && m in next.runStates && next.runStates[m].Decoded?
            && next.runStates[m].state.phase.PhaseExecuting? && next.runStates[m].state.pending.None?
            && next.runStates[m].state.resolved == Some(d)
            && a in next.attempts
            && (db.attempts[a].status.Suspended? ==> next.attempts[a] == Resumed(db.attempts[a], now))
  {
    ResumeStateAside(db, db.decisions[d], d, s, now);
    var moved := ResumeState(db, db.decisions[d], d, s, now);
    WakeMeans(moved, a, now);
    assert moved.runStates[db.decisions[d].memorial].Decoded?;
  }

  lemma WakeMeans(db: Db, a: AttemptId, now: Time)
    requires a in db.attempts
    ensures var next := Wake(db, a, now);
            && next.runStates == db.runStates && a in next.attempts
            && (db.attempts[a].status.Suspended? ==> next.attempts[a] == Resumed(db.attempts[a], now))
  {
    if db.attempts[a].status.Suspended? {
      assert Wake(db, a, now) == Update(db, a, Resumed(db.attempts[a], now));
    }
  }
}
