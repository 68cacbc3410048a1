/** Terminal projections of root executions: `application/fenced_run_completion.py`. */
module FencedCompletion {
  import opened Durable
  import opened Invariant
  import opened AttemptLedger
  import opened RunStateRepository

  datatype Completion = Completion(
    auth: Authority, disposition: Disposition, status: TaskStatus, output: Option<Text>, at: Time)

  function StatusFor(d: Disposition): TaskStatus {
    if d.DispSucceeded? then Completed else Failed
  }

  function EndFor(d: Disposition): AttemptStatus {
    if d.DispSucceeded? then Succeeded else AttemptFailed
  }

  function KindFor(s: TaskStatus): EventKind {
    match s
    case Completed => ExecutionCompleted
    case Cancelled => ExecutionCancelled
    case _ => ExecutionFailed
  }

  /** The columns a terminal update writes: SQL `COALESCE` keeps the old output when none is given. */
  function Finished(row: Memorial, status: TaskStatus, output: Option<Text>): Memorial {
    row.(status := status, output := if output.Some? then output else row.output)
  }

  function Closed(s: RunState, phase: RunPhase, at: Time): RunState {
    s.(phase := phase, pending := None, updatedAt := Max(at, s.updatedAt))
  }

  /** The RunState of a root can be closed: there is none, or it decodes and names the root's edict. */
  predicate Closable(db: Db, m: MemorialId)
    requires m in db.memorials
  {
    m in db.runStates ==> db.runStates[m].Decoded? && db.runStates[m].state.edict == db.memorials[m].edict
  }

  /** `_cas_existing_run_state` */
  function CloseRunState(db: Db, m: MemorialId, edict: EdictId, phase: RunPhase, at: Time): Outcome<bool> {
    if m !in db.runStates then Committed(db, false)
    else if db.runStates[m].Undecodable? then Raised(DecodeError)
    else if db.runStates[m].state.edict != edict then Raised(Conflict)
    else if !Swappable(db, m, Closed(db.runStates[m].state, phase, at)) then Raised(Conflict)
    else Committed(Swap(db, m, Closed(db.runStates[m].state, phase, at)), true)
  }

  lemma CloseRunStateWorks(db: Db, m: MemorialId, status: TaskStatus, at: Time)
    requires m in db.memorials && Terminal(status)
    ensures CloseRunState(db, m, db.memorials[m].edict, TerminalPhase(status), at).Committed? <==> Closable(db, m)
    ensures var o := CloseRunState(db, m, db.memorials[m].edict, TerminalPhase(status), at);
            o.Committed? ==> o.db == db.(runStates := o.db.runStates)
                             && ClosesState(db.runStates, o.db.runStates, m, status)
  {
  }

  // ---------------------------------------------------------------- complete

  function Complete(db: Db, c: Completion): Outcome<EventId> {
    var a, m := c.auth.attempt, c.auth.memorial;
    if c.status != StatusFor(c.disposition) then Raised(InvalidRequest)
    else if !Current(db, c.auth, c.at) || db.attempts[a].memorial != m then Raised(FenceLost)
    else if !ActiveRoot(db, m) then Raised(Conflict)
    else
      var edict := db.memorials[m].edict;
      var e := RunEvent(a, c.auth.owner, c.auth.token, c.disposition);
      var closed := CloseRunState(db, m, edict, TerminalPhase(c.status), c.at);
      if closed.Raised? then Raised(closed.fault)
      else if e in db.outbox then Raised(Conflict)
      else
        Committed(
          Settle(db, m, Finished(db.memorials[m], c.status, c.output),
                 db.attempts[a := Retire(db.attempts[a], EndFor(c.disposition))],
                 closed.db.runStates, e, Event(KindFor(c.status), edict, m, Plain)),
          e)
  }

  /** The rows are written in the program's order: root, RunState, event, and the attempt last. */
  method CompleteRun(storage: Storage, c: Completion) returns (r: Option<EventId>)
    modifies storage
    ensures var o := Complete(old(storage.db), c);
            && storage.db == o.After(old(storage.db))
            && r == if o.Committed? then Some(o.value) else None
  {
    var db, a, m := storage.db, c.auth.attempt, c.auth.memorial;
    if c.status != StatusFor(c.disposition) { return None; }
    if !Current(db, c.auth, c.at) || db.attempts[a].memorial != m { return None; }
    if !ActiveRoot(db, m) { return None; }
    var edict, e := db.memorials[m].edict, RunEvent(a, c.auth.owner, c.auth.token, c.disposition);
    var closed := CloseRunState(db, m, edict, TerminalPhase(c.status), c.at);
    db := SetMemorial(db, m, Finished(db.memorials[m], c.status, c.output));
    if closed.Raised? { return None; }
    db := db.(runStates := closed.db.runStates);
    if e in db.outbox { return None; }
    db := Post(db, e, Event(KindFor(c.status), edict, m, Plain));
    db := Update(db, a, Retire(db.attempts[a], EndFor(c.disposition)));
    storage.db := db;
    return Some(e);
  }

  /** The only live attempt of its root is retired: no live attempt is left. */
  lemma RetireOne(db: Db, a: AttemptId, status: AttemptStatus)
    requires AttemptsWell(db.memorials, db.attempts) && a in db.attempts && Live(db.attempts[a].status)
    requires !Live(status) && (status.DeadLetter? ==> db.attempts[a].no == db.attempts[a].maxAttempts)
    ensures Retires(db.attempts, db.attempts[a := Retire(db.attempts[a], status)], db.attempts[a].memorial)
  {
    InvOneLive(db);
    var ts, m := db.attempts, db.attempts[a].memorial;
    forall b | b in ts && b != a && ts[b].memorial == m ensures !Live(ts[b].status) {
      assert IsLive(ts, a, m);
      assert !IsLive(ts, b, m);
    }
  }

  /** No terminal event is stored for an active root. */
  lemma ActiveHasNoEvent(db: Db, e: EventId)
    requires Inv(db) && e in db.outbox && TerminalKind(db.outbox[e].kind)
    ensures !ActiveIn(db.memorials, db.outbox[e].memorial)
  {
    assert EventMatchesRoot(db.memorials, db.outbox[e]);
  }

  lemma CompleteSettles(db: Db, c: Completion)
    requires Complete(db, c).Committed?
    requires Retires(db.attempts, db.attempts[c.auth.attempt := Retire(db.attempts[c.auth.attempt], EndFor(c.disposition))],
                     c.auth.memorial)
    ensures SettlesTo(db, Complete(db, c).db)
  {
    var a, m, o := c.auth.attempt, c.auth.memorial, Complete(db, c);
    CloseRunStateWorks(db, m, c.status, c.at);
    assert Settles(db, m, Finished(db.memorials[m], c.status, c.output),
                   db.attempts[a := Retire(db.attempts[a], EndFor(c.disposition))],
                   o.db.runStates, o.value, Event(KindFor(c.status), db.memorials[m].edict, m, Plain));
  }

  lemma CompleteKeeps(db: Db, c: Completion)
    requires Inv(db)
    ensures Keeps(db, Complete(db, c).After(db))
  {
    if Complete(db, c).Raised? {
      KeepsSame(db);
    } else {
      RetireOne(db, c.auth.attempt, EndFor(c.disposition));
      CompleteSettles(db, c);
      SettlesToKeeps(db, Complete(db, c).db);
    }
  }

  /** A completion commits exactly when its status is that of its disposition, its authority is current, bound to its root, and the root's
      RunState is closable: nothing else, in particular no stored event, can stand in its way. */
  lemma CompleteCommits(db: Db, c: Completion)
    requires Inv(db)
    ensures Complete(db, c).Committed? <==>
              && c.status == (if c.disposition.DispSucceeded? then Completed else Failed)
              && Current(db, c.auth, c.at)
              && db.attempts[c.auth.attempt].memorial == c.auth.memorial
              && Closable(db, c.auth.memorial)
  {
    if c.status == StatusFor(c.disposition) && Current(db, c.auth, c.at)
       && db.attempts[c.auth.attempt].memorial == c.auth.memorial {
      var a, m := c.auth.attempt, c.auth.memorial;
      assert AttemptWell(db.memorials, db.attempts[a]);
      CloseRunStateWorks(db, m, c.status, c.at);
      var e := RunEvent(a, c.auth.owner, c.auth.token, c.disposition);
      if e in db.outbox {
        assert EventNamed(db.attempts, e, db.outbox[e]);
        ActiveHasNoEvent(db, e);
      }
    }
  }

  lemma NoneLiveAfter(ts: Attempts, us: Attempts, m: MemorialId)
    requires Retires(ts, us, m)
    ensures forall b :: !IsLive(us, b, m)
  {
    forall b ensures !IsLive(us, b, m) {
      assert b in us ==> b in ts;
    }
  }

  /** A RunState ends in `phase` with nothing pending, one version on and not earlier than `at`; its edict, resolved
      decision, proposal, cursor and plan are as they were. */
  predicate RowEnds(x: RunRow, y: RunRow, phase: RunPhase, at: Time) {
    && x.Decoded?
    && y == Decoded(x.state.(phase := phase, pending := None, version := x.state.version + 1,
                             updatedAt := Max(at, x.state.updatedAt)))
  }

  /** The RunState of `m`, if there is one, ends; every other row is as it was. */
  predicate StateEnds(rs: RunStates, ss: RunStates, m: MemorialId, phase: RunPhase, at: Time) {
    if m !in rs then ss == rs else m in ss && RowEnds(rs[m], ss[m], phase, at) && ss == rs[m := ss[m]]
  }

  lemma CloseEnds(db: Db, m: MemorialId, edict: EdictId, phase: RunPhase, at: Time)
    requires CloseRunState(db, m, edict, phase, at).Committed?
    ensures StateEnds(db.runStates, CloseRunState(db, m, edict, phase, at).db.runStates, m, phase, at)
  {
  }

  /** All that a committed completion writes: the root gets the outcome's status, and its output unless none is given;
      the attempt succeeded or failed as the run did and lost its lease; the RunState ends; one event says so. */
  lemma CompleteProjects(db: Db, c: Completion)
    requires Complete(db, c).Committed?
    ensures var o, a, m, won := Complete(db, c), c.auth.attempt, c.auth.memorial, c.disposition.DispSucceeded?;
            && a in db.attempts && m in db.memorials && o.value !in db.outbox
            && o.value == RunEvent(a, c.auth.owner, c.auth.token, c.disposition)
            && StateEnds(db.runStates, o.db.runStates, m, if won then PhaseCompleted else PhaseFailed, c.at)
            && var root, t := db.memorials[m], db.attempts[a];
               o.db == db.(
                 memorials := db.memorials[m := root.(status := if won then Completed else Failed,
                                                      output := if c.output.Some? then c.output else root.output)],
                 attempts := db.attempts[a := t.(status := if won then Succeeded else AttemptFailed, lease := None,
                                                 version := t.version + 1)],
                 runStates := o.db.runStates,
                 outbox := db.outbox[o.value := Event(if won then ExecutionCompleted else ExecutionFailed, root.edict, m, Plain)])
  {
    CloseEnds(db, c.auth.memorial, db.memorials[c.auth.memorial].edict, TerminalPhase(c.status), c.at);
  }

  /** A completion leaves no live attempt. */
  lemma CompleteRetires(db: Db, c: Completion)
    requires Inv(db) && Complete(db, c).Committed?
    ensures forall b :: !IsLive(Complete(db, c).db.attempts, b, c.auth.memorial)
  {
    RetireOne(db, c.auth.attempt, EndFor(c.disposition));
    CompleteProjects(db, c);
    NoneLiveAfter(db.attempts, Complete(db, c).db.attempts, c.auth.memorial);
  }

  // ---------------------------------------------------------------- cancel_root

  function RetireAll(ts: Attempts, m: MemorialId): Attempts {
    map a | a in ts :: if ts[a].memorial == m && Live(ts[a].status) then Retire(ts[a], AttemptFailed) else ts[a]
  }

  function CancelRoot(db: Db, m: MemorialId, at: Time): Outcome<bool> {
    if !Root(db, m) then Raised(Unavailable)
    else if Terminal(db.memorials[m].status) then Committed(db.(attempts := RetireAll(db.attempts, m)), false)
    else
      var edict := db.memorials[m].edict;
      var closed := CloseRunState(db, m, edict, PhaseFailed, at);
      if closed.Raised? then Raised(closed.fault)
      else if RootCancelledEvent(m) in db.outbox then Raised(Conflict)
      else
        Committed(
          Settle(db, m, Finished(db.memorials[m], Cancelled, None), RetireAll(db.attempts, m), closed.db.runStates,
                 RootCancelledEvent(m), Event(ExecutionCancelled, edict, m, Plain)),
          true)
  }

  method CancelRun(storage: Storage, m: MemorialId, at: Time) returns (r: Option<bool>)
    modifies storage
    ensures var o := CancelRoot(old(storage.db), m, at);
            && storage.db == o.After(old(storage.db))
            && r == if o.Committed? then Some(o.value) else None
  {
    var db := storage.db;
    if !Root(db, m) { return None; }
    var active, edict := !Terminal(db.memorials[m].status), db.memorials[m].edict;
    var closed := CloseRunState(db, m, edict, PhaseFailed, at);
    db := db.(attempts := RetireAll(db.attempts, m));
    if active {
      db := SetMemorial(db, m, Finished(db.memorials[m], Cancelled, None));
      if closed.Raised? { return None; }
      db := db.(runStates := closed.db.runStates);
      if RootCancelledEvent(m) in db.outbox { return None; }
      db := Post(db, RootCancelledEvent(m), Event(ExecutionCancelled, edict, m, Plain));
    }
    storage.db := db;
    return Some(active);
  }

  /** Cancelling a terminal root changes nothing: it has no live attempt to revoke. */
  lemma CancelTerminalIsNoChange(db: Db, m: MemorialId, at: Time)
    requires Inv(db) && Root(db, m) && Terminal(db.memorials[m].status)
    ensures CancelRoot(db, m, at) == Committed(db, false)
  {
    forall a | a in db.attempts && db.attempts[a].memorial == m ensures !Live(db.attempts[a].status) {
      assert AttemptWell(db.memorials, db.attempts[a]);
    }
    assert RetireAll(db.attempts, m) == db.attempts;
  }

  lemma CancelRootSettles(db: Db, m: MemorialId, at: Time)
    requires ActiveRoot(db, m) && CancelRoot(db, m, at).Committed?
    ensures SettlesTo(db, CancelRoot(db, m, at).db)
  {
    CloseRunStateWorks(db, m, Cancelled, at);
    assert Settles(db, m, Finished(db.memorials[m], Cancelled, None), RetireAll(db.attempts, m),
                   CancelRoot(db, m, at).db.runStates, RootCancelledEvent(m),
                   Event(ExecutionCancelled, db.memorials[m].edict, m, Plain));
  }

  lemma CancelRootKeeps(db: Db, m: MemorialId, at: Time)
    requires Inv(db)
    ensures Keeps(db, CancelRoot(db, m, at).After(db))
  {
    if CancelRoot(db, m, at).Raised? {
      KeepsSame(db);
    } else if Terminal(db.memorials[m].status) {
      CancelTerminalIsNoChange(db, m, at);
      KeepsSame(db);
    } else {
      CancelRootSettles(db, m, at);
      SettlesToKeeps(db, CancelRoot(db, m, at).db);
    }
  }

  /** Cancelling a root succeeds whatever its attempts are doing, and revokes the current authority: it raises
      only on a RunState that cannot be closed. */
  lemma CancelRootCommits(db: Db, m: MemorialId, at: Time)
    requires Inv(db) && ActiveRoot(db, m)
    ensures var o := CancelRoot(db, m, at);
            && (o.Committed? <==> Closable(db, m))
            && (o.Committed? ==> o.value && o.db.memorials[m].status == Cancelled
                                 && forall a :: !IsLive(o.db.attempts, a, m))
  {
    CloseRunStateWorks(db, m, Cancelled, at);
    if RootCancelledEvent(m) in db.outbox {
      assert EventNamed(db.attempts, RootCancelledEvent(m), db.outbox[RootCancelledEvent(m)]);
      ActiveHasNoEvent(db, RootCancelledEvent(m));
    }
  }

  /** All that cancelling an active root writes: the root is cancelled and keeps its output, every live attempt of it
      is failed without its lease, the RunState fails, and one event says so. */
  lemma CancelRootRevokes(db: Db, m: MemorialId, at: Time)
    requires ActiveRoot(db, m) && CancelRoot(db, m, at).Committed?
    ensures var o, root, e := CancelRoot(db, m, at), db.memorials[m], RootCancelledEvent(m);
            && e !in db.outbox && StateEnds(db.runStates, o.db.runStates, m, PhaseFailed, at)
            && o.db == db.(
                 memorials := db.memorials[m := root.(status := Cancelled)],
                 attempts := o.db.attempts,
                 runStates := o.db.runStates,
                 outbox := db.outbox[e := Event(ExecutionCancelled, root.edict, m, Plain)])
    ensures Revoked(db.attempts, CancelRoot(db, m, at).db.attempts, m)
  {
    CloseEnds(db, m, db.memorials[m].edict, PhaseFailed, at);
  }

  ghost predicate Revoked(ts: Attempts, us: Attempts, m: MemorialId) {
    && us.Keys == ts.Keys
    && forall a :: a in ts ==>
         us[a] == if ts[a].memorial == m && ts[a].status in {Claimable, Claimed, Suspended}
                  then ts[a].(status := AttemptFailed, lease := None, version := ts[a].version + 1) else ts[a]
  }

  /** A finished root has its stray attempts revoked and nothing else; what is no root is refused. */
  lemma CancelOthers(db: Db, m: MemorialId, at: Time)
    requires !ActiveRoot(db, m)
    ensures var o := CancelRoot(db, m, at);
            if Root(db, m) then o.Committed? && !o.value && o.db == db.(attempts := o.db.attempts)
                                && Revoked(db.attempts, o.db.attempts, m)
            else o.Raised?
  {
  }

  // ---------------------------------------------------------------- retry_or_dead_letter

  function DeadLettered(db: Db, a: AttemptId, us: Attempts, ss: RunStates): Db
    requires a in db.attempts && db.attempts[a].memorial in db.memorials
  {
    var m := db.attempts[a].memorial;
    Settle(db, m, Finished(db.memorials[m], Failed, None), us, ss, DeadLetterEvent(a),
           Event(ExecutionFailed, db.memorials[m].edict, m, Plain))
  }

  function RetryOrDeadLetter(db: Db, auth: Authority, at: Time, retryAt: Time, ulid: Ulid): Outcome<bool> {
    var a, m := auth.attempt, auth.memorial;
    if retryAt < at then Raised(InvalidRequest)
    else if !Current(db, auth, at) then Raised(FenceLost)
    else if db.attempts[a].memorial != m || !Root(db, m) then Raised(Conflict)
    else
      var t := db.attempts[a];
      if t.no < t.maxAttempts then
        if RetryAttempt(ulid) in db.attempts then Raised(Conflict)
        else Committed(Update(Update(db, a, Retire(t, AttemptFailed)), RetryAttempt(ulid), Successor(t, retryAt)), true)
      else if Terminal(db.memorials[m].status) then Raised(Conflict)
      else
        var closed := CloseRunState(db, m, db.memorials[m].edict, PhaseFailed, at);
        if closed.Raised? then Raised(closed.fault)
        else if DeadLetterEvent(a) in db.outbox then Raised(Conflict)
        else Committed(DeadLettered(db, a, db.attempts[a := Retire(t, DeadLetter)], closed.db.runStates), true)
  }

  method RetryRun(storage: Storage, auth: Authority, at: Time, retryAt: Time, ulid: Ulid) returns (r: Option<bool>)
    modifies storage
    ensures var o := RetryOrDeadLetter(old(storage.db), auth, at, retryAt, ulid);
            && storage.db == o.After(old(storage.db))
            && r == if o.Committed? then Some(o.value) else None
  {
    var db, a, m := storage.db, auth.attempt, auth.memorial;
    if retryAt < at || !Current(db, auth, at) { return None; }
    if db.attempts[a].memorial != m || !Root(db, m) { return None; }
    var t, edict := db.attempts[a], db.memorials[m].edict;
    if t.no < t.maxAttempts {
      db := Update(db, a, Retire(t, AttemptFailed));
      if RetryAttempt(ulid) in db.attempts { return None; }
      db := Update(db, RetryAttempt(ulid), Successor(t, retryAt));
    } else {
      var closed := CloseRunState(db, m, edict, PhaseFailed, at);
      db := Update(db, a, Retire(t, DeadLetter));
      if Terminal(db.memorials[m].status) { return None; }
      db := SetMemorial(db, m, Finished(db.memorials[m], Failed, None));
      if closed.Raised? { return None; }
      db := db.(runStates := closed.db.runStates);
      if DeadLetterEvent(a) in db.outbox { return None; }
      db := Post(db, DeadLetterEvent(a), Event(ExecutionFailed, edict, m, Plain));
    }
    storage.db := db;
    return Some(true);
  }

  lemma DeadLetterSettles(db: Db, auth: Authority, at: Time, retryAt: Time, ulid: Ulid)
    requires RetryOrDeadLetter(db, auth, at, retryAt, ulid).Committed?
    requires db.attempts[auth.attempt].maxAttempts <= db.attempts[auth.attempt].no
    requires Retires(db.attempts, db.attempts[auth.attempt := Retire(db.attempts[auth.attempt], DeadLetter)], auth.memorial)
    ensures SettlesTo(db, RetryOrDeadLetter(db, auth, at, retryAt, ulid).db)
  {
    var a, m, t := auth.attempt, auth.memorial, db.attempts[auth.attempt];
    CloseRunStateWorks(db, m, Failed, at);
    assert Settles(db, m, Finished(db.memorials[m], Failed, None), db.attempts[a := Retire(t, DeadLetter)],
                   RetryOrDeadLetter(db, auth, at, retryAt, ulid).db.runStates, DeadLetterEvent(a),
                   Event(ExecutionFailed, db.memorials[m].edict, m, Plain));
  }

  lemma RetryOrDeadLetterKeeps(db: Db, auth: Authority, at: Time, retryAt: Time, ulid: Ulid)
    requires Inv(db)
    ensures Keeps(db, RetryOrDeadLetter(db, auth, at, retryAt, ulid).After(db))
  {
    var o := RetryOrDeadLetter(db, auth, at, retryAt, ulid);
    if o.Raised? {
      KeepsSame(db);
    } else if db.attempts[auth.attempt].no < db.attempts[auth.attempt].maxAttempts {
      RetryKeeps(db, auth.attempt, ulid, retryAt);
    } else {
      assert AttemptWell(db.memorials, db.attempts[auth.attempt]);
      RetireOne(db, auth.attempt, DeadLetter);
      DeadLetterSettles(db, auth, at, retryAt, ulid);
      SettlesToKeeps(db, o.db);
    }
  }

  /** A retry commits exactly for a time not past and a current authority of the root, when its budget lasts and the new identity is
      free, or when the budget is spent and the RunState is closable. */
  lemma RetryCommits(db: Db, auth: Authority, at: Time, retryAt: Time, ulid: Ulid)
    requires Inv(db)
    ensures RetryOrDeadLetter(db, auth, at, retryAt, ulid).Committed? <==>
              && at <= retryAt && Current(db, auth, at) && db.attempts[auth.attempt].memorial == auth.memorial
              && if db.attempts[auth.attempt].no < db.attempts[auth.attempt].maxAttempts
                 then RetryAttempt(ulid) !in db.attempts else Closable(db, auth.memorial)
  {
    if Current(db, auth, at) && db.attempts[auth.attempt].memorial == auth.memorial {
      var a, m := auth.attempt, auth.memorial;
      assert AttemptWell(db.memorials, db.attempts[a]);
      CloseRunStateWorks(db, m, Failed, at);
      if DeadLetterEvent(a) in db.outbox {
        assert EventNamed(db.attempts, DeadLetterEvent(a), db.outbox[DeadLetterEvent(a)]);
        ActiveHasNoEvent(db, DeadLetterEvent(a));
      }
    }
  }

  /** All that a retry within the budget writes: the attempt is failed without its lease, and the next one is due at
      the asked time with the next number, the same token and the same budget. */
  lemma RetryEnqueuesNext(db: Db, auth: Authority, at: Time, retryAt: Time, ulid: Ulid)
    requires RetryOrDeadLetter(db, auth, at, retryAt, ulid).Committed?
    requires db.attempts[auth.attempt].no < db.attempts[auth.attempt].maxAttempts
    ensures var t := db.attempts[auth.attempt];
            RetryOrDeadLetter(db, auth, at, retryAt, ulid) ==
              Committed(
                db.(attempts :=
                  db.attempts[auth.attempt := t.(status := AttemptFailed, lease := None, version := t.version + 1)]
                             [RetryAttempt(ulid) := Attempt(auth.memorial, t.no + 1, Claimable, None, t.token, retryAt,
                                                            t.maxAttempts, 1)]),
                true)
  {
  }

  /** All that a retry beyond the budget writes: a dead letter, the failed root with its output kept, its ended
      RunState and one event. */
  lemma RetryBeyondBudgetFails(db: Db, auth: Authority, at: Time, retryAt: Time, ulid: Ulid)
    requires RetryOrDeadLetter(db, auth, at, retryAt, ulid).Committed?
    requires db.attempts[auth.attempt].maxAttempts <= db.attempts[auth.attempt].no
    ensures var o, a, m := RetryOrDeadLetter(db, auth, at, retryAt, ulid), auth.attempt, auth.memorial;
            && m in db.memorials && DeadLetterEvent(a) !in db.outbox && o.value
            && StateEnds(db.runStates, o.db.runStates, m, PhaseFailed, at)
            && var root, t := db.memorials[m], db.attempts[a];
               o.db == db.(
                 memorials := db.memorials[m := root.(status := Failed)],
                 attempts := db.attempts[a := t.(status := DeadLetter, lease := None, version := t.version + 1)],
                 runStates := o.db.runStates,
                 outbox := db.outbox[DeadLetterEvent(a) := Event(ExecutionFailed, root.edict, m, Plain)])
  {
    CloseEnds(db, auth.memorial, db.memorials[auth.memorial].edict, PhaseFailed, at);
  }

  /** Either way the budget is respected: beyond it no attempt of the root is live. */
  lemma DeadLetterRetires(db: Db, auth: Authority, at: Time, retryAt: Time, ulid: Ulid)
    requires Inv(db) && RetryOrDeadLetter(db, auth, at, retryAt, ulid).Committed?
    requires db.attempts[auth.attempt].maxAttempts <= db.attempts[auth.attempt].no
    ensures forall b :: !IsLive(RetryOrDeadLetter(db, auth, at, retryAt, ulid).db.attempts, b, auth.memorial)
  {
    var a, t := auth.attempt, db.attempts[auth.attempt];
    assert AttemptWell(db.memorials, t);
    RetireOne(db, a, DeadLetter);
    NoneLiveAfter(db.attempts, db.attempts[a := Retire(t, DeadLetter)], auth.memorial);
    RetryBeyondBudgetFails(db, auth, at, retryAt, ulid);
  }

  // ---------------------------------------------------------------- nothing else is touched

  lemma SettleStill(db: Db, m: MemorialId, row: Memorial, us: Attempts, ss: RunStates, e: EventId, v: Event)
    requires m in db.memorials && forall n, d :: ResolvedIn(ss, n, d) ==> ResolvedIn(db.runStates, n, d)
    ensures Still(db, Settle(db, m, row, us, ss, e, v))
  {
  }

  lemma CloseRunStateStill(db: Db, m: MemorialId, edict: EdictId, phase: RunPhase, at: Time)
    requires CloseRunState(db, m, edict, phase, at).Committed?
    ensures var ss := CloseRunState(db, m, edict, phase, at).db.runStates;
            forall n, d :: ResolvedIn(ss, n, d) ==> ResolvedIn(db.runStates, n, d)
  {
  }

  lemma DeadLetterStill(db: Db, auth: Authority, at: Time, ulid: Ulid, retryAt: Time)
    requires RetryOrDeadLetter(db, auth, at, retryAt, ulid).Committed?
    requires db.attempts[auth.attempt].no >= db.attempts[auth.attempt].maxAttempts
    ensures Still(db, RetryOrDeadLetter(db, auth, at, retryAt, ulid).db)
  {
    var o, a, m := RetryOrDeadLetter(db, auth, at, retryAt, ulid), auth.attempt, auth.memorial;
    CloseRunStateStill(db, m, db.memorials[m].edict, PhaseFailed, at);
    SettleStill(db, m, Finished(db.memorials[m], Failed, None), db.attempts[a := Retire(db.attempts[a], DeadLetter)],
                o.db.runStates, DeadLetterEvent(a), Event(ExecutionFailed, db.memorials[m].edict, m, Plain));
  }

  lemma AttemptsStill(db: Db, us: Attempts)
    ensures Still(db, db.(attempts := us))
  {
  }

  lemma CompleteStill(db: Db, c: Completion)
    ensures Still(db, Complete(db, c).After(db))
  {
  }

  lemma CancelRootStill(db: Db, m: MemorialId, at: Time)
    ensures Still(db, CancelRoot(db, m, at).After(db))
  {
    var o := CancelRoot(db, m, at);
    if o.Raised? {
    } else if Terminal(db.memorials[m].status) {
      AttemptsStill(db, RetireAll(db.attempts, m));
    } else {
      SettleStill(db, m, Finished(db.memorials[m], Cancelled, None), RetireAll(db.attempts, m), o.db.runStates,
                  RootCancelledEvent(m), Event(ExecutionCancelled, db.memorials[m].edict, m, Plain));
    }
  }

  lemma RetryStill(db: Db, auth: Authority, at: Time, retryAt: Time, ulid: Ulid)
    ensures Still(db, RetryOrDeadLetter(db, auth, at, retryAt, ulid).After(db))
  {
    var o := RetryOrDeadLetter(db, auth, at, retryAt, ulid);
    if o.Committed? {
      var a, t := auth.attempt, db.attempts[auth.attempt];
      if t.no < t.maxAttempts {
        UpdateStill(db, a, Retire(t, AttemptFailed));
        UpdateStill(Update(db, a, Retire(t, AttemptFailed)), RetryAttempt(ulid), Successor(t, retryAt));
      } else {
        DeadLetterStill(db, auth, at, ulid, retryAt);
      }
    }
  }
}
