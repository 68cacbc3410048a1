/** Idempotent ingress of root executions: `application/managed_run_ingress.py`. */
module ManagedIngress {
  import opened Durable
  import opened Invariant
  import opened AttemptLedger
  import opened DagReset
  import opened PlanReview

  datatype RunResult = RunResult(memorial: MemorialId, attempt: AttemptId, deduplicated: bool)

  predicate HasActiveRoot(db: Db, edict: EdictId) {
    exists m :: m in db.memorials && ActiveRoot(db, m) && db.memorials[m].edict == edict
  }

  /** The answer to the parent query of a follow-up: a newest root of the edict, if it has any. */
  ghost predicate IsNewestRoot(db: Db, edict: EdictId, found: Option<MemorialId>) {
    match found
    case Some(p) =>
      && Root(db, p) && db.memorials[p].edict == edict
      && forall m :: Root(db, m) && db.memorials[m].edict == edict ==> db.memorials[m].createdAt <= db.memorials[p].createdAt
    case None => forall m :: Root(db, m) ==> db.memorials[m].edict != edict
  }

  // ---------------------------------------------------------------- start

  function RootOf(c: StartCommand): MemorialId { ManagedRoot(c.edict, c.key) }
  function AttemptOf(c: StartCommand): AttemptId { ManagedAttempt(c.edict, c.key) }
  function EventIdOf(c: StartCommand): EventId { ManagedEvent(c.edict, c.key) }

  function StartRow(c: StartCommand, found: Option<MemorialId>, now: Time): Memorial {
    Memorial(c.edict, true, Submitted, c.instruction,
             if c.eventType.FollowupSubmitted? && c.parent.None? then found else c.parent, now, 1, None)
  }

  function StartEvent(c: StartCommand): Event {
    Event(Ingress(c.eventType), c.edict, RootOf(c), ManagedPayload(c))
  }

  ghost function StartFresh(db: Db, c: StartCommand, found: Option<MemorialId>, now: Time): Outcome<RunResult>
    requires c.edict in db.edicts
  {
    if c.eventType.FollowupSubmitted? && HasActiveRoot(db, c.edict) then Raised(Busy)
    else if EventIdOf(c) in db.outbox then Raised(Conflict)
    else
      var born := FreshRoot(db, RootOf(c), StartRow(c, found, now), now, db.edicts[c.edict].retryLimit + 1, AttemptOf(c));
      if born.Raised? then Raised(born.fault)
      else Committed(Post(born.db, EventIdOf(c), StartEvent(c)), RunResult(RootOf(c), AttemptOf(c), false))
  }

  /** The stored root and event are those of this very command. */
  predicate SameEnvelope(db: Db, c: StartCommand)
    requires RootOf(c) in db.memorials
  {
    var row := db.memorials[RootOf(c)];
    && row.edict == c.edict && row.instruction == c.instruction
    && (c.parent.Some? ==> row.parent == c.parent)
    && EventIdOf(c) in db.outbox
    && db.outbox[EventIdOf(c)].kind == Ingress(c.eventType)
    && db.outbox[EventIdOf(c)].payload == ManagedPayload(c)
  }

  ghost function StartReplay(db: Db, c: StartCommand): Outcome<RunResult>
    requires c.edict in db.edicts && RootOf(c) in db.memorials
  {
    if !SameEnvelope(db, c) then Raised(Conflict)
    else
      var o := EnqueueInitial(db, RootOf(c), db.memorials[RootOf(c)].createdAt, db.edicts[c.edict].retryLimit + 1, AttemptOf(c));
      if o.Raised? then Raised(o.fault) else Committed(o.db, RunResult(RootOf(c), o.value, true))
  }

  ghost function Start(db: Db, c: StartCommand, found: Option<MemorialId>, now: Time): Outcome<RunResult> {
    if c.edict !in db.edicts then Raised(Unavailable)
    else if RootOf(c) !in db.memorials then StartFresh(db, c, found, now)
    else StartReplay(db, c)
  }

  method StartRun(storage: Storage, c: StartCommand, found: Option<MemorialId>, now: Time) returns (r: Option<RunResult>)
    requires OneFirst(storage.db)
    requires IsNewestRoot(storage.db, c.edict, found)
    modifies storage
    ensures var o := Start(old(storage.db), c, found, now);
            && storage.db == o.After(old(storage.db))
            && r == if o.Committed? then Some(o.value) else None
  {
    var db, deduplicated := storage.db, false;
    if c.edict !in db.edicts { return None; }
    var availableAt := now;
    if RootOf(c) !in db.memorials {
      if c.eventType.FollowupSubmitted? && HasActiveRoot(db, c.edict) { return None; }
      db := SetMemorial(db, RootOf(c), StartRow(c, found, now));
      if EventIdOf(c) in db.outbox { return None; }
    } else {
      deduplicated := true;
      availableAt := db.memorials[RootOf(c)].createdAt;
      if !SameEnvelope(db, c) { return None; }
    }
    var o := Enqueue(db, RootOf(c), availableAt, db.edicts[c.edict].retryLimit + 1, AttemptOf(c));
    if o.Raised? { return None; }
    db := if deduplicated then o.db else Post(o.db, EventIdOf(c), StartEvent(c));
    storage.db := db;
    return Some(RunResult(RootOf(c), o.value, deduplicated));
  }

  predicate CanStart(db: Db, c: StartCommand) {
    && c.edict in db.edicts && 0 < db.edicts[c.edict].retryLimit + 1
    && RootOf(c) !in db.memorials && AttemptOf(c) !in db.attempts && EventIdOf(c) !in db.outbox
  }

  /** The root as born, before its event is written. */
  function Born(db: Db, c: StartCommand, found: Option<MemorialId>, now: Time): Db
    requires CanStart(db, c)
  {
    Birth(db, RootOf(c), StartRow(c, found, now), AttemptOf(c), Initial(RootOf(c), now, db.edicts[c.edict].retryLimit + 1))
  }

  lemma StartMeans(db: Db, c: StartCommand, found: Option<MemorialId>, now: Time)
    requires AttemptsWell(db.memorials, db.attempts) && c.edict in db.edicts && RootOf(c) !in db.memorials
    requires StartFresh(db, c, found, now).Committed?
    ensures CanStart(db, c)
    ensures StartFresh(db, c, found, now).db == Post(Born(db, c, found, now), EventIdOf(c), StartEvent(c))
  {
    FreshRootWorks(db, RootOf(c), StartRow(c, found, now), now, db.edicts[c.edict].retryLimit + 1, AttemptOf(c));
  }

  lemma BornIsNew(db: Db, c: StartCommand, found: Option<MemorialId>, now: Time)
    requires CanStart(db, c)
    ensures Newborn(db, RootOf(c), StartRow(c, found, now), AttemptOf(c),
                    Initial(RootOf(c), now, db.edicts[c.edict].retryLimit + 1))
    ensures Born(db, c, found, now).outbox == db.outbox
  {
  }

  lemma BornKeeps(db: Db, c: StartCommand, found: Option<MemorialId>, now: Time)
    requires Inv(db) && CanStart(db, c)
    ensures Keeps(db, Born(db, c, found, now)) && EventIdOf(c) !in Born(db, c, found, now).outbox
  {
    BornIsNew(db, c, found, now);
    BirthKeeps(db, RootOf(c), StartRow(c, found, now), AttemptOf(c),
               Initial(RootOf(c), now, db.edicts[c.edict].retryLimit + 1));
  }

  lemma StartFreshKeeps(db: Db, c: StartCommand, found: Option<MemorialId>, now: Time)
    requires Inv(db) && c.edict in db.edicts && RootOf(c) !in db.memorials
    ensures Keeps(db, StartFresh(db, c, found, now).After(db))
  {
    if StartFresh(db, c, found, now).Raised? {
      KeepsSame(db);
    } else {
      StartMeans(db, c, found, now);
      BornKeeps(db, c, found, now);
      var born := Born(db, c, found, now);
      AnnouncesKeeps(born, EventIdOf(c), StartEvent(c));
      KeepsTransitive(db, born, StartFresh(db, c, found, now).db);
    }
  }

  lemma StartKeeps(db: Db, c: StartCommand, found: Option<MemorialId>, now: Time)
    requires Inv(db)
    ensures Keeps(db, Start(db, c, found, now).After(db))
  {
    if c.edict in db.edicts && RootOf(c) !in db.memorials {
      StartFreshKeeps(db, c, found, now);
    } else if Start(db, c, found, now).Raised? {
      KeepsSame(db);
    } else {
      assert IsFirst(db.attempts, AttemptOf(c), RootOf(c));
      ReplayIsNoChange(db, c);
      KeepsSame(db);
    }
  }

  lemma ReplayIsNoChange(db: Db, c: StartCommand)
    requires c.edict in db.edicts && RootOf(c) in db.memorials && HasFirst(db.attempts, RootOf(c))
    ensures StartReplay(db, c).After(db) == db
  {
  }

  // ---------------------------------------------------------------- start is a write-once map

  lemma StartFreshMeans(db: Db, c: StartCommand, found: Option<MemorialId>, now: Time)
    requires Inv(db) && c.edict in db.edicts && RootOf(c) !in db.memorials && StartFresh(db, c, found, now).Committed?
    ensures var o := StartFresh(db, c, found, now);
            && o.value == RunResult(RootOf(c), AttemptOf(c), false)
            && RootOf(c) in o.db.memorials && o.db.memorials[RootOf(c)] == StartRow(c, found, now)
            && AttemptOf(c) in o.db.attempts
            && 0 < db.edicts[c.edict].retryLimit + 1
            && o.db.attempts[AttemptOf(c)] == Initial(RootOf(c), now, db.edicts[c.edict].retryLimit + 1)
            && EventIdOf(c) in o.db.outbox && o.db.outbox[EventIdOf(c)] == StartEvent(c)
  {
    FreshRootWorks(db, RootOf(c), StartRow(c, found, now), now, db.edicts[c.edict].retryLimit + 1, AttemptOf(c));
  }

  /** The rows one committed start leaves behind, as any later step may have moved them. */
  ghost predicate StartedBy(db: Db, c: StartCommand, now: Time, max: int) {
    && RootOf(c) in db.memorials
    && db.memorials[RootOf(c)].edict == c.edict && db.memorials[RootOf(c)].instruction == c.instruction
    && db.memorials[RootOf(c)].createdAt == now
    && (c.parent.Some? ==> db.memorials[RootOf(c)].parent == c.parent)
    && db.memorials[RootOf(c)].isRoot
    && EventIdOf(c) in db.outbox && db.outbox[EventIdOf(c)] == StartEvent(c)
    && IsFirst(db.attempts, AttemptOf(c), RootOf(c))
    && db.attempts[AttemptOf(c)].maxAttempts == max
  }

  lemma StartedStays(db: Db, later: Db, c: StartCommand, now: Time, max: int)
    requires StartedBy(db, c, now, max) && Advances(db, later)
    ensures StartedBy(later, c, now, max)
  {
    assert MemorialAdvances(db.memorials[RootOf(c)], later.memorials[RootOf(c)]);
    assert AttemptAdvances(db.attempts[AttemptOf(c)], later.attempts[AttemptOf(c)]);
  }

  /** What a replay of the command, or another command under its key, gets. */
  lemma ReplayAnswer(db: Db, c: StartCommand, now: Time, max: int, c': StartCommand, found: Option<MemorialId>, at: Time)
    requires Inv(db) && StartedBy(db, c, now, max) && c.edict in db.edicts
    requires c'.edict == c.edict && c'.key == c.key
    ensures var o := Start(db, c', found, at);
            && (o.Committed? <==>
                  c' == c && db.attempts[AttemptOf(c)].availableAt == now && db.edicts[c.edict].retryLimit + 1 == max)
            && (o.Committed? ==> o.db == db && o.value == RunResult(RootOf(c), AttemptOf(c), true))
  {
    InvOneFirst(db);
    assert FirstOf(db, RootOf(c)) == Some(AttemptOf(c));
    assert AttemptWell(db.memorials, db.attempts[AttemptOf(c)]);
  }

  /** Whatever happens after a committed start, its key stays bound to its root, attempt and event.  Another
      command under the key is refused.  The same command returns the first identities and changes nothing,
      exactly when the edict's retry limit is what it was and the first attempt is still due when the root was
      created: an attempt that was suspended and resumed is due later, and its replay is refused. */
  lemma StartIsWriteOnce(
    db: Db, c: StartCommand, found: Option<MemorialId>, now: Time, later: Db, c': StartCommand, found': Option<MemorialId>,
    at: Time)
    requires Inv(db) && RootOf(c) !in db.memorials && Start(db, c, found, now).Committed?
    requires Inv(later) && Advances(Start(db, c, found, now).db, later)
    requires c'.edict == c.edict && c'.key == c.key
    ensures c.edict in db.edicts && c.edict in later.edicts && AttemptOf(c) in later.attempts
    ensures var o := Start(later, c', found', at);
            && (o.Committed? <==> && c' == c && later.attempts[AttemptOf(c)].availableAt == now
                                  && later.edicts[c.edict].retryLimit == db.edicts[c.edict].retryLimit)
            && (o.Committed? ==> o.db == later && o.value == RunResult(RootOf(c), AttemptOf(c), true))
  {
    StartFreshMeans(db, c, found, now);
    StartFreshEdicts(db, c, found, now);
    var next, max := Start(db, c, found, now).db, db.edicts[c.edict].retryLimit + 1;
    StartedStays(next, later, c, now, max);
    ReplayAnswer(later, c, now, max, c', found', at);
  }

  lemma StartFreshEdicts(db: Db, c: StartCommand, found: Option<MemorialId>, now: Time)
    requires c.edict in db.edicts && StartFresh(db, c, found, now).Committed?
    ensures StartFresh(db, c, found, now).db.edicts == db.edicts
  {
  }

  // ---------------------------------------------------------------- the whole answer of a first start

  /** The first start under a key commits if and only if the edict is there with a budget, the identities are free, and
      a follow-up finds no active root of its edict. */
  lemma StartCommitsIff(db: Db, c: StartCommand, found: Option<MemorialId>, now: Time)
    requires Inv(db) && RootOf(c) !in db.memorials
    ensures Start(db, c, found, now).Committed? <==>
              && c.edict in db.edicts && 0 <= db.edicts[c.edict].retryLimit
              && ManagedAttempt(c.edict, c.key) !in db.attempts && ManagedEvent(c.edict, c.key) !in db.outbox
              && (c.eventType == FollowupSubmitted ==>
                    forall m :: m in db.memorials && db.memorials[m].isRoot && db.memorials[m].edict == c.edict ==>
                      db.memorials[m].status in {Completed, Failed, Cancelled})
  {
    if c.edict in db.edicts {
      FreshRootWorks(db, RootOf(c), StartRow(c, found, now), now, db.edicts[c.edict].retryLimit + 1, AttemptOf(c));
    }
  }

  /** All that it writes: a submitted root with the command's instruction under the named parent, or under the newest
      root of the edict for a follow-up that names none; its first attempt, due now; and the event of the command. */
  lemma StartWrites(db: Db, c: StartCommand, found: Option<MemorialId>, now: Time)
    requires Inv(db) && RootOf(c) !in db.memorials && Start(db, c, found, now).Committed?
    ensures c.edict in db.edicts && 0 <= db.edicts[c.edict].retryLimit
    ensures var m, a := ManagedRoot(c.edict, c.key), ManagedAttempt(c.edict, c.key);
            var parent := match c.parent
                          case Some(_) => c.parent
                          case None => if c.eventType == FollowupSubmitted then found else None;
            Start(db, c, found, now) ==
              Committed(
                db.(memorials := db.memorials[m := Memorial(c.edict, true, Submitted, c.instruction, parent, now, 1, None)],
                    attempts := db.attempts[a := Attempt(m, 1, Claimable, None, 0, now, db.edicts[c.edict].retryLimit + 1, 1)],
                    outbox := db.outbox[ManagedEvent(c.edict, c.key) :=
                                          Event(Ingress(c.eventType), c.edict, m, ManagedPayload(c))]),
                RunResult(m, a, false))
  {
    FreshRootWorks(db, RootOf(c), StartRow(c, found, now), now, db.edicts[c.edict].retryLimit + 1, AttemptOf(c));
  }

  /** A start whose root is there commits if and only if root, event and first attempt are those of this very command:
      its instruction and parent, its payload, due when the root was created, with the edict's budget.  It returns
      their identities and changes nothing. */
  lemma StartReplays(db: Db, c: StartCommand, found: Option<MemorialId>, now: Time)
    requires Inv(db) && RootOf(c) in db.memorials
    ensures var o, m, a := Start(db, c, found, now), ManagedRoot(c.edict, c.key), ManagedAttempt(c.edict, c.key);
            && a in db.attempts
            && (o.Committed? <==>
                  && c.edict in db.edicts && db.memorials[m].isRoot
                  && db.memorials[m].edict == c.edict && db.memorials[m].instruction == c.instruction
                  && (c.parent == None || db.memorials[m].parent == c.parent)
                  && ManagedEvent(c.edict, c.key) in db.outbox
                  && db.outbox[ManagedEvent(c.edict, c.key)].kind == Ingress(c.eventType)
                  && db.outbox[ManagedEvent(c.edict, c.key)].payload == ManagedPayload(c)
                  && db.attempts[a].availableAt == db.memorials[m].createdAt
                  && db.attempts[a].maxAttempts == db.edicts[c.edict].retryLimit + 1)
            && (o.Committed? ==> o == Committed(db, RunResult(m, a, true)))
  {
    InvOneFirst(db);
    assert IsFirst(db.attempts, AttemptOf(c), RootOf(c));
    assert FirstOf(db, RootOf(c)) == Some(AttemptOf(c));
    assert AttemptWell(db.memorials, db.attempts[AttemptOf(c)]);
  }

  // ---------------------------------------------------------------- adopt_existing

  ghost function AdoptExisting(db: Db, m: MemorialId, key: Key, availableAt: Time): Outcome<RunResult> {
    if !Root(db, m) || db.memorials[m].edict !in db.edicts then Raised(Unavailable)
    else if Terminal(db.memorials[m].status) then Raised(Conflict)
    else
      var first, max := FirstOf(db, m), db.edicts[db.memorials[m].edict].retryLimit + 1;
      var o := EnqueueInitial(db, m, if first.Some? then db.attempts[first.value].availableAt else availableAt, max,
                              if first.Some? then first.value else AdoptedAttempt(m, key));
      if o.Raised? then Raised(o.fault) else Committed(o.db, RunResult(m, o.value, first.Some?))
  }

  method AdoptRoot(storage: Storage, m: MemorialId, key: Key, availableAt: Time) returns (r: Option<RunResult>)
    requires OneFirst(storage.db)
    modifies storage
    ensures var o := AdoptExisting(old(storage.db), m, key, availableAt);
            && storage.db == o.After(old(storage.db))
            && r == if o.Committed? then Some(o.value) else None
  {
    var db := storage.db;
    if !Root(db, m) || db.memorials[m].edict !in db.edicts { return None; }
    if Terminal(db.memorials[m].status) { return None; }
    var max := db.edicts[db.memorials[m].edict].retryLimit + 1;
    var o, existing;
    if f :| f in db.attempts && IsFirst(db.attempts, f, m) {
      assert FirstOf(db, m) == Some(f);
      existing := true;
      o := Enqueue(db, m, db.attempts[f].availableAt, max, f);
    } else {
      existing := false;
      o := Enqueue(db, m, availableAt, max, AdoptedAttempt(m, key));
    }
    if o.Raised? { return None; }
    storage.db := o.db;
    return Some(RunResult(m, o.value, existing));
  }

  lemma AdoptExistingMeans(db: Db, m: MemorialId, key: Key, availableAt: Time)
    requires AdoptExisting(db, m, key, availableAt).Committed?
    ensures var next := AdoptExisting(db, m, key, availableAt).db;
            || next == db
            || Adopts(db, next, m, availableAt, db.edicts[db.memorials[m].edict].retryLimit + 1, AdoptedAttempt(m, key))
  {
  }

  lemma AdoptExistingKeeps(db: Db, m: MemorialId, key: Key, availableAt: Time)
    requires Inv(db)
    ensures Keeps(db, AdoptExisting(db, m, key, availableAt).After(db))
  {
    var next := AdoptExisting(db, m, key, availableAt).After(db);
    if next == db {
      KeepsSame(db);
    } else {
      AdoptExistingMeans(db, m, key, availableAt);
      AdoptsKeeps(db, next, m, availableAt, db.edicts[db.memorials[m].edict].retryLimit + 1, AdoptedAttempt(m, key));
    }
  }

  /** Adopting a root that has its first attempt, under any key, returns that attempt and changes nothing, wherever
      the attempt has got to, unless the root is terminal or the retry limit was edited. */
  lemma AdoptionIsIdempotent(db: Db, m: MemorialId, key: Key, availableAt: Time, a: AttemptId)
    requires Inv(db) && IsFirst(db.attempts, a, m) && db.memorials[m].edict in db.edicts
    ensures var o := AdoptExisting(db, m, key, availableAt);
            && (o.Committed? <==>
                  ActiveRoot(db, m) && db.attempts[a].maxAttempts == db.edicts[db.memorials[m].edict].retryLimit + 1)
            && (o.Committed? ==> o.db == db && o.value == RunResult(m, a, true))
  {
    InvOneFirst(db);
    assert AttemptWell(db.memorials, db.attempts[a]);
    assert FirstOf(db, m) == Some(a);
  }

  /** Adopting a root without an attempt commits if and only if the root is active, its edict there with a budget and
      the identity free; it then inserts the first attempt, due at the asked time, and nothing else. */
  lemma AdoptionEnqueues(db: Db, m: MemorialId, key: Key, availableAt: Time)
    requires !HasFirst(db.attempts, m)
    ensures var o, a := AdoptExisting(db, m, key, availableAt), AdoptedAttempt(m, key);
            && (o.Committed? <==>
                  && ActiveRoot(db, m) && db.memorials[m].edict in db.edicts
                  && 0 <= db.edicts[db.memorials[m].edict].retryLimit && a !in db.attempts)
            && (o.Committed? ==>
                  o == Committed(
                         db.(attempts := db.attempts[a := Attempt(m, 1, Claimable, None, 0, availableAt,
                                                                  db.edicts[db.memorials[m].edict].retryLimit + 1, 1)]),
                         RunResult(m, a, false)))
  {
  }

  // ---------------------------------------------------------------- adopt_legacy

  predicate RestartSafe(db: Db, ev: LegacyEvent)
    requires ev.root in db.memorials
  {
    ev.eventType.PlanCompleted? ==>
      && ev.eventType.decision.Some?
      && HasState(db, ev.root)
      && Bound(db.decisions, ev.root, db.memorials[ev.root], db.runStates[ev.root].state, ev.eventType.decision.value)
  }

  ghost function AdoptLegacy(db: Db, ev: LegacyEvent): Outcome<RunResult> {
    var m := ev.root;
    if !Root(db, m) || db.memorials[m].edict != ev.edict || ev.edict !in db.edicts then Raised(Unavailable)
    else
      var first := FirstOf(db, m);
      if first.Some? && first.value != LegacyAttempt(ev) then Raised(Conflict)
      else if first.None? && Terminal(db.memorials[m].status) then Raised(Conflict)
      else if first.None? && !RestartSafe(db, ev) then Raised(Conflict)
      else
        var o := EnqueueInitial(db, m, ev.timestamp, db.edicts[ev.edict].retryLimit + 1, LegacyAttempt(ev));
        if o.Raised? then Raised(o.fault) else Committed(o.db, RunResult(m, o.value, first.Some?))
  }

  method AdoptLegacyEvent(storage: Storage, ev: LegacyEvent) returns (r: Option<RunResult>)
    requires OneFirst(storage.db)
    modifies storage
    ensures var o := AdoptLegacy(old(storage.db), ev);
            && storage.db == o.After(old(storage.db))
            && r == if o.Committed? then Some(o.value) else None
  {
    var db, m, existing := storage.db, ev.root, false;
    if !Root(db, m) || db.memorials[m].edict != ev.edict || ev.edict !in db.edicts { return None; }
    if f :| f in db.attempts && IsFirst(db.attempts, f, m) {
      assert FirstOf(db, m) == Some(f);
      if f != LegacyAttempt(ev) { return None; }
      existing := true;
    } else {
      if Terminal(db.memorials[m].status) || !RestartSafe(db, ev) { return None; }
    }
    var o := Enqueue(db, m, ev.timestamp, db.edicts[ev.edict].retryLimit + 1, LegacyAttempt(ev));
    if o.Raised? { return None; }
    storage.db := o.db;
    return Some(RunResult(m, o.value, existing));
  }

  lemma AdoptLegacyMeans(db: Db, ev: LegacyEvent)
    requires AdoptLegacy(db, ev).Committed?
    ensures var next := AdoptLegacy(db, ev).db;
            || next == db
            || Adopts(db, next, ev.root, ev.timestamp, db.edicts[ev.edict].retryLimit + 1, LegacyAttempt(ev))
  {
  }

  lemma AdoptLegacyKeeps(db: Db, ev: LegacyEvent)
    requires Inv(db)
    ensures Keeps(db, AdoptLegacy(db, ev).After(db))
  {
    var next := AdoptLegacy(db, ev).After(db);
    if next == db {
      KeepsSame(db);
    } else {
      AdoptLegacyMeans(db, ev);
      AdoptsKeeps(db, next, ev.root, ev.timestamp, db.edicts[ev.edict].retryLimit + 1, LegacyAttempt(ev));
    }
  }

  /** The plan review `d` is pending for the root's RunState, or has ended and moved it on. */
  predicate ReviewHeld(db: Db, m: MemorialId, d: DecisionId) {
    && PlanOf(db, m, d)
    && var s, r := db.runStates[m].state, db.decisions[d];
       || WaitsOn(s, d)
       || (r.status != Pending && MovedOn(s, d, if Approval(r) then PhasePlanning else PhaseFailed))
  }

  /** A legacy event of a root without an attempt is adopted if and only if the root is active and of the event's edict,
      the edict there with a budget, the identity free, and a finished plan is bound to a review the root's RunState
      holds; the first attempt is due when the event happened. */
  lemma LegacyEnqueues(db: Db, ev: LegacyEvent)
    requires !HasFirst(db.attempts, ev.root)
    ensures var o, a := AdoptLegacy(db, ev), LegacyAttempt(ev);
            && (o.Committed? <==>
                  && ActiveRoot(db, ev.root) && db.memorials[ev.root].edict == ev.edict && ev.edict in db.edicts
                  && 0 <= db.edicts[ev.edict].retryLimit && a !in db.attempts
                  && (ev.eventType.PlanCompleted? ==>
                        ev.eventType.decision.Some? && ReviewHeld(db, ev.root, ev.eventType.decision.value)))
            && (o.Committed? ==>
                  o == Committed(
                         db.(attempts := db.attempts[a := Attempt(ev.root, 1, Claimable, None, 0, ev.timestamp,
                                                                  db.edicts[ev.edict].retryLimit + 1, 1)]),
                         RunResult(ev.root, a, false)))
  {
  }

  /** Once there is a first attempt only its own event is accepted, finished root or not, while due time and budget are
      those of the event and the edict; nothing changes. */
  lemma LegacyReplays(db: Db, ev: LegacyEvent, a: AttemptId)
    requires Inv(db) && IsFirst(db.attempts, a, ev.root)
    ensures var o := AdoptLegacy(db, ev);
            && (o.Committed? <==>
                  && a == LegacyAttempt(ev) && db.memorials[ev.root].edict == ev.edict && ev.edict in db.edicts
                  && db.attempts[a].availableAt == ev.timestamp
                  && db.attempts[a].maxAttempts == db.edicts[ev.edict].retryLimit + 1)
            && (o.Committed? ==> o == Committed(db, RunResult(ev.root, a, true)))
  {
    InvOneFirst(db);
    assert AttemptWell(db.memorials, db.attempts[a]);
    assert FirstOf(db, ev.root) == Some(a);
  }

  /** Of all legacy events of one root only the first adopted one is ever accepted again. */
  lemma LegacyAdoptsOnce(db: Db, ev: LegacyEvent, later: Db, ev': LegacyEvent)
    requires Inv(db) && AdoptLegacy(db, ev).Committed?
    requires Inv(later) && Advances(AdoptLegacy(db, ev).db, later) && ev'.root == ev.root
    ensures AdoptLegacy(later, ev').Committed? ==> ev' == ev && AdoptLegacy(later, ev').db == later
  {
    LegacyIsFirst(db, ev);
    FirstStays(AdoptLegacy(db, ev).db, later, LegacyAttempt(ev), ev.root);
    LegacyIsBound(later, ev, ev');
  }

  lemma LegacyIsFirst(db: Db, ev: LegacyEvent)
    requires AdoptLegacy(db, ev).Committed?
    ensures IsFirst(AdoptLegacy(db, ev).db.attempts, LegacyAttempt(ev), ev.root)
  {
  }

  lemma LegacyIsBound(db: Db, ev: LegacyEvent, ev': LegacyEvent)
    requires AttemptsWell(db.memorials, db.attempts) && IsFirst(db.attempts, LegacyAttempt(ev), ev.root)
    requires ev'.root == ev.root
    ensures AdoptLegacy(db, ev').Committed? ==> ev' == ev && AdoptLegacy(db, ev').db == db
  {
    InvOneFirst(db);
    assert FirstOf(db, ev.root) == Some(LegacyAttempt(ev));
  }

  // ---------------------------------------------------------------- what else they touch

  lemma AdoptExistingStill(db: Db, m: MemorialId, key: Key, availableAt: Time)
    ensures Still(db, AdoptExisting(db, m, key, availableAt).After(db))
  {
    if AdoptExisting(db, m, key, availableAt).Committed? {
      AdoptExistingMeans(db, m, key, availableAt);
    }
  }

  lemma AdoptLegacyStill(db: Db, ev: LegacyEvent)
    ensures Still(db, AdoptLegacy(db, ev).After(db))
  {
    if AdoptLegacy(db, ev).Committed? && AdoptLegacy(db, ev).db != db {
      AdoptLegacyMeans(db, ev);
      UpdateStill(db, LegacyAttempt(ev), Initial(ev.root, ev.timestamp, db.edicts[ev.edict].retryLimit + 1));
    }
  }

  /** A fresh start inserts its root and no other Memorial. */
  ghost predicate Roots(db: Db, next: Db, m: MemorialId, row: Memorial) {
    && next.memorials == db.memorials[m := row]
    && next.edicts == db.edicts && next.jobs == db.jobs && next.fires == db.fires && next.submissions == db.submissions
    && next.runStates == db.runStates && next.decisions == db.decisions
  }

  lemma StartRoots(db: Db, c: StartCommand, found: Option<MemorialId>, now: Time)
    requires Inv(db) && c.edict in db.edicts && RootOf(c) !in db.memorials && StartFresh(db, c, found, now).Committed?
    ensures Roots(db, StartFresh(db, c, found, now).db, RootOf(c), StartRow(c, found, now))
  {
    FreshRootWorks(db, RootOf(c), StartRow(c, found, now), now, db.edicts[c.edict].retryLimit + 1, AttemptOf(c));
  }

  lemma ReplayChangesNothing(db: Db, c: StartCommand, found: Option<MemorialId>, now: Time)
    requires Inv(db) && RootOf(c) in db.memorials
    ensures Start(db, c, found, now).After(db) == db
  {
    assert IsFirst(db.attempts, AttemptOf(c), RootOf(c));
    if c.edict in db.edicts {
      ReplayIsNoChange(db, c);
    }
  }
}
