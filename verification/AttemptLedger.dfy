/** Leases and fencing tokens of execution attempts: `storage/attempt_ledger.py`. */
module AttemptLedger {
  import opened Durable
  import opened Invariant

  /** The authority names a claimed attempt, its owner and its token, and `now` lies inside the lease. */
  predicate Current(db: Db, auth: Authority, now: Time) {
    && auth.attempt in db.attempts
    && var t := db.attempts[auth.attempt];
       && t.status.Claimed? && t.lease.Some?
       && t.lease.value.owner == auth.owner
       && t.token == auth.token && 0 < auth.token
       && t.lease.value.heartbeat <= now < t.lease.value.expires
  }

  predicate IsLive(ts: Attempts, a: AttemptId, m: MemorialId) {
    a in ts && ts[a].memorial == m && Live(ts[a].status)
  }

  /** The unique index of the ledger: a Memorial has at most one live attempt. */
  ghost predicate OneLive(db: Db) {
    forall a, b, m :: IsLive(db.attempts, a, m) && IsLive(db.attempts, b, m) ==> a == b
  }

  lemma InvOneLive(db: Db)
    requires AttemptsWell(db.memorials, db.attempts)
    ensures OneLive(db)
  {
    forall a, b, m | IsLive(db.attempts, a, m) && IsLive(db.attempts, b, m) ensures a == b {
      var ts := db.attempts;
      assert a != b ==> PairOrdered(ts[a], ts[b]) && PairOrdered(ts[b], ts[a]);
    }
  }

  ghost function LiveOf(db: Db, m: MemorialId): (r: Option<AttemptId>)
    ensures r.Some? ==> IsLive(db.attempts, r.value, m)
    ensures r.None? ==> forall a :: !IsLive(db.attempts, a, m)
  {
    if exists a :: IsLive(db.attempts, a, m) then
      var a :| IsLive(db.attempts, a, m); Some(a)
    else
      None
  }

  ghost function FirstOf(db: Db, m: MemorialId): (r: Option<AttemptId>)
    ensures r.Some? ==> IsFirst(db.attempts, r.value, m)
    ensures r.None? <==> !HasFirst(db.attempts, m)
  {
    if HasFirst(db.attempts, m) then
      var a :| IsFirst(db.attempts, a, m); Some(a)
    else
      None
  }

  ghost predicate Distinct<T>(s: seq<T>) {
    forall i, j :: 0 <= i < j < |s| ==> s[i] != s[j]
  }

  /** The roots of a list of attempts. */
  function RootsOf(ts: Attempts, rows: seq<AttemptId>): set<MemorialId>
    requires forall i :: 0 <= i < |rows| ==> rows[i] in ts
  {
    if rows == [] then {} else RootsOf(ts, rows[..|rows| - 1]) + {ts[rows[|rows| - 1]].memorial}
  }

  lemma {:induction false} InRootsOf(ts: Attempts, rows: seq<AttemptId>, m: MemorialId)
    requires forall i :: 0 <= i < |rows| ==> rows[i] in ts
    ensures m in RootsOf(ts, rows) <==> exists i :: 0 <= i < |rows| && ts[rows[i]].memorial == m
  {
    if rows != [] {
      var last := |rows| - 1;
      InRootsOf(ts, rows[..last], m);
      if i :| 0 <= i < |rows| && ts[rows[i]].memorial == m && i < last { assert rows[..last][i] == rows[i]; }
    }
  }

  function Retire(t: Attempt, status: AttemptStatus): Attempt {
    t.(status := status, lease := None, version := t.version + 1)
  }

  /** The row a retry inserts: next number, the predecessor's token, a new version. */
  function Successor(t: Attempt, availableAt: Time): Attempt {
    Attempt(t.memorial, t.no + 1, Claimable, None, t.token, availableAt, t.maxAttempts, 1)
  }

  function TakenBy(t: Attempt, owner: OwnerId, now: Time, seconds: int): Attempt {
    t.(status := Claimed, lease := Some(Lease(owner, now, now + seconds)), token := t.token + 1, version := t.version + 1)
  }

  function Take(db: Db, a: AttemptId, owner: OwnerId, now: Time, seconds: int): Outcome<Option<Authority>>
    requires a in db.attempts
  {
    var t := db.attempts[a];
    Committed(Update(db, a, TakenBy(t, owner, now, seconds)), Some(Authority(a, t.memorial, owner, t.token + 1)))
  }

  ghost function Claim(db: Db, m: MemorialId, owner: OwnerId, now: Time, seconds: int, ulid: Ulid)
    : Outcome<Option<Authority>>
  {
    if seconds <= 0 then Raised(InvalidRequest)
    else if m in db.memorials && !db.memorials[m].isRoot then Raised(Conflict)
    else
      var live := LiveOf(db, m);
      if live.None? then Committed(db, None)
      else
        var a := live.value;
        var t := db.attempts[a];
        if t.status.Suspended? then Committed(db, None)
        else if t.status.Claimable? then
          if now < t.availableAt then Committed(db, None) else Take(db, a, owner, now, seconds)
        else if t.lease.Some? && now < t.lease.value.expires then Committed(db, None)
        else Expire(db, a, owner, now, seconds, ulid)
  }

  /** What `Claim` does to an expired claim: dead letter, or a failed attempt and its claimed successor. */
  ghost function Expire(db: Db, a: AttemptId, owner: OwnerId, now: Time, seconds: int, ulid: Ulid)
    : Outcome<Option<Authority>>
    requires a in db.attempts
  {
    var t := db.attempts[a];
    if t.maxAttempts <= t.no then Committed(Update(db, a, Retire(t, DeadLetter)), None)
    else if RetryAttempt(ulid) in db.attempts then Raised(Conflict)
    else
      var expired := Update(db, a, Retire(t, AttemptFailed));
      Take(Update(expired, RetryAttempt(ulid), Successor(t, now)), RetryAttempt(ulid), owner, now, seconds)
  }

  function Heartbeat(db: Db, auth: Authority, now: Time): Outcome<bool> {
    if !Current(db, auth, now) then Committed(db, false)
    else
      var t := db.attempts[auth.attempt];
      var lease := Lease(auth.owner, now, now + (t.lease.value.expires - t.lease.value.heartbeat));
      Committed(Update(db, auth.attempt, t.(lease := Some(lease), version := t.version + 1)), true)
  }

  /** `complete` with a suspended outcome. */
  function Suspend(db: Db, auth: Authority, now: Time): Outcome<bool> {
    if !Current(db, auth, now) then Committed(db, false)
    else Committed(Update(db, auth.attempt, Retire(db.attempts[auth.attempt], Suspended)), true)
  }

  /** The row `enqueue_initial` inserts. */
  function Initial(m: MemorialId, availableAt: Time, maxAttempts: int): Attempt
    requires 0 < maxAttempts
  {
    Attempt(m, 1, Claimable, None, 0, availableAt, maxAttempts, 1)
  }

  ghost function EnqueueInitial(db: Db, m: MemorialId, availableAt: Time, maxAttempts: int, a: AttemptId)
    : Outcome<AttemptId>
  {
    if maxAttempts <= 0 then Raised(InvalidRequest)
    else if !Root(db, m) then Raised(Conflict)
    else
      var first := FirstOf(db, m);
      if first.Some? then
        var t := db.attempts[first.value];
        if t.availableAt != availableAt || t.maxAttempts != maxAttempts || first.value != a
        then Raised(Conflict) else Committed(db, a)
      else if a in db.attempts then Raised(Conflict)
      else Committed(Update(db, a, Initial(m, availableAt, maxAttempts)), a)
  }

  // ---------------------------------------------------------------- each keeps the invariant

  /** All attempts of the root of a live one are retired once it is: its successor is then the newest. */
  lemma SuccessorSucceeds(db: Db, a: AttemptId, status: AttemptStatus, at: Time)
    requires AttemptsWell(db.memorials, db.attempts) && a in db.attempts && Live(db.attempts[a].status)
    requires !Live(status) && db.attempts[a].no < db.attempts[a].maxAttempts
    ensures Succeeds(db.memorials, db.attempts[a := Retire(db.attempts[a], status)], Successor(db.attempts[a], at))
  {
    var t := db.attempts[a];
    var ts := db.attempts[a := Retire(t, status)];
    assert AttemptWell(db.memorials, t);
    forall b | b in ts && ts[b].memorial == t.memorial
      ensures !Live(ts[b].status) && ts[b].no < t.no + 1 && ts[b].token <= t.token && ts[b].maxAttempts == t.maxAttempts
    {
      if b != a {
        assert PairOrdered(t, db.attempts[b]) && PairOrdered(db.attempts[b], t);
      }
    }
    assert HasFirst(ts, t.memorial) by {
      var f :| IsFirst(db.attempts, f, t.memorial);
      assert IsFirst(ts, f, t.memorial);
    }
  }

  lemma RetryKeeps(db: Db, a: AttemptId, ulid: Ulid, at: Time)
    requires Inv(db) && a in db.attempts && Live(db.attempts[a].status)
    requires db.attempts[a].no < db.attempts[a].maxAttempts && RetryAttempt(ulid) !in db.attempts
    ensures Keeps(db, Update(Update(db, a, Retire(db.attempts[a], AttemptFailed)),
                             RetryAttempt(ulid), Successor(db.attempts[a], at)))
  {
    var t := db.attempts[a];
    var mid := Update(db, a, Retire(t, AttemptFailed));
    MovesKeeps(db, a, Retire(t, AttemptFailed));
    SuccessorSucceeds(db, a, AttemptFailed, at);
    EnqueuesKeeps(mid, RetryAttempt(ulid), Successor(t, at));
    KeepsTransitive(db, mid, Update(mid, RetryAttempt(ulid), Successor(t, at)));
  }

  lemma ClaimKeeps(db: Db, m: MemorialId, owner: OwnerId, now: Time, seconds: int, ulid: Ulid)
    requires Inv(db)
    ensures Keeps(db, Claim(db, m, owner, now, seconds, ulid).After(db))
  {
    var live := LiveOf(db, m);
    var next := Claim(db, m, owner, now, seconds, ulid).After(db);
    if next == db {
      KeepsSame(db);
    } else {
      var t := db.attempts[live.value];
      assert AttemptWell(db.memorials, t);
      if t.status.Claimable? {
        TakeKeeps(db, live.value, owner, now, seconds);
      } else {
        ExpireKeeps(db, live.value, owner, now, seconds, ulid);
      }
    }
  }

  lemma ExpireKeeps(db: Db, a: AttemptId, owner: OwnerId, now: Time, seconds: int, ulid: Ulid)
    requires Inv(db) && a in db.attempts && db.attempts[a].status.Claimed?
    ensures Keeps(db, Expire(db, a, owner, now, seconds, ulid).After(db))
  {
    var t := db.attempts[a];
    if t.maxAttempts <= t.no {
      MovesKeeps(db, a, Retire(t, DeadLetter));
    } else if RetryAttempt(ulid) !in db.attempts {
      RetryKeeps(db, a, ulid, now);
      var mid := Update(Update(db, a, Retire(t, AttemptFailed)), RetryAttempt(ulid), Successor(t, now));
      TakeKeeps(mid, RetryAttempt(ulid), owner, now, seconds);
      KeepsTransitive(db, mid, Take(mid, RetryAttempt(ulid), owner, now, seconds).db);
    }
  }

  lemma TakeKeeps(db: Db, a: AttemptId, owner: OwnerId, now: Time, seconds: int)
    requires Inv(db) && a in db.attempts && db.attempts[a].status.Claimable?
    ensures Keeps(db, Take(db, a, owner, now, seconds).db)
  {
    var t := db.attempts[a];
    MovesKeeps(db, a, TakenBy(t, owner, now, seconds));
  }

  lemma HeartbeatKeeps(db: Db, auth: Authority, now: Time)
    requires Inv(db)
    ensures Keeps(db, Heartbeat(db, auth, now).After(db))
  {
    if Current(db, auth, now) {
      MovesKeeps(db, auth.attempt, Heartbeat(db, auth, now).db.attempts[auth.attempt]);
    }
  }

  lemma SuspendConserves(db: Db, auth: Authority, now: Time)
    requires Inv(db)
    ensures Conserves(db, Suspend(db, auth, now).After(db))
  {
    if !Current(db, auth, now) {
      KeepsSame(db);
    } else {
      MovesConserves(db, auth.attempt, Retire(db.attempts[auth.attempt], Suspended));
    }
  }

  lemma NoFirstNoAttempt(db: Db, m: MemorialId)
    requires AttemptsWell(db.memorials, db.attempts) && !HasFirst(db.attempts, m)
    ensures forall a :: a in db.attempts ==> db.attempts[a].memorial != m
  {
  }

  /** The first attempt of an active root is inserted. */
  ghost predicate Adopts(db: Db, next: Db, m: MemorialId, availableAt: Time, maxAttempts: int, a: AttemptId) {
    && ActiveIn(db.memorials, m) && !HasFirst(db.attempts, m) && a !in db.attempts && 0 < maxAttempts
    && next == Update(db, a, Initial(m, availableAt, maxAttempts))
  }

  lemma AdoptsKeeps(db: Db, next: Db, m: MemorialId, availableAt: Time, maxAttempts: int, a: AttemptId)
    requires Inv(db) && Adopts(db, next, m, availableAt, maxAttempts, a)
    ensures Keeps(db, next)
  {
    NoFirstNoAttempt(db, m);
    EnqueuesKeeps(db, a, Initial(m, availableAt, maxAttempts));
  }

  // ---------------------------------------------------------------- first attempts

  ghost predicate OneFirst(db: Db) {
    forall a, b, m :: IsFirst(db.attempts, a, m) && IsFirst(db.attempts, b, m) ==> a == b
  }

  lemma InvOneFirst(db: Db)
    requires AttemptsWell(db.memorials, db.attempts)
    ensures OneFirst(db)
  {
    forall a, b, m | IsFirst(db.attempts, a, m) && IsFirst(db.attempts, b, m) ensures a == b {
      assert a != b ==> PairOrdered(db.attempts[a], db.attempts[b]);
    }
  }

  lemma EnqueueMeans(db: Db, m: MemorialId, availableAt: Time, maxAttempts: int, a: AttemptId)
    requires EnqueueInitial(db, m, availableAt, maxAttempts, a).Committed?
    ensures var next := EnqueueInitial(db, m, availableAt, maxAttempts, a).db;
            && IsFirst(next.attempts, a, m) && next.attempts[a].maxAttempts == maxAttempts
            && next.jobs == db.jobs && next.fires == db.fires
  {
    if FirstOf(db, m).None? {
      assert EnqueueInitial(db, m, availableAt, maxAttempts, a).db == Update(db, a, Initial(m, availableAt, maxAttempts));
    } else {
      assert EnqueueInitial(db, m, availableAt, maxAttempts, a).db == db;
    }
  }

  lemma FirstStays(db: Db, later: Db, a: AttemptId, m: MemorialId)
    requires IsFirst(db.attempts, a, m) && AttemptsAdvance(db.attempts, later.attempts)
    ensures IsFirst(later.attempts, a, m)
  {
    assert AttemptAdvances(db.attempts[a], later.attempts[a]);
  }

  method Enqueue(db: Db, m: MemorialId, availableAt: Time, maxAttempts: int, a: AttemptId) returns (o: Outcome<AttemptId>)
    requires OneFirst(db)
    ensures o == EnqueueInitial(db, m, availableAt, maxAttempts, a)
  {
    if maxAttempts <= 0 { return Raised(InvalidRequest); }
    if !Root(db, m) { return Raised(Conflict); }
    if f :| f in db.attempts && IsFirst(db.attempts, f, m) {
      assert FirstOf(db, m) == Some(f);
      var t := db.attempts[f];
      if t.availableAt != availableAt || t.maxAttempts != maxAttempts || f != a { return Raised(Conflict); }
      return Committed(db, a);
    }
    if a in db.attempts { return Raised(Conflict); }
    return Committed(Update(db, a, Initial(m, availableAt, maxAttempts)), a);
  }

  /** A root row and its first attempt, inserted in one transaction. */
  ghost function FreshRoot(db: Db, m: MemorialId, row: Memorial, availableAt: Time, maxAttempts: int, a: AttemptId)
    : Outcome<AttemptId>
  {
    EnqueueInitial(SetMemorial(db, m, row), m, availableAt, maxAttempts, a)
  }

  lemma NewRootHasNoFirst(db: Db, m: MemorialId, row: Memorial)
    requires AttemptsWell(db.memorials, db.attempts) && m !in db.memorials
    ensures !HasFirst(SetMemorial(db, m, row).attempts, m)
  {
    forall a | a in db.attempts ensures db.attempts[a].memorial != m {
      assert AttemptWell(db.memorials, db.attempts[a]);
    }
  }

  lemma FreshRootWorks(db: Db, m: MemorialId, row: Memorial, availableAt: Time, maxAttempts: int, a: AttemptId)
    requires AttemptsWell(db.memorials, db.attempts) && m !in db.memorials && row.isRoot
    ensures var o := FreshRoot(db, m, row, availableAt, maxAttempts, a);
            && (o.Committed? <==> 0 < maxAttempts && a !in db.attempts)
            && (o.Committed? ==> o == Committed(Birth(db, m, row, a, Initial(m, availableAt, maxAttempts)), a))
  {
    NewRootHasNoFirst(db, m, row);
  }

  // ---------------------------------------------------------------- the ledger touches attempts only

  lemma UpdateStill(db: Db, a: AttemptId, t: Attempt)
    ensures Still(db, Update(db, a, t))
  {
  }

  lemma ClaimStill(db: Db, m: MemorialId, owner: OwnerId, now: Time, seconds: int, ulid: Ulid)
    ensures Still(db, Claim(db, m, owner, now, seconds, ulid).After(db))
  {
    var live, next := LiveOf(db, m), Claim(db, m, owner, now, seconds, ulid).After(db);
    if next != db {
      if db.attempts[live.value].status.Claimable? {
        TakeStill(db, live.value, owner, now, seconds);
      } else {
        ExpireStill(db, live.value, owner, now, seconds, ulid);
      }
    }
  }

  lemma TakeStill(db: Db, a: AttemptId, owner: OwnerId, now: Time, seconds: int)
    requires a in db.attempts
    ensures Still(db, Take(db, a, owner, now, seconds).db)
  {
    UpdateStill(db, a, TakenBy(db.attempts[a], owner, now, seconds));
  }

  lemma ExpireStill(db: Db, a: AttemptId, owner: OwnerId, now: Time, seconds: int, ulid: Ulid)
    requires a in db.attempts
    ensures Still(db, Expire(db, a, owner, now, seconds, ulid).After(db))
  {
    var t := db.attempts[a];
    UpdateStill(db, a, Retire(t, DeadLetter));
    var expired := Update(db, a, Retire(t, AttemptFailed));
    UpdateStill(db, a, Retire(t, AttemptFailed));
    UpdateStill(expired, RetryAttempt(ulid), Successor(t, now));
    TakeStill(Update(expired, RetryAttempt(ulid), Successor(t, now)), RetryAttempt(ulid), owner, now, seconds);
  }

  lemma HeartbeatStill(db: Db, auth: Authority, now: Time)
    ensures Still(db, Heartbeat(db, auth, now).After(db))
  {
  }

  lemma SuspendStill(db: Db, auth: Authority, now: Time)
    ensures Still(db, Suspend(db, auth, now).After(db))
  {
  }

  // ---------------------------------------------------------------- what a claim hands out

  lemma TakeIssues(db: Db, a: AttemptId, owner: OwnerId, now: Time, seconds: int)
    requires a in db.attempts && 0 < seconds
    ensures var o := Take(db, a, owner, now, seconds);
            && o.value == Some(Authority(a, db.attempts[a].memorial, owner, db.attempts[a].token + 1))
            && Current(o.db, o.value.value, now)
  {
  }

  lemma LiveHasNewestToken(db: Db, a: AttemptId, b: AttemptId)
    requires AttemptsWell(db.memorials, db.attempts) && a in db.attempts && b in db.attempts
    requires db.attempts[a].memorial == db.attempts[b].memorial && Live(db.attempts[a].status)
    ensures db.attempts[b].token <= db.attempts[a].token
  {
    if a != b {
      assert PairOrdered(db.attempts[a], db.attempts[b]);
    }
  }

  lemma ExpireIssues(db: Db, a: AttemptId, owner: OwnerId, now: Time, seconds: int, ulid: Ulid)
    requires a in db.attempts && 0 < seconds
    requires Expire(db, a, owner, now, seconds, ulid).Committed? && Expire(db, a, owner, now, seconds, ulid).value.Some?
    ensures var o := Expire(db, a, owner, now, seconds, ulid);
            && o.value == Some(Authority(RetryAttempt(ulid), db.attempts[a].memorial, owner, db.attempts[a].token + 1))
            && Current(o.db, o.value.value, now)
  {
    var t := db.attempts[a];
    var mid := Update(Update(db, a, Retire(t, AttemptFailed)), RetryAttempt(ulid), Successor(t, now));
    TakeIssues(mid, RetryAttempt(ulid), owner, now, seconds);
  }

  /** A won claim is current at once, and its token is newer than any the root has seen. */
  lemma ClaimIssues(db: Db, m: MemorialId, owner: OwnerId, now: Time, seconds: int, ulid: Ulid)
    requires Inv(db)
    requires var o := Claim(db, m, owner, now, seconds, ulid); o.Committed? && o.value.Some?
    ensures var o := Claim(db, m, owner, now, seconds, ulid);
            var auth := o.value.value;
            && auth.memorial == m && auth.owner == owner && Current(o.db, auth, now)
            && forall b :: b in db.attempts && db.attempts[b].memorial == m ==> db.attempts[b].token < auth.token
  {
    var a := LiveOf(db, m).value;
    if db.attempts[a].status.Claimable? {
      TakeIssues(db, a, owner, now, seconds);
    } else {
      ExpireIssues(db, a, owner, now, seconds, ulid);
    }
    forall b | b in db.attempts && db.attempts[b].memorial == m ensures db.attempts[b].token <= db.attempts[a].token {
      LiveHasNewestToken(db, a, b);
    }
  }

  /** While an authority is current no one else wins its root. */
  lemma CurrentExcludesClaims(db: Db, auth: Authority, now: Time, owner: OwnerId, seconds: int, ulid: Ulid)
    requires Inv(db) && Current(db, auth, now) && 0 < seconds
    ensures Claim(db, db.attempts[auth.attempt].memorial, owner, now, seconds, ulid) == Committed(db, None)
  {
    var m := db.attempts[auth.attempt].memorial;
    assert AttemptWell(db.memorials, db.attempts[auth.attempt]);
    InvOneLive(db);
    assert IsLive(db.attempts, auth.attempt, m);
    assert LiveOf(db, m) == Some(auth.attempt);
  }

  // ---------------------------------------------------------------- the whole answer of each call

  predicate DueAt(db: Db, a: AttemptId, m: MemorialId, now: Time) {
    a in db.attempts && db.attempts[a].memorial == m && db.attempts[a].status == Claimable && db.attempts[a].availableAt <= now
  }

  predicate ExpiredAt(db: Db, a: AttemptId, m: MemorialId, now: Time) {
    && a in db.attempts && db.attempts[a].memorial == m && db.attempts[a].status == Claimed
    && db.attempts[a].lease.Some? && db.attempts[a].lease.value.expires <= now
  }

  lemma OnlyLive(db: Db, a: AttemptId, m: MemorialId)
    requires Inv(db) && IsLive(db.attempts, a, m)
    ensures LiveOf(db, m) == Some(a) && AttemptWell(db.memorials, db.attempts[a])
  {
    InvOneLive(db);
    assert IsLive(db.attempts, LiveOf(db, m).value, m);
  }

  /** An attempt that is due is claimed: next token, a lease from now on, number, budget and due time kept. */
  lemma ClaimTakesDue(db: Db, m: MemorialId, owner: OwnerId, now: Time, seconds: int, ulid: Ulid, a: AttemptId)
    requires Inv(db) && 0 < seconds && DueAt(db, a, m, now)
    ensures var t := db.attempts[a];
            Claim(db, m, owner, now, seconds, ulid) ==
              Committed(
                db.(attempts := db.attempts[a := Attempt(m, t.no, Claimed, Some(Lease(owner, now, now + seconds)), t.token + 1,
                                                         t.availableAt, t.maxAttempts, t.version + 1)]),
                Some(Authority(a, m, owner, t.token + 1)))
  {
    OnlyLive(db, a, m);
  }

  lemma ExpireReplaces(db: Db, a: AttemptId, owner: OwnerId, now: Time, seconds: int, ulid: Ulid)
    requires a in db.attempts && db.attempts[a].no < db.attempts[a].maxAttempts && RetryAttempt(ulid) !in db.attempts
    ensures var t, b := db.attempts[a], RetryAttempt(ulid);
            Expire(db, a, owner, now, seconds, ulid) ==
              Committed(
                db.(attempts :=
                  db.attempts[a := t.(status := AttemptFailed, lease := None, version := t.version + 1)]
                             [b := Attempt(t.memorial, t.no + 1, Claimed, Some(Lease(owner, now, now + seconds)), t.token + 1,
                                           now, t.maxAttempts, 2)]),
                Some(Authority(b, t.memorial, owner, t.token + 1)))
  {
    var t, b := db.attempts[a], RetryAttempt(ulid);
    var us := db.attempts[a := Retire(t, AttemptFailed)];
    assert us[b := Successor(t, now)][b := TakenBy(Successor(t, now), owner, now, seconds)] ==
           us[b := TakenBy(Successor(t, now), owner, now, seconds)];
  }

  /** An expired claim with budget left is failed, and its successor is claimed at once: next number and token, due
      now, the same budget.  A taken identity raises. */
  lemma ClaimReplacesExpired(db: Db, m: MemorialId, owner: OwnerId, now: Time, seconds: int, ulid: Ulid, a: AttemptId)
    requires Inv(db) && 0 < seconds && ExpiredAt(db, a, m, now) && db.attempts[a].no < db.attempts[a].maxAttempts
    ensures var t, b, o := db.attempts[a], RetryAttempt(ulid), Claim(db, m, owner, now, seconds, ulid);
            if b in db.attempts then o.Raised?
            else
              o == Committed(
                     db.(attempts :=
                       db.attempts[a := t.(status := AttemptFailed, lease := None, version := t.version + 1)]
                                  [b := Attempt(m, t.no + 1, Claimed, Some(Lease(owner, now, now + seconds)), t.token + 1,
                                                now, t.maxAttempts, 2)]),
                     Some(Authority(b, m, owner, t.token + 1)))
  {
    OnlyLive(db, a, m);
    assert Claim(db, m, owner, now, seconds, ulid) == Expire(db, a, owner, now, seconds, ulid);
    if RetryAttempt(ulid) !in db.attempts {
      ExpireReplaces(db, a, owner, now, seconds, ulid);
    }
  }

  /** An expired claim without budget becomes a dead letter, and nobody wins. */
  lemma ClaimBuriesExpired(db: Db, m: MemorialId, owner: OwnerId, now: Time, seconds: int, ulid: Ulid, a: AttemptId)
    requires Inv(db) && 0 < seconds && ExpiredAt(db, a, m, now) && db.attempts[a].maxAttempts <= db.attempts[a].no
    ensures var t := db.attempts[a];
            Claim(db, m, owner, now, seconds, ulid) ==
              Committed(db.(attempts := db.attempts[a := t.(status := DeadLetter, lease := None, version := t.version + 1)]), None)
  {
    OnlyLive(db, a, m);
  }

  /** In every other case nobody wins and nothing changes: back-off, a running lease and a suspension are respected. */
  lemma ClaimFindsNothing(db: Db, m: MemorialId, owner: OwnerId, now: Time, seconds: int, ulid: Ulid)
    requires Inv(db) && forall a :: !DueAt(db, a, m, now) && !ExpiredAt(db, a, m, now)
    ensures var o := Claim(db, m, owner, now, seconds, ulid);
            if seconds <= 0 || (m in db.memorials && !db.memorials[m].isRoot) then o.Raised? else o == Committed(db, None)
  {
    var live := LiveOf(db, m);
    if live.Some? {
      assert AttemptWell(db.memorials, db.attempts[live.value]);
      assert !DueAt(db, live.value, m, now) && !ExpiredAt(db, live.value, m, now);
    }
  }

  ghost predicate Winnable(db: Db, m: MemorialId, now: Time, ulid: Ulid) {
    || (exists a :: DueAt(db, a, m, now))
    || (exists a :: ExpiredAt(db, a, m, now) && db.attempts[a].no < db.attempts[a].maxAttempts
                    && RetryAttempt(ulid) !in db.attempts)
  }

  /** A claim wins if and only if the root's live attempt is due, or its lease has run out with budget left and the
      new identity free. */
  lemma ClaimWinsIff(db: Db, m: MemorialId, owner: OwnerId, now: Time, seconds: int, ulid: Ulid)
    requires Inv(db)
    ensures var o := Claim(db, m, owner, now, seconds, ulid);
            (o.Committed? && o.value.Some?) <==> 0 < seconds && Winnable(db, m, now, ulid)
  {
    if 0 < seconds {
      if a :| DueAt(db, a, m, now) {
        ClaimTakesDue(db, m, owner, now, seconds, ulid, a);
      } else if a :| ExpiredAt(db, a, m, now) {
        OnlyExpired(db, a, m, now);
        if db.attempts[a].no < db.attempts[a].maxAttempts {
          ClaimReplacesExpired(db, m, owner, now, seconds, ulid, a);
        } else {
          ClaimBuriesExpired(db, m, owner, now, seconds, ulid, a);
        }
      } else {
        ClaimFindsNothing(db, m, owner, now, seconds, ulid);
      }
    }
  }

  lemma OnlyExpired(db: Db, a: AttemptId, m: MemorialId, now: Time)
    requires Inv(db) && ExpiredAt(db, a, m, now)
    ensures forall b :: ExpiredAt(db, b, m, now) ==> b == a
  {
    InvOneLive(db);
    assert IsLive(db.attempts, a, m);
    forall b | ExpiredAt(db, b, m, now) ensures b == a {
      assert IsLive(db.attempts, b, m);
    }
  }

  /** A heartbeat is accepted exactly from the owner and token of a running lease; the lease then starts now with its
      old length, and nothing else changes. */
  lemma HeartbeatRenews(db: Db, auth: Authority, now: Time)
    ensures var a, o := auth.attempt, Heartbeat(db, auth, now);
            && o.Committed?
            && (o.value <==>
                  && a in db.attempts && db.attempts[a].status == Claimed && db.attempts[a].lease.Some?
                  && db.attempts[a].lease.value.owner == auth.owner && db.attempts[a].token == auth.token && 0 < auth.token
                  && db.attempts[a].lease.value.heartbeat <= now < db.attempts[a].lease.value.expires)
            && (!o.value ==> o.db == db)
            && (o.value ==>
                  var t := db.attempts[a];
                  var length := t.lease.value.expires - t.lease.value.heartbeat;
                  o.db == db.(attempts := db.attempts[a := t.(lease := Some(Lease(auth.owner, now, now + length)),
                                                              version := t.version + 1)]))
  {
  }

  /** `enqueue_initial` on a root: the stored first attempt answers for its own identity, due time and budget; where
      there is none, an attempt with number 1 and token 0 is inserted under a free identity. */
  lemma EnqueueAnswers(db: Db, m: MemorialId, availableAt: Time, maxAttempts: int, a: AttemptId)
    requires OneFirst(db)
    ensures var o := EnqueueInitial(db, m, availableAt, maxAttempts, a);
            && (o.Committed? <==>
                  && 0 < maxAttempts && m in db.memorials && db.memorials[m].isRoot
                  && (IsFirst(db.attempts, a, m)
                      ==> db.attempts[a].availableAt == availableAt && db.attempts[a].maxAttempts == maxAttempts)
                  && (!IsFirst(db.attempts, a, m) ==> a !in db.attempts && !HasFirst(db.attempts, m)))
            && (o.Committed? ==> o.value == a)
            && (o.Committed? && a in db.attempts ==> o.db == db)
            && (o.Committed? && a !in db.attempts ==>
                  o.db == db.(attempts := db.attempts[a := Attempt(m, 1, Claimable, None, 0, availableAt, maxAttempts, 1)]))
  {
    if HasFirst(db.attempts, m) {
      assert IsFirst(db.attempts, FirstOf(db, m).value, m);
    }
  }

  /** A heartbeat in time keeps the authority current for one more lease, and only its own attempt is touched. */
  lemma HeartbeatExtends(db: Db, auth: Authority, now: Time, later: Time)
    requires Current(db, auth, now)
    requires now <= later < now + db.attempts[auth.attempt].lease.value.expires - db.attempts[auth.attempt].lease.value.heartbeat
    ensures var o := Heartbeat(db, auth, now);
            && o.Committed? && o.value && Current(o.db, auth, later)
            && o.db == db.(attempts := db.attempts[auth.attempt := o.db.attempts[auth.attempt]])
  {
  }

  /** Only the current authority can suspend; afterwards it is current no more and the attempt waits. */
  lemma SuspendMeans(db: Db, auth: Authority, now: Time)
    ensures var o := Suspend(db, auth, now);
            && o.Committed? && (o.value <==> Current(db, auth, now))
            && (!o.value ==> o.db == db)
            && (o.value ==> !Current(o.db, auth, now))
            && (o.value ==>
                  var t := db.attempts[auth.attempt];
                  o.db == db.(attempts := db.attempts[auth.attempt := t.(status := Suspended, lease := None,
                                                                         version := t.version + 1)]))
  {
  }
}
