/** Projection of expired dead letters onto their roots: `FencedRunCompletion.reconcile_dead_lettered_roots`. */
module DeadLetterReconciliation {
  import opened Durable
  import opened Invariant
  import opened AttemptLedger
  import opened FencedCompletion

  /** A dead-lettered attempt whose root is still active. */
  predicate Backlogged(db: Db, a: AttemptId) {
    a in db.attempts && db.attempts[a].status.DeadLetter? && ActiveRoot(db, db.attempts[a].memorial)
  }

  /** An answer to the scan query: backlogged rows in some order, all of them unless the limit cut it. */
  ghost predicate IsScan(db: Db, limit: int, rows: seq<AttemptId>) {
    && Distinct(rows)
    && |rows| <= limit
    && (forall i :: 0 <= i < |rows| ==> rows[i] in db.attempts && Backlogged(db, rows[i]))
    && (|rows| < limit ==> forall a :: Backlogged(db, a) ==> a in rows)
  }

  /** One iteration of the loop: a row whose root is no longer active is passed over. */
  function ReconcileRow(db: Db, a: AttemptId, at: Time): Outcome<nat>
    requires a in db.attempts
  {
    var m := db.attempts[a].memorial;
    if !ActiveRoot(db, m) then Committed(db, 0)
    else
      var closed := CloseRunState(db, m, db.memorials[m].edict, PhaseFailed, at);
      if closed.Raised? then Raised(closed.fault)
      else if DeadLetterEvent(a) in db.outbox then Raised(Conflict)
      else Committed(DeadLettered(db, a, db.attempts, closed.db.runStates), 1)
  }

  /** All rows in order, in one transaction. */
  function Reconcile(db: Db, rows: seq<AttemptId>, at: Time): (o: Outcome<nat>)
    requires forall i :: 0 <= i < |rows| ==> rows[i] in db.attempts
    ensures o.Committed? ==> o.db.attempts == db.attempts
  {
    if rows == [] then Committed(db, 0)
    else
      var last := |rows| - 1;
      var init := Reconcile(db, rows[..last], at);
      if init.Raised? then init
      else
        var row := ReconcileRow(init.db, rows[last], at);
        if row.Raised? then row else Committed(row.db, init.value + row.value)
  }

  method ReconcileDeadLetteredRoots(storage: Storage, limit: int, rows: seq<AttemptId>, at: Time)
    returns (r: Option<nat>)
    requires 0 < limit ==> IsScan(storage.db, limit, rows)
    modifies storage
    ensures 0 < limit ==> storage.db == Reconcile(old(storage.db), rows, at).After(old(storage.db))
    ensures 0 < limit ==> r == match Reconcile(old(storage.db), rows, at)
                               case Committed(_, n) => Some(n)
                               case Raised(_) => None
    ensures limit <= 0 ==> r == None && storage.db == old(storage.db)
  {
    if limit <= 0 { return None; }
    var db, changed := storage.db, 0;
    for i := 0 to |rows|
      invariant Reconcile(storage.db, rows[..i], at) == Committed(db, changed)
      invariant storage.db == old(storage.db)
    {
      assert rows[..i + 1][..i] == rows[..i];
      var row := ReconcileRow(db, rows[i], at);
      if row.Raised? {
        RaisedStays(storage.db, rows, i + 1, at);
        return None;
      }
      db, changed := row.db, changed + row.value;
    }
    assert rows[..|rows|] == rows;
    storage.db := db;
    return Some(changed);
  }

  lemma {:induction false} RaisedStays(db: Db, rows: seq<AttemptId>, i: nat, at: Time)
    requires i <= |rows| && forall j :: 0 <= j < |rows| ==> rows[j] in db.attempts
    requires Reconcile(db, rows[..i], at).Raised?
    ensures Reconcile(db, rows, at).Raised?
    decreases |rows| - i
  {
    if i == |rows| {
      assert rows[..i] == rows;
    } else {
      assert rows[..i + 1][..i] == rows[..i];
      RaisedStays(db, rows, i + 1, at);
    }
  }

  // ---------------------------------------------------------------- what one pass does

  /** A root has at most one dead letter: it carries the last number of the budget. */
  lemma OneDeadLetterPerRoot(db: Db, a: AttemptId, b: AttemptId)
    requires Inv(db) && Backlogged(db, a) && Backlogged(db, b) && db.attempts[a].memorial == db.attempts[b].memorial
    ensures a == b
  {
    assert AttemptWell(db.memorials, db.attempts[a]) && AttemptWell(db.memorials, db.attempts[b]);
    assert a != b ==> PairOrdered(db.attempts[a], db.attempts[b]);
  }

  lemma ReconcileRowSettles(db: Db, a: AttemptId, at: Time)
    requires a in db.attempts && Retires(db.attempts, db.attempts, db.attempts[a].memorial)
    requires ReconcileRow(db, a, at).Committed? && ActiveRoot(db, db.attempts[a].memorial)
    ensures SettlesTo(db, ReconcileRow(db, a, at).db)
  {
    var m, o := db.attempts[a].memorial, ReconcileRow(db, a, at);
    CloseRunStateWorks(db, m, Failed, at);
    assert o.db == DeadLettered(db, a, db.attempts, o.db.runStates);
    assert Settles(db, m, Finished(db.memorials[m], Failed, None), db.attempts, ReconcileRow(db, a, at).db.runStates,
                   DeadLetterEvent(a), Event(ExecutionFailed, db.memorials[m].edict, m, Plain));
  }

  lemma ReconcileRowKeeps(db: Db, a: AttemptId, at: Time)
    requires Inv(db) && a in db.attempts && db.attempts[a].status.DeadLetter?
    ensures Keeps(db, ReconcileRow(db, a, at).After(db))
  {
    if ReconcileRow(db, a, at).Raised? || !ActiveRoot(db, db.attempts[a].memorial) {
      KeepsSame(db);
    } else {
      NoLiveBesideDeadLetter(db, a);
      ReconcileRowSettles(db, a, at);
      SettlesToKeeps(db, ReconcileRow(db, a, at).db);
    }
  }

  lemma NoLiveBesideDeadLetter(db: Db, a: AttemptId)
    requires AttemptsWell(db.memorials, db.attempts) && a in db.attempts && db.attempts[a].status.DeadLetter?
    ensures Retires(db.attempts, db.attempts, db.attempts[a].memorial)
  {
    var ts := db.attempts;
    assert AttemptWell(db.memorials, ts[a]);
    forall b | b in ts && ts[b].memorial == ts[a].memorial ensures !Live(ts[b].status) {
      assert AttemptWell(db.memorials, ts[b]);
      assert b != a ==> PairOrdered(ts[b], ts[a]);
    }
  }

  lemma {:induction false} ReconcileKeeps(db: Db, rows: seq<AttemptId>, at: Time)
    requires Inv(db)
    requires forall i :: 0 <= i < |rows| ==> rows[i] in db.attempts && db.attempts[rows[i]].status.DeadLetter?
    ensures Keeps(db, Reconcile(db, rows, at).After(db))
  {
    if rows == [] || Reconcile(db, rows, at).Raised? {
      KeepsSame(db);
    } else {
      var last := |rows| - 1;
      ReconcileKeeps(db, rows[..last], at);
      var mid := Reconcile(db, rows[..last], at).db;
      ReconcileRowKeeps(mid, rows[last], at);
      KeepsTransitive(db, mid, Reconcile(db, rows, at).db);
    }
  }

  /** The root of the row is failed with its output kept and its RunState ends; nothing else is touched. */
  predicate RowDone(db: Db, next: Db, m: MemorialId, at: Time) {
    && m in db.memorials
    && next.attempts == db.attempts
    && next.memorials == db.memorials[m := db.memorials[m].(status := Failed)]
    && StateEnds(db.runStates, next.runStates, m, PhaseFailed, at)
  }

  lemma ReconcileRowWorks(db: Db, a: AttemptId, at: Time)
    requires Inv(db) && Backlogged(db, a)
    ensures var o := ReconcileRow(db, a, at);
            && (o.Committed? <==> Closable(db, db.attempts[a].memorial))
            && (o.Committed? ==> && o.value == 1 && RowDone(db, o.db, db.attempts[a].memorial, at)
                                 && var m := db.attempts[a].memorial;
                                    o.db.outbox == db.outbox[DeadLetterEvent(a) :=
                                                               Event(ExecutionFailed, db.memorials[m].edict, m, Plain)])
  {
    CloseRunStateWorks(db, db.attempts[a].memorial, Failed, at);
    if DeadLetterEvent(a) in db.outbox {
      assert EventNamed(db.attempts, DeadLetterEvent(a), db.outbox[DeadLetterEvent(a)]);
      ActiveHasNoEvent(db, DeadLetterEvent(a));
    }
  }

  /** Exactly the roots in `done` are failed and their RunStates end; every other root and RunState is as it was. */
  predicate PassDone(db: Db, next: Db, done: set<MemorialId>, at: Time) {
    && next.attempts == db.attempts
    && next.memorials.Keys == db.memorials.Keys
    && (forall m :: m in db.memorials ==>
          next.memorials[m] == if m in done then db.memorials[m].(status := Failed) else db.memorials[m])
    && next.runStates.Keys == db.runStates.Keys
    && (forall m :: m in db.runStates ==>
          if m in done then RowEnds(db.runStates[m], next.runStates[m], PhaseFailed, at)
          else next.runStates[m] == db.runStates[m])
  }

  ghost predicate AllBacklogged(db: Db, rows: seq<AttemptId>) {
    Distinct(rows) && forall i :: 0 <= i < |rows| ==> rows[i] in db.attempts && Backlogged(db, rows[i])
  }

  /** Distinct backlogged attempts have distinct roots. */
  lemma {:induction false} RootsDistinct(db: Db, rows: seq<AttemptId>)
    requires Inv(db) && AllBacklogged(db, rows)
    ensures |RootsOf(db.attempts, rows)| == |rows|
  {
    if rows != [] {
      RootsDistinct(db, rows[..|rows| - 1]);
      LastRootIsNew(db, rows);
    }
  }

  lemma LastRootIsNew(db: Db, rows: seq<AttemptId>)
    requires Inv(db) && AllBacklogged(db, rows) && rows != []
    ensures db.attempts[rows[|rows| - 1]].memorial !in RootsOf(db.attempts, rows[..|rows| - 1])
  {
    var last := |rows| - 1;
    var m := db.attempts[rows[last]].memorial;
    InRootsOf(db.attempts, rows[..last], m);
    if i :| 0 <= i < last && db.attempts[rows[..last][i]].memorial == m {
      assert rows[..last][i] == rows[i];
      OneDeadLetterPerRoot(db, rows[i], rows[last]);
    }
  }

  lemma PassDoneStep(db: Db, mid: Db, next: Db, done: set<MemorialId>, m: MemorialId, at: Time)
    requires PassDone(db, mid, done, at) && RowDone(mid, next, m, at) && m !in done
    ensures PassDone(db, next, done + {m}, at)
  {
  }

  ghost predicate AllClosable(db: Db, rows: seq<AttemptId>) {
    forall i :: 0 <= i < |rows| ==>
      rows[i] in db.attempts && db.attempts[rows[i]].memorial in db.memorials && Closable(db, db.attempts[rows[i]].memorial)
  }

  lemma AllClosableLast(db: Db, rows: seq<AttemptId>)
    requires rows != [] && AllBacklogged(db, rows)
    ensures AllClosable(db, rows) <==>
              AllClosable(db, rows[..|rows| - 1]) && Closable(db, db.attempts[rows[|rows| - 1]].memorial)
  {
    var last := |rows| - 1;
    if AllClosable(db, rows[..last]) && Closable(db, db.attempts[rows[last]].memorial) {
      forall i | 0 <= i < |rows| ensures Closable(db, db.attempts[rows[i]].memorial) {
        assert i < last ==> rows[i] == rows[..last][i];
      }
    }
    if AllClosable(db, rows) {
      forall i | 0 <= i < last ensures rows[..last][i] == rows[i] && Closable(db, db.attempts[rows[i]].memorial) {
      }
    }
  }

  /** A pass over backlogged rows commits exactly when every scanned root has a closable RunState; it then fails
      exactly those roots and returns how many there are.  One unclosable RunState rolls all of them back. */
  lemma {:induction false} ReconcileWorks(db: Db, rows: seq<AttemptId>, at: Time)
    requires Inv(db) && AllBacklogged(db, rows)
    ensures Reconcile(db, rows, at).Committed? <==> AllClosable(db, rows)
    ensures var o := Reconcile(db, rows, at);
            o.Committed? ==> o.value == |rows| && PassDone(db, o.db, RootsOf(db.attempts, rows), at)
  {
    if rows != [] {
      var last := |rows| - 1;
      var init, a := rows[..last], rows[last];
      ReconcileWorks(db, init, at);
      AllClosableLast(db, rows);
      var o := Reconcile(db, init, at);
      if o.Committed? {
        ReconcileLast(db, rows, o.db, at);
      }
    }
  }

  lemma ReconcileLast(db: Db, rows: seq<AttemptId>, mid: Db, at: Time)
    requires Inv(db) && AllBacklogged(db, rows) && rows != []
    requires Reconcile(db, rows[..|rows| - 1], at) == Committed(mid, |rows| - 1)
    requires PassDone(db, mid, RootsOf(db.attempts, rows[..|rows| - 1]), at)
    ensures var o := ReconcileRow(mid, rows[|rows| - 1], at);
            && (o.Committed? <==> Closable(db, db.attempts[rows[|rows| - 1]].memorial))
            && (o.Committed? ==> o.value == 1 && PassDone(db, o.db, RootsOf(db.attempts, rows), at))
  {
    var last := |rows| - 1;
    var init, a := rows[..last], rows[last];
    var m := db.attempts[a].memorial;
    LastRootIsNew(db, rows);
    ReconcileKeeps(db, init, at);
    UndoneStays(db, mid, RootsOf(db.attempts, init), a, at);
    ReconcileRowWorks(mid, a, at);
    var o := ReconcileRow(mid, a, at);
    if o.Committed? { PassDoneStep(db, mid, o.db, RootsOf(db.attempts, init), m, at); }
  }

  lemma UndoneStays(db: Db, mid: Db, done: set<MemorialId>, a: AttemptId, at: Time)
    requires PassDone(db, mid, done, at) && Backlogged(db, a) && db.attempts[a].memorial !in done
    ensures Backlogged(mid, a) && mid.attempts[a].memorial == db.attempts[a].memorial
    ensures Closable(mid, db.attempts[a].memorial) <==> Closable(db, db.attempts[a].memorial)
  {
  }

  // ---------------------------------------------------------------- repeated passes

  ghost function BacklogRoots(db: Db): set<MemorialId> {
    set a | a in db.attempts && Backlogged(db, a) :: db.attempts[a].memorial
  }

  ghost function BacklogSize(db: Db): nat {
    |BacklogRoots(db)|
  }

  lemma PassShrinksBacklog(db: Db, limit: int, rows: seq<AttemptId>, at: Time)
    requires Inv(db) && IsScan(db, limit, rows) && Reconcile(db, rows, at).Committed?
    ensures var o := Reconcile(db, rows, at);
            && BacklogRoots(o.db) == BacklogRoots(db) - RootsOf(db.attempts, rows)
            && RootsOf(db.attempts, rows) <= BacklogRoots(db)
            && |BacklogRoots(o.db)| == |BacklogRoots(db)| - o.value
            && (0 < limit && o.value == 0 ==> BacklogRoots(db) == {})
  {
    assert AllBacklogged(db, rows);
    ReconcileWorks(db, rows, at);
    RootsDistinct(db, rows);
    BacklogAfter(db, rows, at);
  }

  lemma BacklogAfter(db: Db, rows: seq<AttemptId>, at: Time)
    requires AllBacklogged(db, rows) && Reconcile(db, rows, at).Committed?
    requires PassDone(db, Reconcile(db, rows, at).db, RootsOf(db.attempts, rows), at)
    ensures RootsOf(db.attempts, rows) <= BacklogRoots(db)
    ensures BacklogRoots(Reconcile(db, rows, at).db) == BacklogRoots(db) - RootsOf(db.attempts, rows)
  {
    var next, done := Reconcile(db, rows, at).db, RootsOf(db.attempts, rows);
    forall m | m in done ensures m in BacklogRoots(db) {
      InRootsOf(db.attempts, rows, m);
      var i :| 0 <= i < |rows| && db.attempts[rows[i]].memorial == m;
      assert Backlogged(db, rows[i]);
    }
    forall m | m in BacklogRoots(db) && m !in done ensures m in BacklogRoots(next) {
      var a :| a in db.attempts && Backlogged(db, a) && db.attempts[a].memorial == m;
      assert Backlogged(next, a);
    }
    forall m | m in BacklogRoots(next) ensures m in BacklogRoots(db) && m !in done {
      var a :| a in next.attempts && Backlogged(next, a) && next.attempts[a].memorial == m;
      assert Backlogged(db, a);
    }
  }

  /** A committed pass lowers the number of backlogged roots by what it returns, and returns 0 only when none
      is left. */
  lemma PassCounts(db: Db, limit: int, rows: seq<AttemptId>, at: Time)
    requires Inv(db) && 0 < limit && IsScan(db, limit, rows) && Reconcile(db, rows, at).Committed?
    ensures var o := Reconcile(db, rows, at);
            && Inv(o.db)
            && BacklogSize(o.db) + o.value == BacklogSize(db)
            && (o.value == 0 ==> BacklogSize(db) == 0)
  {
    PassShrinksBacklog(db, limit, rows, at);
    ReconcileKeeps(db, rows, at);
  }

  datatype Pass = Pass(rows: seq<AttemptId>, at: Time)

  /** Pass `i` is a valid scan of the database it meets and commits the next one with its count. */
  ghost predicate PassAt(db: Db, limit: int, pass: Pass, next: Db, count: nat) {
    IsScan(db, limit, pass.rows) && Reconcile(db, pass.rows, pass.at) == Committed(next, count)
  }

  ghost predicate Passes(dbs: seq<Db>, limit: int, passes: seq<Pass>, counts: seq<nat>) {
    && |dbs| == |passes| + 1 && |counts| == |passes|
    && forall i :: 0 <= i < |passes| ==> PassAt(dbs[i], limit, passes[i], dbs[i + 1], counts[i])
  }

  function Sum(counts: seq<nat>): nat {
    if counts == [] then 0 else Sum(counts[..|counts| - 1]) + counts[|counts| - 1]
  }

  lemma PassAtCounts(db: Db, limit: int, pass: Pass, next: Db, count: nat)
    requires Inv(db) && 0 < limit && PassAt(db, limit, pass, next, count)
    ensures Inv(next) && BacklogSize(next) + count == BacklogSize(db) && (count == 0 ==> BacklogSize(db) == 0)
  {
    PassCounts(db, limit, pass.rows, pass.at);
  }

  /** Repeated passes converge for every positive limit: the counts sum to the distinct roots that were failed,
      and as many passes as there were backlogged roots leave none. */
  lemma {:induction false} PassesConverge(dbs: seq<Db>, limit: int, passes: seq<Pass>, counts: seq<nat>)
    requires 0 < limit && Passes(dbs, limit, passes, counts) && Inv(dbs[0])
    ensures var final := dbs[|passes|];
            && Inv(final)
            && BacklogSize(final) + Sum(counts) == BacklogSize(dbs[0])
            && (BacklogSize(final) == 0 || |passes| + BacklogSize(final) <= BacklogSize(dbs[0]))
  {
    var n := |passes|;
    if n != 0 {
      assert Passes(dbs[..n], limit, passes[..n - 1], counts[..n - 1]) by {
        forall i | 0 <= i < n - 1 ensures PassAt(dbs[..n][i], limit, passes[..n - 1][i], dbs[..n][i + 1], counts[..n - 1][i]) {
          assert PassAt(dbs[i], limit, passes[i], dbs[i + 1], counts[i]);
        }
      }
      PassesConverge(dbs[..n], limit, passes[..n - 1], counts[..n - 1]);
      PassAtCounts(dbs[n - 1], limit, passes[n - 1], dbs[n], counts[n - 1]);
    }
  }

  lemma ScannedRootsAreBacklogged(db: Db, rows: seq<AttemptId>)
    requires AllBacklogged(db, rows)
    ensures RootsOf(db.attempts, rows) <= BacklogRoots(db)
  {
    forall m | m in RootsOf(db.attempts, rows) ensures m in BacklogRoots(db) {
      InRootsOf(db.attempts, rows, m);
      var i :| 0 <= i < |rows| && db.attempts[rows[i]].memorial == m;
      assert Backlogged(db, rows[i]);
    }
  }

  /** A limit that covers the backlog makes the scan complete. */
  lemma CoveringScanIsComplete(db: Db, limit: int, rows: seq<AttemptId>, a: AttemptId)
    requires Inv(db) && IsScan(db, limit, rows) && BacklogSize(db) <= limit && Backlogged(db, a)
    ensures a in rows
  {
    if |rows| == limit {
      assert AllBacklogged(db, rows);
      RootsDistinct(db, rows);
      ScannedRootsAreBacklogged(db, rows);
      SubsetOfEqualSize(RootsOf(db.attempts, rows), BacklogRoots(db));
      var m := db.attempts[a].memorial;
      assert m in BacklogRoots(db);
      InRootsOf(db.attempts, rows, m);
      var i :| 0 <= i < |rows| && db.attempts[rows[i]].memorial == m;
      OneDeadLetterPerRoot(db, a, rows[i]);
    }
  }

  /** Convergence needs the closable RunStates: when the limit covers the backlog, one backlogged root whose
      RunState cannot be closed makes every pass raise, so no root is ever failed again. */
  lemma UnclosableRootBlocksEveryPass(db: Db, limit: int, rows: seq<AttemptId>, at: Time, bad: AttemptId)
    requires Inv(db) && IsScan(db, limit, rows)
    requires Backlogged(db, bad) && !Closable(db, db.attempts[bad].memorial)
    requires BacklogSize(db) <= limit
    ensures Reconcile(db, rows, at).Raised?
  {
    assert AllBacklogged(db, rows);
    ReconcileWorks(db, rows, at);
    CoveringScanIsComplete(db, limit, rows, bad);
  }

  lemma SubsetOfEqualSize<T>(a: set<T>, b: set<T>)
    requires a <= b && |b| <= |a|
    ensures a == b
  {
    assert b == a + (b - a) && |b| == |a| + |b - a|;
  }

  lemma ReconcileRowStill(db: Db, a: AttemptId, at: Time)
    requires a in db.attempts
    ensures Still(db, ReconcileRow(db, a, at).After(db))
  {
    var o, m := ReconcileRow(db, a, at), db.attempts[a].memorial;
    if o.Committed? && ActiveRoot(db, m) {
      SettleStill(db, m, Finished(db.memorials[m], Failed, None), db.attempts, o.db.runStates, DeadLetterEvent(a),
                  Event(ExecutionFailed, db.memorials[m].edict, m, Plain));
    }
  }

  lemma {:induction false} ReconcileStill(db: Db, rows: seq<AttemptId>, at: Time)
    requires forall i :: 0 <= i < |rows| ==> rows[i] in db.attempts
    ensures Still(db, Reconcile(db, rows, at).After(db))
  {
    if rows != [] && Reconcile(db, rows, at).Committed? {
      ReconcileStill(db, rows[..|rows| - 1], at);
      ReconcileRowStill(Reconcile(db, rows[..|rows| - 1], at).db, rows[|rows| - 1], at);
    }
  }
}
