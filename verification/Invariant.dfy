/**
 What every reachable database satisfies (`Inv`), what every step may do to a row (`Advances`), and the few
 shapes of table change the services are made of, each proved once to keep both.  Every clause speaks of one
 or two tables, so that a step is argued about table by table.
 */
module Invariant {
  import opened Durable

  type Memorials = map<MemorialId, Memorial>
  type Attempts = map<AttemptId, Attempt>
  type RunStates = map<MemorialId, RunRow>
  type Outbox = map<EventId, Event>
  type Dags = map<DagId, Dag>

  // ---------------------------------------------------------------- the state invariant

  predicate RootIn(ms: Memorials, m: MemorialId) {
    m in ms && ms[m].isRoot
  }

  predicate ActiveIn(ms: Memorials, m: MemorialId) {
    m in ms && ms[m].isRoot && !Terminal(ms[m].status)
  }

  predicate AttemptWell(ms: Memorials, t: Attempt) {
    && RootIn(ms, t.memorial)
    && 1 <= t.no <= t.maxAttempts
    && 1 <= t.version
    && (t.status.Claimed? <==> t.lease.Some?)
    && (t.status.Claimed? ==> 0 < t.token)
    && (t.status.DeadLetter? ==> t.no == t.maxAttempts)
    && (Live(t.status) ==> ActiveIn(ms, t.memorial))
  }

  /** Two attempts of one root: numbers differ, the budget is shared, a live one is the newest, and newer ones
      hold newer tokens. */
  predicate PairOrdered(x: Attempt, y: Attempt) {
    x.memorial == y.memorial ==>
      && x.no != y.no && x.maxAttempts == y.maxAttempts
      && (Live(x.status) ==> y.no < x.no)
      && (y.no < x.no ==> y.token <= x.token)
      && (y.no < x.no && x.status.Claimed? ==> y.token < x.token)
  }

  predicate IsFirst(ts: Attempts, a: AttemptId, m: MemorialId) {
    a in ts && ts[a].memorial == m && ts[a].no == 1
  }

  ghost predicate HasFirst(ts: Attempts, m: MemorialId) {
    exists a :: IsFirst(ts, a, m)
  }

  ghost predicate AttemptsWell(ms: Memorials, ts: Attempts) {
    && (forall a :: a in ts ==> AttemptWell(ms, ts[a]))
    && (forall a, b :: a in ts && b in ts && a != b ==> PairOrdered(ts[a], ts[b]))
    && (forall a :: a in ts ==> HasFirst(ts, ts[a].memorial))
  }

  predicate TerminalEventFor(es: Outbox, e: EventId, m: MemorialId) {
    e in es && TerminalKind(es[e].kind) && es[e].memorial == m
  }

  predicate EventMatchesRoot(ms: Memorials, v: Event) {
    TerminalKind(v.kind) ==> RootIn(ms, v.memorial) && ms[v.memorial].status == StatusOf(v.kind)
  }

  ghost predicate HasTerminalEvent(es: Outbox, m: MemorialId) {
    exists e :: TerminalEventFor(es, e, m)
  }

  /** A root is terminal exactly when the outbox holds a terminal event for it, and then exactly one. */
  ghost predicate EventsWell(ms: Memorials, es: Outbox) {
    && (forall e :: e in es ==> EventMatchesRoot(ms, es[e]))
    && (forall e, f :: e in es && f in es && TerminalKind(es[e].kind) && TerminalKind(es[f].kind) && e != f ==>
                         es[e].memorial != es[f].memorial)
    && (forall m :: RootIn(ms, m) && Terminal(ms[m].status) ==> HasTerminalEvent(es, m))
  }

  /** An event whose identity names an attempt or a root belongs to it. */
  predicate EventNamed(ts: Attempts, e: EventId, v: Event) {
    match e
    case RunEvent(a, _, _, _) => TerminalKind(v.kind) && a in ts && ts[a].memorial == v.memorial
    case DeadLetterEvent(a) => TerminalKind(v.kind) && a in ts && ts[a].memorial == v.memorial
    case PlanFailedEvent(ByAttempt(a), _) => TerminalKind(v.kind) && a in ts && ts[a].memorial == v.memorial
    case PlanFailedEvent(ByDecision(_), _) => TerminalKind(v.kind)
    case RootCancelledEvent(m) => TerminalKind(v.kind) && v.memorial == m
    case DecisionCancelEvent(_) => TerminalKind(v.kind)
    case ResumeEvent(_) => !TerminalKind(v.kind)
    case ManagedEvent(edict, key) => !TerminalKind(v.kind) && v.memorial == ManagedRoot(edict, key)
    case DagRetryEvent(dag, key) => !TerminalKind(v.kind) && v.memorial == DagRetryRoot(dag, key)
    case SubmittedEvent(_) => !TerminalKind(v.kind)
  }

  /** A decision is answered by a resume event or by a cancel event, not by both. */
  predicate AnswersApart(es: Outbox, e: EventId) {
    match e
    case ResumeEvent(d) => DecisionCancelEvent(d) !in es
    case DecisionCancelEvent(d) => ResumeEvent(d) !in es
    case _ => true
  }

  ghost predicate NamesWell(ts: Attempts, es: Outbox) {
    forall e :: e in es ==> EventNamed(ts, e, es[e]) && AnswersApart(es, e)
  }

  lemma NamesFrame(ts: Attempts, us: Attempts, es: Outbox)
    requires NamesWell(ts, es) && AttemptsAdvance(ts, us)
    ensures NamesWell(us, es)
  {
    forall e | e in es ensures EventNamed(us, e, es[e]) && AnswersApart(es, e) {
      assert EventNamed(ts, e, es[e]) && AnswersApart(es, e);
    }
  }

  /** A pending decision is held exactly in the waiting phase, and never beside a resolved one. */
  predicate DecisionBound(s: RunState) {
    && (s.pending.Some? <==> s.phase.PhaseWaiting?)
    && (s.pending.Some? ==> s.resolved.None?)
  }

  function TerminalPhase(s: TaskStatus): RunPhase {
    if s.Completed? then PhaseCompleted else PhaseFailed
  }

  /** Every RunState belongs to a Memorial, and a decodable one is bound. */
  ghost predicate StatesWell(ms: Memorials, rs: RunStates) {
    forall m :: m in rs ==> m in ms && (rs[m].Decoded? ==> DecisionBound(rs[m].state))
  }

  /** Under a finished root a decodable RunState is in the matching terminal phase with nothing pending. */
  predicate RowMatches(row: RunRow, root: Memorial) {
    row.Decoded? && root.isRoot && Terminal(root.status) ==>
      row.state.phase == TerminalPhase(root.status) && row.state.pending.None?
  }

  /** A stored RunState that matches its root goes on matching it. */
  ghost predicate MatchKept(ms: Memorials, rs: RunStates, ns: Memorials, ss: RunStates) {
    forall m :: m in rs ==>
      m in ss && (m in ms && RowMatches(rs[m], ms[m]) ==> m in ns && RowMatches(ss[m], ns[m]))
  }

  /** A retry root of a DAG was created for an earlier generation than the one the DAG is bound to now. */
  predicate RetryRootWell(ms: Memorials, ds: Dags, m: MemorialId)
    requires m in ms && m.DagRetryRoot?
  {
    && ms[m].parent.Some?
    && ms[m].parent.value in ms
    && m.dag in ds
    && ds[m.dag].root != ms[m].parent.value
  }

  ghost predicate DagsWell(ms: Memorials, ds: Dags) {
    && (forall d :: d in ds ==> ds[d].root in ms)
    && (forall m :: m in ms && m.DagRetryRoot? ==> RetryRootWell(ms, ds, m))
    && (forall m, n :: m in ms && n in ms && m.DagRetryRoot? && n.DagRetryRoot? && m.dag == n.dag && m != n ==>
                         ms[m].parent != ms[n].parent)
  }

  /** A managed root was born together with its first attempt. */
  ghost predicate ManagedWell(ms: Memorials, ts: Attempts) {
    forall m :: m in ms && m.ManagedRoot? ==> IsFirst(ts, ManagedAttempt(m.edict, m.key), m)
  }

  ghost predicate Inv(db: Db) {
    && AttemptsWell(db.memorials, db.attempts)
    && ManagedWell(db.memorials, db.attempts)
    && EventsWell(db.memorials, db.outbox)
    && StatesWell(db.memorials, db.runStates)
    && DagsWell(db.memorials, db.dags)
    && NamesWell(db.attempts, db.outbox)
  }

  // ---------------------------------------------------------------- what a step may do to each row

  predicate MemorialAdvances(x: Memorial, y: Memorial) {
    && y == x.(status := y.status, output := y.output)
    && (Terminal(x.status) ==> y == x)
  }

  ghost predicate MemorialsAdvance(ms: Memorials, ns: Memorials) {
    forall m :: m in ms ==> m in ns && MemorialAdvances(ms[m], ns[m])
  }

  predicate AttemptAdvances(x: Attempt, y: Attempt) {
    && y.memorial == x.memorial && y.no == x.no && y.maxAttempts == x.maxAttempts
    && x.token <= y.token
    && (y == x || x.version < y.version)
    && (!Live(x.status) ==> y == x)
    && (y.status.Claimed? && y.token == x.token ==>
          x.status.Claimed? && (x.lease.Some? ==> y.lease.Some? && x.lease.value.owner == y.lease.value.owner))
  }

  ghost predicate AttemptsAdvance(ts: Attempts, us: Attempts) {
    forall a :: a in ts ==> a in us && AttemptAdvances(ts[a], us[a])
  }

  predicate DecisionAdvances(x: Decision, y: Decision) {
    && y == x.(status := y.status, updatedAt := y.updatedAt)
    && (!x.status.Pending? ==> y == x)
  }

  ghost predicate DecisionsAdvance(ds: map<DecisionId, Decision>, es: map<DecisionId, Decision>) {
    forall d :: d in ds ==> d in es && DecisionAdvances(ds[d], es[d])
  }

  predicate JobAdvances(x: Job, y: Job) {
    y.edict == x.edict && y.submission == x.submission
  }

  ghost predicate JobsAdvance(js: map<JobId, Job>, ks: map<JobId, Job>) {
    forall j :: j in js ==> j in ks && JobAdvances(js[j], ks[j])
  }

  ghost predicate Grows<K, V>(x: map<K, V>, y: map<K, V>) {
    forall k :: k in x ==> k in y && y[k] == x[k]
  }

  ghost predicate Advances(db: Db, next: Db) {
    && MemorialsAdvance(db.memorials, next.memorials)
    && AttemptsAdvance(db.attempts, next.attempts)
    && Grows(db.outbox, next.outbox)
    && DecisionsAdvance(db.decisions, next.decisions)
    && JobsAdvance(db.jobs, next.jobs)
    && Grows(db.fires, next.fires)
    && Grows(db.submissions, next.submissions)
    && db.edicts.Keys <= next.edicts.Keys
    && db.dags.Keys <= next.dags.Keys
    && Grows(db.intents, next.intents)
    && MatchKept(db.memorials, db.runStates, next.memorials, next.runStates)
  }

  lemma AttemptsTransitive(x: Attempts, y: Attempts, z: Attempts)
    requires AttemptsAdvance(x, y) && AttemptsAdvance(y, z)
    ensures AttemptsAdvance(x, z)
  {
    forall a | a in x ensures a in z && AttemptAdvances(x[a], z[a]) {
      assert AttemptAdvances(x[a], y[a]) && AttemptAdvances(y[a], z[a]);
    }
  }

  lemma MemorialsTransitive(x: Memorials, y: Memorials, z: Memorials)
    requires MemorialsAdvance(x, y) && MemorialsAdvance(y, z)
    ensures MemorialsAdvance(x, z)
  {
    forall m | m in x ensures m in z && MemorialAdvances(x[m], z[m]) {
      assert MemorialAdvances(x[m], y[m]) && MemorialAdvances(y[m], z[m]);
    }
  }

  lemma DecisionsTransitive(x: map<DecisionId, Decision>, y: map<DecisionId, Decision>, z: map<DecisionId, Decision>)
    requires DecisionsAdvance(x, y) && DecisionsAdvance(y, z)
    ensures DecisionsAdvance(x, z)
  {
    forall d | d in x ensures d in z && DecisionAdvances(x[d], z[d]) {
      assert DecisionAdvances(x[d], y[d]) && DecisionAdvances(y[d], z[d]);
    }
  }

  lemma AdvancesTransitive(a: Db, b: Db, c: Db)
    requires Advances(a, b) && Advances(b, c)
    ensures Advances(a, c)
  {
    AttemptsTransitive(a.attempts, b.attempts, c.attempts);
    MemorialsTransitive(a.memorials, b.memorials, c.memorials);
    DecisionsTransitive(a.decisions, b.decisions, c.decisions);
    MatchTransitive(a, b, c);
  }

  lemma MatchTransitive(a: Db, b: Db, c: Db)
    requires MatchKept(a.memorials, a.runStates, b.memorials, b.runStates)
    requires MatchKept(b.memorials, b.runStates, c.memorials, c.runStates)
    ensures MatchKept(a.memorials, a.runStates, c.memorials, c.runStates)
  {
  }

  /** A row a resolved tool or outer-loop decision could move. */
  predicate Open(row: RunRow) {
    row.Decoded? && (row.state.phase.PhaseWaiting? || row.state.phase.PhaseExecuting?)
  }

  predicate Names(row: RunRow, d: DecisionId) {
    row.Decoded? && (row.state.pending == Some(d) || row.state.resolved == Some(d))
  }

  /** RunStates only move forward: version, time and side-effect cursor never decrease, no row is opened, none starts
      to wait and none takes up a decision it did not name. */
  ghost predicate RowAdvances(x: RunRow, y: RunRow) {
    y == x ||
    (&& x.Decoded? && y.Decoded?
     && x.state.version < y.state.version
     && x.state.updatedAt <= y.state.updatedAt
     && x.state.cursor <= y.state.cursor
     && (Open(y) ==> Open(x))
     && (y.state.pending.Some? ==> y.state.pending == x.state.pending)
     && (forall d :: Names(y, d) ==> Names(x, d)))
  }

  /** Every RunState moves forward, none is lost and none is created. */
  ghost predicate StatesAdvance(rs: RunStates, ss: RunStates) {
    && (forall m :: m in rs ==> m in ss && RowAdvances(rs[m], ss[m]))
    && (forall m :: m in ss ==> m in rs)
  }

  ghost predicate Mentions(rs: RunStates, m: MemorialId, d: DecisionId) {
    m in rs && Names(rs[m], d)
  }

  /** A new plan failure under a decision's name is announced for a root whose RunState named that decision. */
  ghost predicate EventsFrom(es: Outbox, rs: RunStates, fs: Outbox) {
    forall e :: e in fs && e !in es && e.PlanFailedEvent? && e.identity.ByDecision? ==>
      Mentions(rs, fs[e].memorial, e.identity.decision)
  }

  /** No attempt becomes suspended. */
  ghost predicate Unparked(ts: Attempts, us: Attempts) {
    forall a :: a in us && us[a].status.Suspended? ==> a in ts && ts[a] == us[a]
  }

  /** A step that keeps the invariant, every row's history and the order of every RunState. */
  ghost predicate Conserves(db: Db, next: Db) {
    && Inv(next) && Advances(db, next)
    && StatesAdvance(db.runStates, next.runStates)
    && EventsFrom(db.outbox, db.runStates, next.outbox)
  }

  /** The same, and it suspends nothing. */
  ghost predicate Keeps(db: Db, next: Db) {
    Conserves(db, next) && Unparked(db.attempts, next.attempts)
  }

  lemma KeepsSame(db: Db)
    requires Inv(db)
    ensures Keeps(db, db)
  {
  }

  lemma KeepsTransitive(a: Db, b: Db, c: Db)
    requires Keeps(a, b) && Keeps(b, c)
    ensures Keeps(a, c)
  {
    AdvancesTransitive(a, b, c);
    StatesTransitive(a.runStates, b.runStates, c.runStates);
    EventsFromTransitive(a, b, c);
  }

  lemma StatesTransitive(x: RunStates, y: RunStates, z: RunStates)
    requires StatesAdvance(x, y) && StatesAdvance(y, z)
    ensures StatesAdvance(x, z)
  {
    forall m | m in x ensures m in z && RowAdvances(x[m], z[m]) {
      assert RowAdvances(x[m], y[m]) && RowAdvances(y[m], z[m]);
    }
  }

  lemma EventsFromTransitive(a: Db, b: Db, c: Db)
    requires StatesAdvance(a.runStates, b.runStates)
    requires EventsFrom(a.outbox, a.runStates, b.outbox) && EventsFrom(b.outbox, b.runStates, c.outbox)
    requires Grows(b.outbox, c.outbox)
    ensures EventsFrom(a.outbox, a.runStates, c.outbox)
  {
    forall e | e in c.outbox && e !in a.outbox && e.PlanFailedEvent? && e.identity.ByDecision?
      ensures Mentions(a.runStates, c.outbox[e].memorial, e.identity.decision)
    {
      var m := c.outbox[e].memorial;
      if e !in b.outbox {
        assert Mentions(b.runStates, m, e.identity.decision);
        assert RowAdvances(a.runStates[m], b.runStates[m]);
      }
    }
  }

  /** A step that touches no edict, job, fire or submission, and inserts no Memorial. */
  ghost predicate Quiet(db: Db, next: Db) {
    && next.edicts == db.edicts && next.jobs == db.jobs && next.fires == db.fires && next.submissions == db.submissions
    && (forall m :: m in next.memorials ==> m in db.memorials)
  }

  predicate ResolvedIn(rs: RunStates, m: MemorialId, d: DecisionId) {
    m in rs && rs[m].Decoded? && rs[m].state.resolved == Some(d)
  }

  predicate IsPlanReview(ds: map<DecisionId, Decision>, d: DecisionId) {
    d in ds && ds[d].kind.PlanReviewDecision?
  }

  /** No RunState takes up the resolution of a decision, plan reviews aside. */
  ghost predicate ResolvesNone(db: Db, next: Db) {
    && next.decisions == db.decisions
    && forall m, d :: ResolvedIn(next.runStates, m, d) ==> ResolvedIn(db.runStates, m, d) || IsPlanReview(db.decisions, d)
  }

  /** A quiet step that answers no tool or outer-loop decision. */
  ghost predicate Still(db: Db, next: Db) {
    Quiet(db, next) && ResolvesNone(db, next)
  }

  // ---------------------------------------------------------------- attempts, table by table

  predicate Retired(x: Attempt, y: Attempt) {
    && !Live(y.status)
    && (y.status.DeadLetter? ==> x.no == x.maxAttempts)
    && x.version < y.version
    && y == x.(status := y.status, lease := None, version := y.version)
  }

  /** Every live attempt of `m` is retired, every other attempt is as it was. */
  ghost predicate Retires(ts: Attempts, us: Attempts, m: MemorialId) {
    && us.Keys == ts.Keys
    && forall a :: a in ts ==>
         if ts[a].memorial == m && Live(ts[a].status) then Retired(ts[a], us[a]) else us[a] == ts[a]
  }

  lemma FirstsKept(ts: Attempts, us: Attempts)
    requires AttemptsAdvance(ts, us)
    ensures forall m :: HasFirst(ts, m) ==> HasFirst(us, m)
  {
    forall m | HasFirst(ts, m) ensures HasFirst(us, m) {
      var a :| IsFirst(ts, a, m);
      assert IsFirst(us, a, m);
    }
  }

  lemma RetiresAdvances(ts: Attempts, us: Attempts, m: MemorialId)
    requires Retires(ts, us, m)
    ensures AttemptsAdvance(ts, us)
  {
  }

  lemma RetiresWell(ms: Memorials, ns: Memorials, ts: Attempts, us: Attempts, m: MemorialId)
    requires AttemptsWell(ms, ts) && Retires(ts, us, m)
    requires m in ns && m in ms && ns == ms[m := ns[m]] && ns[m].isRoot == ms[m].isRoot
    ensures AttemptsWell(ns, us)
  {
    RetiresAdvances(ts, us, m);
    FirstsKept(ts, us);
    forall a, b | a in us && b in us && a != b ensures PairOrdered(us[a], us[b]) {
      assert PairOrdered(ts[a], ts[b]);
    }
    forall a | a in us ensures AttemptWell(ns, us[a]) {
      assert AttemptWell(ms, ts[a]);
    }
  }

  /** The activity of every root stays what it was. */
  ghost predicate SameActivity(ms: Memorials, ns: Memorials) {
    forall m :: RootIn(ms, m) ==> RootIn(ns, m) && (Terminal(ms[m].status) <==> Terminal(ns[m].status))
  }

  lemma AttemptsFrame(ms: Memorials, ns: Memorials, ts: Attempts)
    requires AttemptsWell(ms, ts) && SameActivity(ms, ns)
    ensures AttemptsWell(ns, ts)
  {
    forall a | a in ts ensures AttemptWell(ns, ts[a]) {
      assert AttemptWell(ms, ts[a]);
    }
  }

  predicate Moved(x: Attempt, y: Attempt) {
    && Live(x.status)
    && (y.status.DeadLetter? ==> x.no == x.maxAttempts)
    && AttemptAdvances(x, y)
    && (y.status.Claimed? <==> y.lease.Some?)
    && (y.status.Claimed? && !x.status.Claimed? ==> x.token < y.token)
  }

  lemma MoveWell(ms: Memorials, ts: Attempts, a: AttemptId, y: Attempt)
    requires AttemptsWell(ms, ts) && a in ts && Moved(ts[a], y)
    ensures AttemptsWell(ms, ts[a := y]) && AttemptsAdvance(ts, ts[a := y])
  {
    var us := ts[a := y];
    assert AttemptsAdvance(ts, us);
    FirstsKept(ts, us);
    assert AttemptWell(ms, ts[a]);
    forall b, c | b in us && c in us && b != c ensures PairOrdered(us[b], us[c]) {
      assert PairOrdered(ts[b], ts[c]) && PairOrdered(ts[c], ts[b]);
    }
  }

  /** A first attempt, or the successor of attempts that are all retired and hold no newer token. */
  ghost predicate Succeeds(ms: Memorials, ts: Attempts, t: Attempt) {
    && ActiveIn(ms, t.memorial)
    && t.status.Claimable? && t.lease.None? && 1 <= t.no <= t.maxAttempts && 1 <= t.version
    && (forall b :: b in ts && ts[b].memorial == t.memorial ==>
          !Live(ts[b].status) && ts[b].no < t.no && ts[b].token <= t.token && ts[b].maxAttempts == t.maxAttempts)
    && (t.no == 1 || HasFirst(ts, t.memorial))
  }

  lemma EnqueueWell(ms: Memorials, ts: Attempts, a: AttemptId, t: Attempt)
    requires AttemptsWell(ms, ts) && a !in ts && Succeeds(ms, ts, t)
    ensures AttemptsWell(ms, ts[a := t]) && AttemptsAdvance(ts, ts[a := t])
  {
    var us := ts[a := t];
    assert AttemptsAdvance(ts, us);
    FirstsKept(ts, us);
    if t.no == 1 { assert IsFirst(us, a, t.memorial); }
    forall b | b in us ensures HasFirst(us, us[b].memorial) {
      if b != a { assert HasFirst(ts, ts[b].memorial); }
    }
    forall b, c | b in us && c in us && b != c ensures PairOrdered(us[b], us[c]) {
      if b != a && c != a { assert PairOrdered(ts[b], ts[c]); }
    }
  }

  lemma ManagedFrame(ms: Memorials, ns: Memorials, ts: Attempts, us: Attempts)
    requires ManagedWell(ms, ts) && AttemptsAdvance(ts, us)
    requires forall m :: m in ns && m !in ms ==> !m.ManagedRoot?
    ensures ManagedWell(ns, us)
  {
    forall m | m in ns && m.ManagedRoot? ensures IsFirst(us, ManagedAttempt(m.edict, m.key), m) {
      assert IsFirst(ts, ManagedAttempt(m.edict, m.key), m);
    }
  }

  // ---------------------------------------------------------------- events, RunStates, DAGs

  lemma SettleEvents(ms: Memorials, ns: Memorials, es: Outbox, e: EventId, v: Event)
    requires EventsWell(ms, es) && e !in es && TerminalKind(v.kind) && ActiveIn(ms, v.memorial)
    requires v.memorial in ns && ns == ms[v.memorial := ns[v.memorial]]
    requires ns[v.memorial].isRoot && ns[v.memorial].status == StatusOf(v.kind)
    ensures EventsWell(ns, es[e := v])
  {
    var fs := es[e := v];
    forall f | f in es && TerminalKind(es[f].kind) ensures es[f].memorial != v.memorial {
      assert EventMatchesRoot(ms, es[f]);
    }
    forall m | RootIn(ns, m) && Terminal(ns[m].status) ensures HasTerminalEvent(fs, m) {
      if m == v.memorial {
        assert TerminalEventFor(fs, e, m);
      } else {
        assert HasTerminalEvent(es, m);
        var f :| TerminalEventFor(es, f, m);
        assert TerminalEventFor(fs, f, m);
      }
    }
    forall f | f in fs ensures EventMatchesRoot(ns, fs[f]) {
      if f != e { assert EventMatchesRoot(ms, es[f]); }
    }
  }

  /** No root becomes terminal or changes a terminal status, and new roots are not terminal. */
  ghost predicate SameTerminals(ms: Memorials, ns: Memorials) {
    && (forall m :: m in ms ==> m in ns && ns[m].isRoot == ms[m].isRoot)
    && (forall m :: RootIn(ms, m) ==>
          ns[m].status == ms[m].status || (!Terminal(ms[m].status) && !Terminal(ns[m].status)))
    && (forall m :: RootIn(ns, m) && m !in ms ==> !Terminal(ns[m].status))
  }

  lemma EventsFrame(ms: Memorials, ns: Memorials, es: Outbox)
    requires EventsWell(ms, es) && SameTerminals(ms, ns)
    ensures EventsWell(ns, es)
  {
    forall e | e in es ensures EventMatchesRoot(ns, es[e]) {
      assert EventMatchesRoot(ms, es[e]);
    }
    forall m | RootIn(ns, m) && Terminal(ns[m].status) ensures HasTerminalEvent(es, m) {
      assert RootIn(ms, m) && Terminal(ms[m].status);
    }
  }

  lemma AnnounceWell(ms: Memorials, es: Outbox, e: EventId, v: Event)
    requires EventsWell(ms, es) && e !in es && !TerminalKind(v.kind)
    ensures EventsWell(ms, es[e := v])
  {
    forall m | RootIn(ms, m) && Terminal(ms[m].status) ensures HasTerminalEvent(es[e := v], m) {
      assert HasTerminalEvent(es, m);
      var f :| TerminalEventFor(es, f, m);
      assert TerminalEventFor(es[e := v], f, m);
    }
  }

  lemma StatesFrame(ms: Memorials, ns: Memorials, rs: RunStates)
    requires StatesWell(ms, rs) && SameTerminals(ms, ns)
    ensures StatesWell(ns, rs) && MatchKept(ms, rs, ns, rs)
  {
    forall m | m in rs && m in ms && RowMatches(rs[m], ms[m]) ensures m in ns && RowMatches(rs[m], ns[m]) {
      assert RootIn(ms, m) ==> RootIn(ns, m);
    }
  }

  lemma DagsFrame(ms: Memorials, ns: Memorials, ds: Dags)
    requires DagsWell(ms, ds) && MemorialsAdvance(ms, ns)
    requires forall m :: m in ns && m !in ms ==> !m.DagRetryRoot?
    ensures DagsWell(ns, ds)
  {
    forall m | m in ns && m.DagRetryRoot? ensures RetryRootWell(ns, ds, m) {
      assert RetryRootWell(ms, ds, m) && MemorialAdvances(ms[m], ns[m]);
    }
    forall m, n | m in ns && n in ns && m.DagRetryRoot? && n.DagRetryRoot? && m.dag == n.dag && m != n
      ensures ns[m].parent != ns[n].parent
    {
      assert MemorialAdvances(ms[m], ns[m]) && MemorialAdvances(ms[n], ns[n]);
    }
  }

  // ---------------------------------------------------------------- the shapes of change

  function Update(db: Db, a: AttemptId, t: Attempt): Db {
    db.(attempts := db.attempts[a := t])
  }

  function Post(db: Db, e: EventId, v: Event): Db {
    db.(outbox := db.outbox[e := v])
  }

  function SetMemorial(db: Db, m: MemorialId, row: Memorial): Db {
    db.(memorials := db.memorials[m := row])
  }

  function SetState(db: Db, m: MemorialId, row: RunRow): Db {
    db.(runStates := db.runStates[m := row])
  }

  /** One root gets its last row, its attempts and RunState their last versions, and its event is written. */
  function Settle(db: Db, m: MemorialId, row: Memorial, us: Attempts, ss: RunStates, e: EventId, v: Event): Db {
    db.(memorials := db.memorials[m := row], attempts := us, runStates := ss, outbox := db.outbox[e := v])
  }

  /** An active root becomes terminal: its live attempt is retired, its RunState closed, its event is new and
      says the same status. */
  ghost predicate Settles(db: Db, m: MemorialId, row: Memorial, us: Attempts, ss: RunStates, e: EventId, v: Event) {
    && ActiveIn(db.memorials, m)
    && MemorialAdvances(db.memorials[m], row)
    && Retires(db.attempts, us, m)
    && e !in db.outbox
    && TerminalKind(v.kind) && v.memorial == m && StatusOf(v.kind) == row.status
    && EventNamed(db.attempts, e, v) && AnswersApart(db.outbox, e)
    && ClosesState(db.runStates, ss, m, row.status)
    && (e.PlanFailedEvent? && e.identity.ByDecision? ==> Mentions(db.runStates, m, e.identity.decision))
  }

  /** The RunState of `m`, if there is a decodable one, goes to the terminal phase of `status`. */
  ghost predicate ClosesState(rs: RunStates, ss: RunStates, m: MemorialId, status: TaskStatus) {
    if m in rs && rs[m].Decoded? then
      && m in ss && ss[m].Decoded? && ss == rs[m := ss[m]]
      && RowAdvances(rs[m], ss[m])
      && ss[m].state.phase == TerminalPhase(status) && ss[m].state.pending.None?
    else
      ss == rs
  }

  lemma CloseWell(ms: Memorials, ns: Memorials, rs: RunStates, ss: RunStates, m: MemorialId)
    requires StatesWell(ms, rs) && m in ms && m in ns && ns == ms[m := ns[m]]
    requires ClosesState(rs, ss, m, ns[m].status)
    ensures StatesWell(ns, ss) && StatesAdvance(rs, ss) && MatchKept(ms, rs, ns, ss)
  {
  }

  lemma SettlesKeeps(db: Db, m: MemorialId, row: Memorial, us: Attempts, ss: RunStates, e: EventId, v: Event)
    requires Inv(db) && Settles(db, m, row, us, ss, e, v)
    ensures Keeps(db, Settle(db, m, row, us, ss, e, v))
  {
    SettlesTables(db, m, row, us, ss, e, v);
    SettlesNames(db, m, row, us, ss, e, v);
    SettlesAside(db, m, us, e, v);
    SettlesParts(db, m, row, us, ss, e, v);
  }

  ghost predicate SettlesTo(db: Db, next: Db) {
    exists m, row, us, ss, e, v :: Settles(db, m, row, us, ss, e, v) && next == Settle(db, m, row, us, ss, e, v)
  }

  lemma SettlesToKeeps(db: Db, next: Db)
    requires Inv(db) && SettlesTo(db, next)
    ensures Keeps(db, next)
  {
    var m, row, us, ss, e, v :| Settles(db, m, row, us, ss, e, v) && next == Settle(db, m, row, us, ss, e, v);
    SettlesKeeps(db, m, row, us, ss, e, v);
  }

  lemma SettlesAside(db: Db, m: MemorialId, us: Attempts, e: EventId, v: Event)
    requires Retires(db.attempts, us, m) && v.memorial == m
    requires e.PlanFailedEvent? && e.identity.ByDecision? ==> Mentions(db.runStates, m, e.identity.decision)
    ensures Unparked(db.attempts, us) && EventsFrom(db.outbox, db.runStates, db.outbox[e := v])
  {
  }

  lemma SettlesParts(db: Db, m: MemorialId, row: Memorial, us: Attempts, ss: RunStates, e: EventId, v: Event)
    requires AttemptsWell(db.memorials[m := row], us) && AttemptsAdvance(db.attempts, us)
    requires EventsWell(db.memorials[m := row], db.outbox[e := v]) && e !in db.outbox
    requires StatesWell(db.memorials[m := row], ss) && StatesAdvance(db.runStates, ss)
    requires MatchKept(db.memorials, db.runStates, db.memorials[m := row], ss) && Unparked(db.attempts, us)
    requires EventsFrom(db.outbox, db.runStates, db.outbox[e := v])
    requires DagsWell(db.memorials[m := row], db.dags) && ManagedWell(db.memorials[m := row], us)
    requires NamesWell(us, db.outbox[e := v]) && MemorialsAdvance(db.memorials, db.memorials[m := row])
    ensures Keeps(db, Settle(db, m, row, us, ss, e, v))
  {
  }

  lemma SettlesTables(db: Db, m: MemorialId, row: Memorial, us: Attempts, ss: RunStates, e: EventId, v: Event)
    requires Inv(db) && Settles(db, m, row, us, ss, e, v)
    ensures AttemptsWell(db.memorials[m := row], us)
    ensures EventsWell(db.memorials[m := row], db.outbox[e := v])
    ensures StatesWell(db.memorials[m := row], ss) && StatesAdvance(db.runStates, ss)
    ensures MatchKept(db.memorials, db.runStates, db.memorials[m := row], ss)
  {
    var ns := db.memorials[m := row];
    RetiresWell(db.memorials, ns, db.attempts, us, m);
    SettleEvents(db.memorials, ns, db.outbox, e, v);
    CloseWell(db.memorials, ns, db.runStates, ss, m);
  }

  lemma SettlesNames(db: Db, m: MemorialId, row: Memorial, us: Attempts, ss: RunStates, e: EventId, v: Event)
    requires Inv(db) && Settles(db, m, row, us, ss, e, v)
    ensures DagsWell(db.memorials[m := row], db.dags) && ManagedWell(db.memorials[m := row], us)
    ensures NamesWell(us, db.outbox[e := v])
    ensures MemorialsAdvance(db.memorials, db.memorials[m := row]) && AttemptsAdvance(db.attempts, us)
  {
    RetiresAdvances(db.attempts, us, m);
    ManagedFrame(db.memorials, db.memorials[m := row], db.attempts, us);
    DagsFrame(db.memorials, db.memorials[m := row], db.dags);
    NamesFrame(db.attempts, us, db.outbox);
    NamesAdd(db.attempts, us, db.outbox, e, v);
  }

  lemma NamesAdd(ts: Attempts, us: Attempts, es: Outbox, e: EventId, v: Event)
    requires NamesWell(us, es) && AttemptsAdvance(ts, us) && EventNamed(ts, e, v) && AnswersApart(es, e)
    ensures NamesWell(us, es[e := v])
  {
    forall f | f in es ensures AnswersApart(es[e := v], f) {
      assert AnswersApart(es, f);
    }
  }

  lemma MovesConserves(db: Db, a: AttemptId, y: Attempt)
    requires Inv(db) && a in db.attempts && Moved(db.attempts[a], y)
    ensures Conserves(db, Update(db, a, y))
  {
    MoveWell(db.memorials, db.attempts, a, y);
    AttemptsOnlyConserves(db, db.attempts[a := y]);
  }

  lemma MovesKeeps(db: Db, a: AttemptId, y: Attempt)
    requires Inv(db) && a in db.attempts && Moved(db.attempts[a], y) && !y.status.Suspended?
    ensures Keeps(db, Update(db, a, y))
  {
    MovesConserves(db, a, y);
  }

  lemma AttemptsOnlyConserves(db: Db, us: Attempts)
    requires Inv(db) && AttemptsWell(db.memorials, us) && AttemptsAdvance(db.attempts, us)
    ensures Conserves(db, db.(attempts := us))
  {
    ManagedFrame(db.memorials, db.memorials, db.attempts, us);
    NamesFrame(db.attempts, us, db.outbox);
  }

  lemma EnqueuesKeeps(db: Db, a: AttemptId, t: Attempt)
    requires Inv(db) && a !in db.attempts && Succeeds(db.memorials, db.attempts, t)
    ensures Keeps(db, Update(db, a, t))
  {
    EnqueueWell(db.memorials, db.attempts, a, t);
    AttemptsOnlyConserves(db, db.attempts[a := t]);
  }

  /** One RunState row is rewritten, not away from the terminal phase of a finished root. */
  lemma RewritesKeeps(db: Db, m: MemorialId, row: RunRow)
    requires Inv(db) && m in db.memorials && (row.Decoded? ==> DecisionBound(row.state))
    requires m in db.runStates && RowMatches(db.runStates[m], db.memorials[m]) ==> RowMatches(row, db.memorials[m])
    ensures Inv(SetState(db, m, row)) && Advances(db, SetState(db, m, row))
    ensures m in db.runStates && RowAdvances(db.runStates[m], row) ==> Keeps(db, SetState(db, m, row))
  {
    var ss := db.runStates[m := row];
    RewriteTables(db.memorials, db.runStates, m, row);
    StatesOnlyKeeps(db, ss);
  }

  lemma RewriteTables(ms: Memorials, rs: RunStates, m: MemorialId, row: RunRow)
    requires StatesWell(ms, rs) && m in ms && (row.Decoded? ==> DecisionBound(row.state))
    requires m in rs && RowMatches(rs[m], ms[m]) ==> RowMatches(row, ms[m])
    ensures StatesWell(ms, rs[m := row]) && MatchKept(ms, rs, ms, rs[m := row])
    ensures m in rs && RowAdvances(rs[m], row) ==> StatesAdvance(rs, rs[m := row])
  {
  }

  lemma StatesOnlyKeeps(db: Db, ss: RunStates)
    requires Inv(db) && StatesWell(db.memorials, ss) && MatchKept(db.memorials, db.runStates, db.memorials, ss)
    ensures Inv(db.(runStates := ss)) && Advances(db, db.(runStates := ss))
    ensures StatesAdvance(db.runStates, ss) ==> Keeps(db, db.(runStates := ss))
  {
  }

  predicate Announceable(ts: Attempts, es: Outbox, e: EventId, v: Event) {
    e !in es && !TerminalKind(v.kind) && EventNamed(ts, e, v) && AnswersApart(es, e)
  }

  lemma AnnouncesKeeps(db: Db, e: EventId, v: Event)
    requires Inv(db) && Announceable(db.attempts, db.outbox, e, v)
    ensures Keeps(db, Post(db, e, v))
  {
    AnnounceWell(db.memorials, db.outbox, e, v);
    NamesAdd(db.attempts, db.attempts, db.outbox, e, v);
  }

  lemma MemorialsKeeps(db: Db, next: Db)
    requires Inv(db) && next == db.(memorials := next.memorials)
    requires MemorialsAdvance(db.memorials, next.memorials) && SameTerminals(db.memorials, next.memorials)
    requires forall m :: m in next.memorials && m !in db.memorials ==> !m.DagRetryRoot? && !m.ManagedRoot?
    ensures Keeps(db, next)
  {
    ManagedFrame(db.memorials, next.memorials, db.attempts, db.attempts);
    AttemptsFrame(db.memorials, next.memorials, db.attempts);
    EventsFrame(db.memorials, next.memorials, db.outbox);
    StatesFrame(db.memorials, next.memorials, db.runStates);
    DagsFrame(db.memorials, next.memorials, db.dags);
  }

  lemma InsertsKeeps(db: Db, m: MemorialId, row: Memorial)
    requires Inv(db) && m !in db.memorials && !Terminal(row.status) && !m.DagRetryRoot? && !m.ManagedRoot?
    ensures Keeps(db, SetMemorial(db, m, row))
  {
    MemorialsKeeps(db, SetMemorial(db, m, row));
  }

  lemma ProgressesKeeps(db: Db, m: MemorialId, status: TaskStatus)
    requires Inv(db) && ActiveIn(db.memorials, m) && !Terminal(status)
    ensures Keeps(db, SetMemorial(db, m, db.memorials[m].(status := status)))
  {
    MemorialsKeeps(db, SetMemorial(db, m, db.memorials[m].(status := status)));
  }

  /** A change that touches none of memorials, attempts, RunStates and outbox. */
  lemma AsideKeeps(db: Db, next: Db)
    requires Inv(db) && Advances(db, next)
    requires next.memorials == db.memorials && next.attempts == db.attempts
    requires next.runStates == db.runStates && next.outbox == db.outbox
    requires DagsWell(next.memorials, next.dags)
    ensures Keeps(db, next)
  {
  }

  // ---------------------------------------------------------------- a root is born with its first attempt

  function Birth(db: Db, m: MemorialId, row: Memorial, a: AttemptId, t: Attempt): Db {
    db.(memorials := db.memorials[m := row], attempts := db.attempts[a := t])
  }

  predicate Newborn(db: Db, m: MemorialId, row: Memorial, a: AttemptId, t: Attempt) {
    && m !in db.memorials && row.isRoot && !Terminal(row.status)
    && a !in db.attempts
    && t.memorial == m && t.no == 1 && t.status.Claimable? && t.lease.None? && 1 <= t.maxAttempts && 1 <= t.version
    && (m.ManagedRoot? ==> a == ManagedAttempt(m.edict, m.key))
  }

  lemma BirthTables(db: Db, m: MemorialId, row: Memorial, a: AttemptId, t: Attempt)
    requires Inv(db) && Newborn(db, m, row, a, t)
    ensures var ns, us := db.memorials[m := row], db.attempts[a := t];
            && AttemptsWell(ns, us) && AttemptsAdvance(db.attempts, us)
            && EventsWell(ns, db.outbox) && StatesWell(ns, db.runStates) && MemorialsAdvance(db.memorials, ns)
            && MatchKept(db.memorials, db.runStates, ns, db.runStates) && Unparked(db.attempts, us)
  {
    var ns := db.memorials[m := row];
    AttemptsFrame(db.memorials, ns, db.attempts);
    EventsFrame(db.memorials, ns, db.outbox);
    StatesFrame(db.memorials, ns, db.runStates);
    forall b | b in db.attempts ensures db.attempts[b].memorial != m {
      assert AttemptWell(db.memorials, db.attempts[b]);
    }
    EnqueueWell(ns, db.attempts, a, t);
  }

  lemma BirthNames(db: Db, m: MemorialId, row: Memorial, a: AttemptId, t: Attempt)
    requires Inv(db) && Newborn(db, m, row, a, t) && AttemptsAdvance(db.attempts, db.attempts[a := t])
    ensures ManagedWell(db.memorials[m := row], db.attempts[a := t])
    ensures NamesWell(db.attempts[a := t], db.outbox)
  {
    NamesFrame(db.attempts, db.attempts[a := t], db.outbox);
    ManagedFrame(db.memorials, db.memorials, db.attempts, db.attempts[a := t]);
  }

  lemma BirthKeeps(db: Db, m: MemorialId, row: Memorial, a: AttemptId, t: Attempt)
    requires Inv(db) && Newborn(db, m, row, a, t) && !m.DagRetryRoot?
    ensures Keeps(db, Birth(db, m, row, a, t))
  {
    BirthTables(db, m, row, a, t);
    BirthNames(db, m, row, a, t);
    DagsFrame(db.memorials, db.memorials[m := row], db.dags);
    BirthParts(db, m, row, a, t, db.dags);
  }

  lemma BirthParts(db: Db, m: MemorialId, row: Memorial, a: AttemptId, t: Attempt, ds: Dags)
    requires var ns, us := db.memorials[m := row], db.attempts[a := t];
             && AttemptsWell(ns, us) && AttemptsAdvance(db.attempts, us)
             && EventsWell(ns, db.outbox) && StatesWell(ns, db.runStates) && MemorialsAdvance(db.memorials, ns)
             && MatchKept(db.memorials, db.runStates, ns, db.runStates) && Unparked(db.attempts, us)
             && ManagedWell(ns, us) && NamesWell(us, db.outbox) && DagsWell(ns, ds) && db.dags.Keys <= ds.Keys
    ensures Keeps(db, Birth(db, m, row, a, t).(dags := ds))
  {
  }

  /** A DAG bound to root `parent` is claimed by the new retry root `m`. */
  function Rebirth(db: Db, m: MemorialId, row: Memorial, a: AttemptId, t: Attempt, dag: Dag): Db
    requires m.DagRetryRoot?
  {
    Birth(db, m, row, a, t).(dags := db.dags[m.dag := dag])
  }

  lemma RebirthDags(ms: Memorials, ds: Dags, m: MemorialId, row: Memorial, dag: Dag)
    requires DagsWell(ms, ds) && m !in ms && m.DagRetryRoot? && m.dag in ds
    requires row.parent == Some(ds[m.dag].root) && dag.root == m
    ensures DagsWell(ms[m := row], ds[m.dag := dag])
  {
    var ns, es := ms[m := row], ds[m.dag := dag];
    forall n | n in ns && n.DagRetryRoot? ensures RetryRootWell(ns, es, n) {
      if n != m { assert RetryRootWell(ms, ds, n); }
    }
    forall n, o | n in ns && o in ns && n.DagRetryRoot? && o.DagRetryRoot? && n.dag == o.dag && n != o
      ensures ns[n].parent != ns[o].parent
    {
      if n != m { assert RetryRootWell(ms, ds, n); }
      if o != m { assert RetryRootWell(ms, ds, o); }
    }
  }

  predicate Rebinds(db: Db, m: MemorialId, row: Memorial, dag: Dag) {
    m.DagRetryRoot? && m.dag in db.dags && row.parent == Some(db.dags[m.dag].root) && dag.root == m
  }

  lemma RebirthKeeps(db: Db, m: MemorialId, row: Memorial, a: AttemptId, t: Attempt, dag: Dag)
    requires Inv(db) && Newborn(db, m, row, a, t) && Rebinds(db, m, row, dag)
    ensures Keeps(db, Rebirth(db, m, row, a, t, dag))
  {
    BirthTables(db, m, row, a, t);
    BirthNames(db, m, row, a, t);
    RebirthDags(db.memorials, db.dags, m, row, dag);
    BirthParts(db, m, row, a, t, db.dags[m.dag := dag]);
  }
}
