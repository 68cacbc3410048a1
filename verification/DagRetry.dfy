/** The atomic claim of a failed DAG by a retry root: `ManagedRunIngress.retry_dag`. */
module DagRetry {
  import opened Durable
  import opened Invariant
  import opened AttemptLedger
  import opened DagReset

  function RetryRoot(c: DagRetryCommand): MemorialId { DagRetryRoot(c.dag, c.key) }
  function RetryAttemptOf(c: DagRetryCommand): AttemptId { DagRetryAttempt(c.dag, c.key) }
  function RetryEventOf(c: DagRetryCommand): EventId { DagRetryEvent(c.dag, c.key) }

  function FailedIds(rows: seq<DagNode>): set<NodeId> {
    set i | 0 <= i < |rows| && rows[i].status.NodeFailed? :: rows[i].id
  }

  /** All failed nodes, unless the caller names the nodes to start from. */
  function Targets(rows: seq<DagNode>, c: DagRetryCommand): set<NodeId> {
    if c.fromNodes.Some? then c.fromNodes.value else FailedIds(rows)
  }

  /** The DAG failed or was cancelled, and so was the root it is bound to. */
  predicate Retriable(db: Db, dag: DagId) {
    && dag in db.dags
    && var d := db.dags[dag];
       && d.edict in db.edicts
       && (d.status.DagFailed? || d.status.DagCancelled?)
       && Root(db, d.root) && db.memorials[d.root].edict == d.edict
       && (db.memorials[d.root].status.Failed? || db.memorials[d.root].status.Cancelled?)
  }

  predicate TargetsKnown(db: Db, c: DagRetryCommand)
    requires c.dag in db.dags
  {
    var rows := db.dags[c.dag].rows;
    (forall n :: n in Targets(rows, c) ==> n in Ids(rows)) && Targets(rows, c) != {}
  }

  /** The update of the reset nodes touches one row for each: no identity of the set occurs twice. */
  predicate OneRowEach(rows: seq<DagNode>, reset: set<NodeId>) {
    forall i, j :: 0 <= i < j < |rows| && rows[i].id in reset ==> rows[i].id != rows[j].id
  }

  function ResetRows(rows: seq<DagNode>, reset: set<NodeId>): (r: seq<DagNode>)
    ensures |r| == |rows|
    ensures forall i :: 0 <= i < |rows| ==>
              r[i] == if rows[i].id in reset then rows[i].(status := NodePending) else rows[i]
  {
    seq(|rows|, i requires 0 <= i < |rows| => if rows[i].id in reset then rows[i].(status := NodePending) else rows[i])
  }

  function RetryRow(db: Db, c: DagRetryCommand, now: Time): Memorial
    requires Retriable(db, c.dag)
  {
    var previous := db.memorials[db.dags[c.dag].root];
    Memorial(db.dags[c.dag].edict, true, Submitted, previous.instruction, Some(db.dags[c.dag].root), now,
             previous.generation + 1, None)
  }

  function ClaimedDag(db: Db, c: DagRetryCommand, reset: set<NodeId>): Dag
    requires c.dag in db.dags
  {
    db.dags[c.dag].(status := DagPending, root := RetryRoot(c), rows := ResetRows(db.dags[c.dag].rows, reset))
  }

  function RetryEvent(db: Db, c: DagRetryCommand, reset: set<NodeId>): Event
    requires c.dag in db.dags
  {
    Event(DagRetryRequested, db.dags[c.dag].edict, RetryRoot(c), DagRetryPayload(c, reset))
  }

  function Claimed(db: Db, c: DagRetryCommand, reset: set<NodeId>): Db
    requires c.dag in db.dags
  {
    db.(dags := db.dags[c.dag := ClaimedDag(db, c, reset)])
  }

  ghost function RetryFresh(db: Db, c: DagRetryCommand, now: Time): Outcome<set<NodeId>> {
    if !Retriable(db, c.dag) || !TargetsKnown(db, c) then Raised(InvalidRequest)
    else
      var d := db.dags[c.dag];
      var reset := ResetSet(d.rows, Targets(d.rows, c));
      if !OneRowEach(d.rows, reset) then Raised(Conflict)
      else
        var born := FreshRoot(Claimed(db, c, reset), RetryRoot(c), RetryRow(db, c, now), now,
                              db.edicts[d.edict].retryLimit + 1, RetryAttemptOf(c));
        if born.Raised? then Raised(born.fault)
        else if RetryEventOf(c) in db.outbox then Raised(Conflict)
        else Committed(Post(born.db, RetryEventOf(c), RetryEvent(db, c, reset)), reset)
  }

  /** The stored attempt and event are those of this very command. */
  predicate RetryStored(db: Db, c: DagRetryCommand) {
    && RetryAttemptOf(c) in db.attempts && db.attempts[RetryAttemptOf(c)].memorial == RetryRoot(c)
    && RetryEventOf(c) in db.outbox
    && db.outbox[RetryEventOf(c)].payload.DagRetryPayload?
    && db.outbox[RetryEventOf(c)].payload.request == c
  }

  ghost function RetryDag(db: Db, c: DagRetryCommand, now: Time): Outcome<set<NodeId>> {
    if RetryRoot(c) !in db.memorials then RetryFresh(db, c, now)
    else if !RetryStored(db, c) then Raised(Conflict)
    else Committed(db, db.outbox[RetryEventOf(c)].payload.reset)
  }

  method RetryDagRun(storage: Storage, c: DagRetryCommand, now: Time) returns (r: Option<set<NodeId>>)
    requires OneFirst(storage.db)
    modifies storage
    ensures var o := RetryDag(old(storage.db), c, now);
            && storage.db == o.After(old(storage.db))
            && r == if o.Committed? then Some(o.value) else None
  {
    var db := storage.db;
    if RetryRoot(c) in db.memorials {
      if !RetryStored(db, c) { return None; }
      return Some(db.outbox[RetryEventOf(c)].payload.reset);
    }
    if !Retriable(db, c.dag) { return None; }
    var dag := db.dags[c.dag];
    if !TargetsKnown(db, c) { return None; }
    var reset := ComputeReset(dag.rows, Targets(dag.rows, c));
    var row, event := RetryRow(db, c, now), RetryEvent(db, c, reset);
    if !OneRowEach(dag.rows, reset) { return None; }
    db := SetMemorial(Claimed(db, c, reset), RetryRoot(c), row);
    var o := Enqueue(db, RetryRoot(c), now, db.edicts[dag.edict].retryLimit + 1, RetryAttemptOf(c));
    if o.Raised? { return None; }
    if RetryEventOf(c) in o.db.outbox { return None; }
    storage.db := Post(o.db, RetryEventOf(c), event);
    return Some(reset);
  }

  // ---------------------------------------------------------------- what a claim does

  ghost function ResetBy(db: Db, c: DagRetryCommand): set<NodeId>
    requires c.dag in db.dags
  {
    ResetSet(db.dags[c.dag].rows, Targets(db.dags[c.dag].rows, c))
  }

  ghost predicate CanClaim(db: Db, c: DagRetryCommand) {
    && Retriable(db, c.dag) && TargetsKnown(db, c) && RetryRoot(c) !in db.memorials
    && RetryAttemptOf(c) !in db.attempts && RetryEventOf(c) !in db.outbox
    && 0 < db.edicts[db.dags[c.dag].edict].retryLimit + 1
  }

  ghost function Reborn(db: Db, c: DagRetryCommand, now: Time): Db
    requires CanClaim(db, c)
  {
    Rebirth(db, RetryRoot(c), RetryRow(db, c, now), RetryAttemptOf(c),
            Initial(RetryRoot(c), now, db.edicts[db.dags[c.dag].edict].retryLimit + 1),
            ClaimedDag(db, c, ResetBy(db, c)))
  }

  /** The whole effect of a claim. */
  ghost predicate Claims(db: Db, next: Db, c: DagRetryCommand, now: Time) {
    && CanClaim(db, c)
    && next == Post(Reborn(db, c, now), RetryEventOf(c), RetryEvent(db, c, ResetBy(db, c)))
  }

  lemma RetryFreshMeans(db: Db, c: DagRetryCommand, now: Time)
    requires AttemptsWell(db.memorials, db.attempts) && RetryRoot(c) !in db.memorials && RetryFresh(db, c, now).Committed?
    ensures Claims(db, RetryFresh(db, c, now).db, c, now) && RetryFresh(db, c, now).value == ResetBy(db, c)
  {
    var d := db.dags[c.dag];
    FreshRootWorks(Claimed(db, c, ResetBy(db, c)), RetryRoot(c), RetryRow(db, c, now), now,
                   db.edicts[d.edict].retryLimit + 1, RetryAttemptOf(c));
  }

  lemma ClaimIsRebirth(db: Db, c: DagRetryCommand, now: Time)
    requires CanClaim(db, c)
    ensures Newborn(db, RetryRoot(c), RetryRow(db, c, now), RetryAttemptOf(c),
                    Initial(RetryRoot(c), now, db.edicts[db.dags[c.dag].edict].retryLimit + 1))
    ensures Rebinds(db, RetryRoot(c), RetryRow(db, c, now), ClaimedDag(db, c, ResetBy(db, c)))
    ensures Announceable(Reborn(db, c, now).attempts, Reborn(db, c, now).outbox, RetryEventOf(c),
                         RetryEvent(db, c, ResetBy(db, c)))
  {
  }

  lemma ClaimsKeeps(db: Db, next: Db, c: DagRetryCommand, now: Time)
    requires Inv(db) && Claims(db, next, c, now)
    ensures Keeps(db, next)
  {
    ClaimIsRebirth(db, c, now);
    RebirthKeeps(db, RetryRoot(c), RetryRow(db, c, now), RetryAttemptOf(c),
                 Initial(RetryRoot(c), now, db.edicts[db.dags[c.dag].edict].retryLimit + 1),
                 ClaimedDag(db, c, ResetBy(db, c)));
    AnnouncesKeeps(Reborn(db, c, now), RetryEventOf(c), RetryEvent(db, c, ResetBy(db, c)));
    KeepsTransitive(db, Reborn(db, c, now), next);
  }

  lemma RetryDagKeeps(db: Db, c: DagRetryCommand, now: Time)
    requires Inv(db)
    ensures Keeps(db, RetryDag(db, c, now).After(db))
  {
    if RetryRoot(c) !in db.memorials && RetryFresh(db, c, now).Committed? {
      RetryFreshMeans(db, c, now);
      ClaimsKeeps(db, RetryFresh(db, c, now).db, c, now);
    } else {
      KeepsSame(db);
    }
  }

  // ---------------------------------------------------------------- write-once, and one claim per generation

  /** Whatever happens after a claim, its key stays bound to its root, attempt and reset set: the same command
      returns the first reset set and changes nothing, another one under the key is refused. */
  lemma RetryIsWriteOnce(db: Db, c: DagRetryCommand, now: Time, later: Db, c': DagRetryCommand, now': Time)
    requires Inv(db) && RetryRoot(c) !in db.memorials && RetryDag(db, c, now).Committed?
    requires Advances(RetryDag(db, c, now).db, later)
    requires c'.dag == c.dag && c'.key == c.key
    ensures c.dag in db.dags
    ensures if c' == c then RetryDag(later, c', now') == Committed(later, ResetBy(db, c))
            else RetryDag(later, c', now').Raised?
  {
    RetryFreshMeans(db, c, now);
    ClaimsStored(db, RetryDag(db, c, now).db, c, now);
    StoredStays(RetryDag(db, c, now).db, later, c, ResetBy(db, c));
  }

  predicate StoredWith(db: Db, c: DagRetryCommand, reset: set<NodeId>) {
    RetryRoot(c) in db.memorials && RetryStored(db, c) && db.outbox[RetryEventOf(c)].payload.reset == reset
  }

  lemma ClaimsStored(db: Db, next: Db, c: DagRetryCommand, now: Time)
    requires Claims(db, next, c, now)
    ensures StoredWith(next, c, ResetBy(db, c))
  {
  }

  lemma StoredStays(db: Db, later: Db, c: DagRetryCommand, reset: set<NodeId>)
    requires StoredWith(db, c, reset) && Advances(db, later)
    ensures StoredWith(later, c, reset)
  {
    assert AttemptAdvances(db.attempts[RetryAttemptOf(c)], later.attempts[RetryAttemptOf(c)]);
  }

  /** Of any number of retries of one generation of a DAG, under whatever keys, at most one has claimed it: the
      parent of a retry root is the root the DAG was bound to when it was claimed. */
  lemma OneClaimPerGeneration(db: Db, c: DagRetryCommand, c': DagRetryCommand)
    requires Inv(db) && c.dag == c'.dag
    requires RetryRoot(c) in db.memorials && RetryRoot(c') in db.memorials
    requires db.memorials[RetryRoot(c)].parent == db.memorials[RetryRoot(c')].parent
    ensures c.key == c'.key
  {
  }

  /** The loser of two retries of one generation is refused as long as the winner's root is active. */
  lemma SecondKeyLoses(db: Db, c: DagRetryCommand, now: Time, later: Db, c': DagRetryCommand, now': Time)
    requires Inv(db) && RetryRoot(c) !in db.memorials && RetryDag(db, c, now).Committed? && c'.dag == c.dag
    requires Advances(RetryDag(db, c, now).db, later) && later.dags[c.dag].root == RetryDag(db, c, now).db.dags[c.dag].root
    requires RetryRoot(c') !in later.memorials && ActiveRoot(later, RetryRoot(c))
    ensures RetryDag(later, c', now').Raised?
  {
    RetryFreshMeans(db, c, now);
  }

  // ---------------------------------------------------------------- the whole answer of a first retry

  /** The nodes the retry starts from: those the caller names, or else all failed ones. */
  ghost function StartsFrom(rows: seq<DagNode>, c: DagRetryCommand): set<NodeId> {
    match c.fromNodes
    case Some(nodes) => nodes
    case None => set i | 0 <= i < |rows| && rows[i].status == NodeFailed :: rows[i].id
  }

  lemma TargetsAre(rows: seq<DagNode>, c: DagRetryCommand)
    ensures Targets(rows, c) == StartsFrom(rows, c)
  {
  }

  /** The DAG and the root it is bound to have ended badly, there are nodes to start from, all of them known, and no
      node to be reset has two rows. */
  ghost predicate MayRetry(db: Db, c: DagRetryCommand) {
    && c.dag in db.dags
    && var d := db.dags[c.dag];
       && d.edict in db.edicts && (d.status == DagFailed || d.status == DagCancelled)
       && d.root in db.memorials && db.memorials[d.root].isRoot && db.memorials[d.root].edict == d.edict
       && (db.memorials[d.root].status == Failed || db.memorials[d.root].status == Cancelled)
       && StartsFrom(d.rows, c) != {}
       && (forall n :: n in StartsFrom(d.rows, c) ==> HasRow(d.rows, n))
       && (forall i, j :: 0 <= i < j < |d.rows| && d.rows[i].id == d.rows[j].id ==>
             !Reaches(d.rows, StartsFrom(d.rows, c), d.rows[i].id))
  }

  lemma OneRowIff(rows: seq<DagNode>, targets: set<NodeId>)
    ensures OneRowEach(rows, ResetSet(rows, targets)) <==>
              forall i, j :: 0 <= i < j < |rows| && rows[i].id == rows[j].id ==> !Reaches(rows, targets, rows[i].id)
  {
    forall n ensures n in ResetSet(rows, targets) <==> Reaches(rows, targets, n) {
      ResetIffPath(rows, targets, n);
    }
  }

  ghost predicate HasRow(rows: seq<DagNode>, n: NodeId) {
    exists i :: 0 <= i < |rows| && rows[i].id == n
  }

  lemma KnownIff(rows: seq<DagNode>, nodes: set<NodeId>)
    ensures (forall n :: n in nodes ==> n in Ids(rows)) <==> forall n :: n in nodes ==> HasRow(rows, n)
  {
  }

  lemma MayRetryIff(db: Db, c: DagRetryCommand)
    ensures MayRetry(db, c) <==>
              Retriable(db, c.dag) && TargetsKnown(db, c) && OneRowEach(db.dags[c.dag].rows, ResetBy(db, c))
  {
    if c.dag in db.dags {
      TargetsAre(db.dags[c.dag].rows, c);
      OneRowIff(db.dags[c.dag].rows, StartsFrom(db.dags[c.dag].rows, c));
      KnownIff(db.dags[c.dag].rows, StartsFrom(db.dags[c.dag].rows, c));
    }
  }

  /** The first retry under a key commits if and only if the DAG may be retried, the edict has a budget and the
      identities are free. */
  lemma RetryCommitsIff(db: Db, c: DagRetryCommand, now: Time)
    requires Inv(db) && RetryRoot(c) !in db.memorials
    ensures RetryDag(db, c, now).Committed? <==>
              && MayRetry(db, c) && 0 <= db.edicts[db.dags[c.dag].edict].retryLimit
              && DagRetryAttempt(c.dag, c.key) !in db.attempts && DagRetryEvent(c.dag, c.key) !in db.outbox
  {
    MayRetryIff(db, c);
    FreshCommitsIff(db, c, now);
  }

  lemma FreshCommitsIff(db: Db, c: DagRetryCommand, now: Time)
    requires AttemptsWell(db.memorials, db.attempts) && RetryRoot(c) !in db.memorials
    ensures RetryFresh(db, c, now).Committed? <==>
              && Retriable(db, c.dag) && TargetsKnown(db, c) && OneRowEach(db.dags[c.dag].rows, ResetBy(db, c))
              && 0 < db.edicts[db.dags[c.dag].edict].retryLimit + 1
              && RetryAttemptOf(c) !in db.attempts && RetryEventOf(c) !in db.outbox
  {
    if Retriable(db, c.dag) && TargetsKnown(db, c) {
      FreshRootWorks(Claimed(db, c, ResetBy(db, c)), RetryRoot(c), RetryRow(db, c, now), now,
                     db.edicts[db.dags[c.dag].edict].retryLimit + 1, RetryAttemptOf(c));
    }
  }

  /** All that it writes: a root of the next generation with the old one as parent and its instruction, its first
      attempt due now, the event that holds the reset nodes, and the DAG bound to the new root. */
  lemma RetryWrites(db: Db, c: DagRetryCommand, now: Time)
    requires Inv(db) && RetryRoot(c) !in db.memorials && RetryDag(db, c, now).Committed?
    ensures c.dag in db.dags && db.dags[c.dag].root in db.memorials && db.dags[c.dag].edict in db.edicts
    ensures var o, d, m := RetryDag(db, c, now), db.dags[c.dag], DagRetryRoot(c.dag, c.key);
            var parent := db.memorials[d.root];
            && c.dag in o.db.dags && o.db.dags[c.dag] == Dag(d.edict, DagPending, m, o.db.dags[c.dag].rows)
            && 0 <= db.edicts[d.edict].retryLimit
            && o.db == db.(
                 memorials := db.memorials[m := Memorial(d.edict, true, Submitted, parent.instruction, Some(d.root), now,
                                                         parent.generation + 1, None)],
                 attempts := db.attempts[DagRetryAttempt(c.dag, c.key) :=
                                           Attempt(m, 1, Claimable, None, 0, now, db.edicts[d.edict].retryLimit + 1, 1)],
                 outbox := db.outbox[DagRetryEvent(c.dag, c.key) :=
                                       Event(DagRetryRequested, d.edict, m, DagRetryPayload(c, o.value))],
                 dags := db.dags[c.dag := o.db.dags[c.dag]])
  {
    RetryFreshMeans(db, c, now);
  }

  /** The nodes it resets are exactly those from which a path of failed or cancelled nodes leads to a node it starts
      from; their rows are pending, all other rows as they were. */
  lemma ClaimResets(db: Db, c: DagRetryCommand, now: Time, i: nat)
    requires Inv(db) && RetryRoot(c) !in db.memorials && RetryDag(db, c, now).Committed?
    requires c.dag in db.dags && i < |db.dags[c.dag].rows|
    ensures var o, rows := RetryDag(db, c, now), db.dags[c.dag].rows;
            && c.dag in o.db.dags && |o.db.dags[c.dag].rows| == |rows|
            && (rows[i].id in o.value <==> Reaches(rows, StartsFrom(rows, c), rows[i].id))
            && o.db.dags[c.dag].rows[i] == if rows[i].id in o.value then rows[i].(status := NodePending) else rows[i]
  {
    RetryFreshMeans(db, c, now);
    TargetsAre(db.dags[c.dag].rows, c);
    ResetIffPath(db.dags[c.dag].rows, StartsFrom(db.dags[c.dag].rows, c), db.dags[c.dag].rows[i].id);
  }

  /** A retry whose root is there commits if and only if its attempt and the event of this very command are; it returns
      the reset nodes stored with the event and changes nothing. */
  lemma RetryReplays(db: Db, c: DagRetryCommand, now: Time)
    requires RetryRoot(c) in db.memorials
    ensures var o, m, a, e := RetryDag(db, c, now), DagRetryRoot(c.dag, c.key), DagRetryAttempt(c.dag, c.key),
                              DagRetryEvent(c.dag, c.key);
            && (o.Committed? <==>
                  && a in db.attempts && db.attempts[a].memorial == m
                  && e in db.outbox && db.outbox[e].payload.DagRetryPayload? && db.outbox[e].payload.request == c)
            && (o.Committed? ==> o == Committed(db, db.outbox[e].payload.reset))
  {
  }

  lemma ClaimsRoots(db: Db, next: Db, c: DagRetryCommand, now: Time)
    requires Claims(db, next, c, now)
    ensures next.memorials == db.memorials[RetryRoot(c) := RetryRow(db, c, now)]
    ensures next.edicts == db.edicts && next.jobs == db.jobs && next.fires == db.fires && next.submissions == db.submissions
  {
  }
}
