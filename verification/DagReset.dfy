/** The nodes a DAG retry resets: the fixpoint loop of `ManagedRunIngress.retry_dag`. */
module DagReset {
  import opened Durable

  predicate Retryable(s: NodeStatus) {
    s.NodeFailed? || s.NodeCancelled?
  }

  /** A failed or cancelled row of node `n` depends on node `d`. */
  ghost predicate Follows(rows: seq<DagNode>, n: NodeId, d: NodeId) {
    exists i :: && 0 <= i < |rows| && rows[i].id == n && d in rows[i].dependsOn
                && (rows[i].status == NodeFailed || rows[i].status == NodeCancelled)
  }

  /** A dependency path of failed or cancelled nodes from its first node to a target. */
  ghost predicate IsPath(rows: seq<DagNode>, targets: set<NodeId>, path: seq<NodeId>) {
    && path != []
    && path[|path| - 1] in targets
    && forall k :: 0 <= k < |path| - 1 ==> Follows(rows, path[k], path[k + 1])
  }

  ghost predicate PathFrom(rows: seq<DagNode>, targets: set<NodeId>, n: NodeId, path: seq<NodeId>) {
    IsPath(rows, targets, path) && path[0] == n
  }

  ghost predicate Reaches(rows: seq<DagNode>, targets: set<NodeId>, n: NodeId) {
    exists path :: PathFrom(rows, targets, n, path)
  }

  /** Every failed or cancelled node that depends on a member is a member. */
  ghost predicate ClosedSet(rows: seq<DagNode>, s: set<NodeId>) {
    forall n, d :: Follows(rows, n, d) && d in s ==> n in s
  }

  function Ids(rows: seq<DagNode>): set<NodeId> {
    set i | 0 <= i < |rows| :: rows[i].id
  }

  /** What the loop computes: the nodes from which a path leads to a target. */
  ghost function ResetSet(rows: seq<DagNode>, targets: set<NodeId>): set<NodeId> {
    set n | n in targets + Ids(rows) && Reaches(rows, targets, n)
  }

  lemma ReachesStep(rows: seq<DagNode>, targets: set<NodeId>, n: NodeId, d: NodeId)
    requires Follows(rows, n, d) && Reaches(rows, targets, d)
    ensures Reaches(rows, targets, n)
  {
    var path :| PathFrom(rows, targets, d, path);
    var longer := [n] + path;
    forall k | 0 <= k < |longer| - 1 ensures Follows(rows, longer[k], longer[k + 1]) {
      if k > 0 { assert Follows(rows, path[k - 1], path[k]); }
    }
    assert PathFrom(rows, targets, n, longer);
  }

  lemma TargetReaches(rows: seq<DagNode>, targets: set<NodeId>, n: NodeId)
    requires n in targets
    ensures Reaches(rows, targets, n)
  {
    assert PathFrom(rows, targets, n, [n]);
  }

  lemma {:induction false} PathInClosed(rows: seq<DagNode>, targets: set<NodeId>, s: set<NodeId>, path: seq<NodeId>)
    requires IsPath(rows, targets, path) && targets <= s && ClosedSet(rows, s)
    ensures path[0] in s
  {
    if |path| > 1 {
      assert Follows(rows, path[0], path[1]);
      var rest := path[1..];
      forall k | 0 <= k < |rest| - 1 ensures Follows(rows, rest[k], rest[k + 1]) {
        assert Follows(rows, path[k + 1], path[k + 2]);
      }
      PathInClosed(rows, targets, s, rest);
    }
  }

  /** The reset set is the least set that holds the targets and is closed. */
  lemma ResetSetIsLeast(rows: seq<DagNode>, targets: set<NodeId>)
    ensures targets <= ResetSet(rows, targets) <= targets + Ids(rows)
    ensures ClosedSet(rows, ResetSet(rows, targets))
    ensures forall s :: targets <= s && ClosedSet(rows, s) ==> ResetSet(rows, targets) <= s
  {
    forall n | n in targets ensures n in ResetSet(rows, targets) {
      TargetReaches(rows, targets, n);
    }
    forall n, d | Follows(rows, n, d) && d in ResetSet(rows, targets) ensures n in ResetSet(rows, targets) {
      ReachesStep(rows, targets, n, d);
    }
    forall s | targets <= s && ClosedSet(rows, s) ensures ResetSet(rows, targets) <= s {
      forall n | n in ResetSet(rows, targets) ensures n in s {
        var path :| PathFrom(rows, targets, n, path);
        PathInClosed(rows, targets, s, path);
      }
    }
  }

  /** A node is reset exactly when a dependency path of failed or cancelled nodes leads from it to a target. */
  lemma ResetIffPath(rows: seq<DagNode>, targets: set<NodeId>, n: NodeId)
    ensures n in ResetSet(rows, targets) <==> Reaches(rows, targets, n)
  {
    if Reaches(rows, targets, n) {
      var path :| PathFrom(rows, targets, n, path);
      if |path| > 1 { assert Follows(rows, path[0], path[1]); }
    }
  }

  /** Only the set of rows matters, not their order. */
  lemma ResetIgnoresOrder(rows: seq<DagNode>, rows': seq<DagNode>, targets: set<NodeId>)
    requires forall row :: row in rows <==> row in rows'
    ensures ResetSet(rows, targets) == ResetSet(rows', targets)
  {
    ResetMonotone(rows, rows', targets);
    ResetMonotone(rows', rows, targets);
  }

  lemma ResetMonotone(rows: seq<DagNode>, rows': seq<DagNode>, targets: set<NodeId>)
    requires forall row :: row in rows ==> row in rows'
    ensures ResetSet(rows, targets) <= ResetSet(rows', targets)
  {
    ResetSetIsLeast(rows, targets);
    ResetSetIsLeast(rows', targets);
    forall n, d | Follows(rows, n, d) ensures Follows(rows', n, d) {
      FollowsMore(rows, rows', n, d);
    }
    assert ClosedSet(rows, ResetSet(rows', targets));
  }

  lemma FollowsMore(rows: seq<DagNode>, rows': seq<DagNode>, n: NodeId, d: NodeId)
    requires (forall row :: row in rows ==> row in rows') && Follows(rows, n, d)
    ensures Follows(rows', n, d)
  {
    var i :| && 0 <= i < |rows| && rows[i].id == n && d in rows[i].dependsOn
             && (rows[i].status == NodeFailed || rows[i].status == NodeCancelled);
    assert rows[i] in rows';
  }

  ghost predicate UniqueIds(rows: seq<DagNode>) {
    forall i, j :: 0 <= i < j < |rows| ==> rows[i].id != rows[j].id
  }

  lemma ResetIsTargetOrRetryable(rows: seq<DagNode>, targets: set<NodeId>, n: NodeId)
    requires n in ResetSet(rows, targets) && n !in targets
    ensures exists i :: 0 <= i < |rows| && rows[i].id == n && Retryable(rows[i].status)
  {
    var path :| PathFrom(rows, targets, n, path);
    assert Follows(rows, path[0], path[1]);
  }

  /** A node that was not asked for and is neither failed nor cancelled is not reset. */
  lemma OthersAreNotReset(rows: seq<DagNode>, targets: set<NodeId>, i: nat)
    requires UniqueIds(rows) && i < |rows| && rows[i].id !in targets && !Retryable(rows[i].status)
    ensures rows[i].id !in ResetSet(rows, targets)
  {
    if rows[i].id in ResetSet(rows, targets) {
      ResetIsTargetOrRetryable(rows, targets, rows[i].id);
    }
  }

  // ---------------------------------------------------------------- the loop

  /** Between the targets and the reset set. */
  ghost predicate Sound(rows: seq<DagNode>, targets: set<NodeId>, s: set<NodeId>) {
    targets <= s <= ResetSet(rows, targets)
  }

  ghost predicate SettledUpTo(rows: seq<DagNode>, s: set<NodeId>, i: nat)
    requires i <= |rows|
  {
    forall k :: 0 <= k < i ==> rows[k].id in s || !Retryable(rows[k].status) || rows[k].dependsOn !! s
  }

  lemma StartIsSound(rows: seq<DagNode>, targets: set<NodeId>)
    ensures Sound(rows, targets, targets)
  {
    ResetSetIsLeast(rows, targets);
  }

  lemma AddIsSound(rows: seq<DagNode>, targets: set<NodeId>, s: set<NodeId>, i: nat)
    requires Sound(rows, targets, s) && i < |rows| && Retryable(rows[i].status) && !(rows[i].dependsOn !! s)
    ensures Sound(rows, targets, s + {rows[i].id})
  {
    ResetSetIsLeast(rows, targets);
    var d :| d in rows[i].dependsOn && d in s;
    assert Follows(rows, rows[i].id, d);
  }

  lemma SettledIsReset(rows: seq<DagNode>, targets: set<NodeId>, s: set<NodeId>)
    requires Sound(rows, targets, s) && SettledUpTo(rows, s, |rows|)
    ensures s == ResetSet(rows, targets)
  {
    ResetSetIsLeast(rows, targets);
    assert ClosedSet(rows, s);
  }

  ghost function Left(rows: seq<DagNode>, targets: set<NodeId>, s: set<NodeId>): nat {
    |ResetSet(rows, targets) - s|
  }

  lemma FewerLeft(rows: seq<DagNode>, targets: set<NodeId>, before: set<NodeId>, after: set<NodeId>)
    requires before <= after && Sound(rows, targets, after) && before != after
    ensures Left(rows, targets, after) < Left(rows, targets, before)
  {
    var all := ResetSet(rows, targets);
    assert all - before == (all - after) + (after - before);
    assert after - before != {};
  }

  /** The loop terminates and computes the reset set. */
  method ComputeReset(rows: seq<DagNode>, targets: set<NodeId>) returns (reset: set<NodeId>)
    ensures reset == ResetSet(rows, targets)
  {
    reset := targets;
    StartIsSound(rows, targets);
    var changed := true;
    while changed
      invariant Sound(rows, targets, reset)
      invariant !changed ==> SettledUpTo(rows, reset, |rows|)
      decreases Left(rows, targets, reset), changed
    {
      changed := false;
      ghost var before := reset;
      for i := 0 to |rows|
        invariant before <= reset && Sound(rows, targets, reset)
        invariant changed ==> reset != before
        invariant !changed ==> reset == before && SettledUpTo(rows, reset, i)
      {
        if rows[i].id !in reset && Retryable(rows[i].status) && !(rows[i].dependsOn !! reset) {
          AddIsSound(rows, targets, reset, i);
          reset := reset + {rows[i].id};
          changed := true;
        }
      }
      if changed {
        FewerLeft(rows, targets, before, reset);
      }
    }
    SettledIsReset(rows, targets, reset);
  }
}
