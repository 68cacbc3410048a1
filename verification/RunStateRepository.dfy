/** Compare-and-swap writes of RunStates: `storage/run_state_repo.py`. */
module RunStateRepository {
  import opened Durable
  import opened Invariant

  function Saved(s: RunState): RunState {
    s.(version := s.version + 1)
  }

  /** The checks of `compare_and_swap`: the candidate carries the version it was read at. */
  predicate Swappable(db: Db, m: MemorialId, candidate: RunState) {
    && DecisionBound(candidate)
    && m in db.runStates && db.runStates[m].Decoded?
    && db.runStates[m].state.edict == candidate.edict
    && m in db.memorials && db.memorials[m].edict == candidate.edict
    && db.runStates[m].state.updatedAt <= candidate.updatedAt
    && db.runStates[m].state.version == candidate.version
  }

  /** The checks of `recover_terminal_identity`: a failed state of another edict is rebound to its Memorial's. */
  predicate Recoverable(db: Db, m: MemorialId, candidate: RunState) {
    && candidate.phase == PhaseFailed && DecisionBound(candidate)
    && m in db.runStates && db.runStates[m].Decoded?
    && db.runStates[m].state.version == candidate.version
    && db.runStates[m].state.edict != candidate.edict
    && m in db.memorials && db.memorials[m].edict == candidate.edict
    && db.runStates[m].state.updatedAt <= candidate.updatedAt
  }

  /** The write that follows either check. */
  function Swap(db: Db, m: MemorialId, candidate: RunState): Db {
    SetState(db, m, Decoded(Saved(candidate)))
  }

  lemma SwapKeeps(db: Db, m: MemorialId, candidate: RunState)
    requires Inv(db) && (Swappable(db, m, candidate) || Recoverable(db, m, candidate))
    requires RowMatches(db.runStates[m], db.memorials[m]) ==> RowMatches(Decoded(Saved(candidate)), db.memorials[m])
    requires db.runStates[m].state.cursor <= candidate.cursor
    requires Open(Decoded(candidate)) ==> Open(db.runStates[m])
    requires candidate.pending.Some? ==> candidate.pending == db.runStates[m].state.pending
    requires forall d :: Names(Decoded(candidate), d) ==> Names(db.runStates[m], d)
    ensures Keeps(db, Swap(db, m, candidate))
  {
    assert RowAdvances(db.runStates[m], Decoded(Saved(candidate)));
    RewritesKeeps(db, m, Decoded(Saved(candidate)));
  }
}
