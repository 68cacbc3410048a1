/** Stored projections and the routing of finished attempts: `application/run_execution.py`. */
module RunExecution {
  import opened Durable
  import opened Invariant
  import opened AttemptLedger
  import opened FencedCompletion

  datatype AttemptOutcome =
    | OutcomeSuspended
    | OutcomeRetry(retryAt: Time, ulid: Ulid)
    | OutcomeSucceeded
    | OutcomeFailed

  datatype Projected = Projected(output: Option<Text>)

  /** `is_suspended`: this very claim has already been suspended. */
  predicate AlreadySuspended(db: Db, auth: Authority) {
    && auth.attempt in db.attempts
    && db.attempts[auth.attempt].memorial == auth.memorial
    && db.attempts[auth.attempt].status.Suspended?
    && db.attempts[auth.attempt].token == auth.token
  }

  function CompletionOf(auth: Authority, o: AttemptOutcome, at: Time, p: Projected): Completion
    requires o.OutcomeSucceeded? || o.OutcomeFailed?
  {
    var d := if o.OutcomeSucceeded? then DispSucceeded else DispFailed;
    Completion(auth, d, StatusFor(d), p.output, at)
  }

  /** The completer: suspensions go to the ledger, retries and terminal results to the fenced services.  A success
      without a projection is answered with False; a failure without one gets an empty projection. */
  function Route(db: Db, auth: Authority, o: AttemptOutcome, at: Time, projection: Option<Projected>): Outcome<bool> {
    match o
    case OutcomeSuspended => if AlreadySuspended(db, auth) then Committed(db, true) else Suspend(db, auth, at)
    case OutcomeRetry(retryAt, ulid) => RetryOrDeadLetter(db, auth, at, retryAt, ulid)
    case _ =>
      if projection.None? && o.OutcomeSucceeded? then Committed(db, false)
      else
        var done := Complete(db, CompletionOf(auth, o, at, if projection.Some? then projection.value else Projected(None)));
        if done.Raised? then Raised(done.fault) else Committed(done.db, true)
  }

  function Stored(ps: map<ProjectionKey, Projected>, auth: Authority, p: Projected): map<ProjectionKey, Projected> {
    ps[KeyOf(auth) := p]
  }

  function Removed(ps: map<ProjectionKey, Projected>, auth: Authority): map<ProjectionKey, Projected> {
    ps - {KeyOf(auth)}
  }

  /** Projections the runner has stored, one per claim. */
  class Projections {
    var stored: map<ProjectionKey, Projected>

    constructor ()
      ensures stored == map[]
    {
      stored := map[];
    }

    method Store(auth: Authority, p: Projected)
      modifies this
      ensures stored == old(stored)[ProjectionKey(auth.attempt, auth.owner, auth.token) := p]
    {
      stored := stored[KeyOf(auth) := p];
    }

    /** `take_projection` pops: a second take finds nothing. */
    method Take(auth: Authority) returns (p: Option<Projected>)
      modifies this
      ensures var key := ProjectionKey(auth.attempt, auth.owner, auth.token);
              && p == (if key in old(stored) then Some(old(stored)[key]) else None)
              && stored == old(stored) - {key}
    {
      p := if KeyOf(auth) in stored then Some(stored[KeyOf(auth)]) else None;
      stored := stored - {KeyOf(auth)};
    }
  }

  /** The projection is taken for terminal results only, and before the fence is checked. */
  method CompleteAttempt(storage: Storage, projections: Projections, auth: Authority, o: AttemptOutcome, at: Time)
    returns (r: Option<bool>)
    modifies storage, projections
    ensures var p := if KeyOf(auth) in old(projections.stored) then Some(old(projections.stored)[KeyOf(auth)]) else None;
            var routed := Route(old(storage.db), auth, o, at, p);
            && storage.db == routed.After(old(storage.db))
            && r == if routed.Committed? then Some(routed.value) else None
    ensures projections.stored ==
              if o.OutcomeSucceeded? || o.OutcomeFailed? then Removed(old(projections.stored), auth) else old(projections.stored)
  {
    var db := storage.db;
    var routed;
    if o.OutcomeSuspended? || o.OutcomeRetry? {
      routed := Route(db, auth, o, at, None);
    } else {
      var p := projections.Take(auth);
      routed := Route(db, auth, o, at, p);
    }
    if routed.Raised? { return None; }
    storage.db := routed.db;
    return Some(routed.value);
  }

  /** Whatever its outcome, a finished attempt changes the database only under a current authority. */
  lemma RouteIsFenced(db: Db, auth: Authority, o: AttemptOutcome, at: Time, p: Option<Projected>)
    requires Route(db, auth, o, at, p).After(db) != db
    ensures Current(db, auth, at)
  {
  }

  lemma TerminalRouteKeeps(db: Db, auth: Authority, o: AttemptOutcome, at: Time, p: Option<Projected>)
    requires Inv(db) && (o.OutcomeSucceeded? || o.OutcomeFailed?)
    ensures Keeps(db, Route(db, auth, o, at, p).After(db))
  {
    if p.None? && o.OutcomeSucceeded? {
      KeepsSame(db);
    } else {
      CompleteKeeps(db, CompletionOf(auth, o, at, if p.Some? then p.value else Projected(None)));
    }
  }

  lemma RouteKeeps(db: Db, auth: Authority, o: AttemptOutcome, at: Time, p: Option<Projected>)
    requires Inv(db)
    ensures Conserves(db, Route(db, auth, o, at, p).After(db))
  {
    if o.OutcomeSucceeded? || o.OutcomeFailed? {
      TerminalRouteKeeps(db, auth, o, at, p);
    } else if o.OutcomeRetry? {
      RetryOrDeadLetterKeeps(db, auth, at, o.retryAt, o.ulid);
    } else if AlreadySuspended(db, auth) {
      KeepsSame(db);
    } else {
      SuspendConserves(db, auth, at);
    }
  }

  /** A suspension reported twice under one claim is one suspension. */
  lemma SuspensionReportedTwice(db: Db, auth: Authority, at: Time, again: Time)
    requires Current(db, auth, at) && db.attempts[auth.attempt].memorial == auth.memorial
    ensures var once := Route(db, auth, OutcomeSuspended, at, None);
            && once.Committed? && once.value
            && Route(once.db, auth, OutcomeSuspended, again, None) == Committed(once.db, true)
  {
  }

  /** A suspension is reported with success exactly by a current authority, or by one whose own claim is suspended. */
  lemma SuspensionAnswer(db: Db, auth: Authority, at: Time, p: Option<Projected>)
    ensures var o := Route(db, auth, OutcomeSuspended, at, p);
            && o.Committed?
            && (o.value <==>
                  || Current(db, auth, at)
                  || (auth.attempt in db.attempts && db.attempts[auth.attempt].memorial == auth.memorial
                      && db.attempts[auth.attempt].status == Suspended && db.attempts[auth.attempt].token == auth.token))
            && (o.value && Current(db, auth, at) ==> o.db.attempts[auth.attempt].status == Suspended)
            && (!Current(db, auth, at) ==> o.db == db)
  {
  }

  /** A result is delivered: a success needs its projection, both need a current authority of their own root and a
      closable RunState. */
  predicate Delivers(db: Db, auth: Authority, won: bool, at: Time, p: Option<Projected>)
    requires auth.memorial in db.memorials
  {
    && (won ==> p.Some?) && Current(db, auth, at)
    && db.attempts[auth.attempt].memorial == auth.memorial && Closable(db, auth.memorial)
  }

  /** The last result of a run finishes its root if and only if it is delivered: completed with the projected output, or
      failed with the projected output if there is one.  Otherwise the root is as it was. */
  lemma ResultFinishesRoot(db: Db, auth: Authority, won: bool, at: Time, p: Option<Projected>)
    requires Inv(db) && ActiveRoot(db, auth.memorial)
    ensures var o := Route(db, auth, if won then OutcomeSucceeded else OutcomeFailed, at, p);
            var root, next := db.memorials[auth.memorial], o.After(db);
            && (o.Committed? && o.value <==> Delivers(db, auth, won, at, p))
            && auth.memorial in next.memorials
            && next.memorials[auth.memorial] ==
                 if Delivers(db, auth, won, at, p)
                 then root.(status := if won then Completed else Failed,
                            output := if p.Some? && p.value.output.Some? then p.value.output else root.output)
                 else root
  {
    if won ==> p.Some? {
      var c := CompletionOf(auth, if won then OutcomeSucceeded else OutcomeFailed, at,
                            if p.Some? then p.value else Projected(None));
      CompleteCommits(db, c);
      if Complete(db, c).Committed? {
        CompleteProjects(db, c);
      }
    }
  }

  /** A root is completed by a success if and only if there is a projection, the authority is current and its own,
      and the RunState is closable. */
  lemma SuccessCompletesRoot(db: Db, auth: Authority, at: Time, p: Option<Projected>)
    requires Inv(db) && ActiveRoot(db, auth.memorial)
    ensures var next := Route(db, auth, OutcomeSucceeded, at, p).After(db);
            next.memorials[auth.memorial].status.Completed? <==>
              && p.Some? && Current(db, auth, at)
              && db.attempts[auth.attempt].memorial == auth.memorial && Closable(db, auth.memorial)
  {
    ResultFinishesRoot(db, auth, true, at, p);
  }

  /** A retry is routed with its own time: within the budget the next attempt is due then. */
  lemma RetryAnswer(db: Db, auth: Authority, at: Time, retryAt: Time, ulid: Ulid, p: Option<Projected>)
    requires Inv(db) && Current(db, auth, at) && db.attempts[auth.attempt].memorial == auth.memorial
    requires db.attempts[auth.attempt].no < db.attempts[auth.attempt].maxAttempts && RetryAttempt(ulid) !in db.attempts
    ensures var o := Route(db, auth, OutcomeRetry(retryAt, ulid), at, p);
            && (o.Committed? <==> at <= retryAt)
            && (o.Committed? ==> RetryAttempt(ulid) in o.db.attempts
                                 && o.db.attempts[RetryAttempt(ulid)].availableAt == retryAt)
  {
    RetryCommits(db, auth, at, retryAt, ulid);
    if at <= retryAt {
      RetryEnqueuesNext(db, auth, at, retryAt, ulid);
    }
  }
}
