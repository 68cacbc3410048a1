/** The fires of a periodic job, over whole runs of the protocol. */
module TimerChain {
  import opened Durable
  import opened Invariant
  import opened Protocol
  import opened ScheduledRuns

  /** How a job is timed: its own row and its edict's schedule. */
  datatype Clock = Clock(cron: CronNext, job: JobTiming, timing: Timing)

  function Tick(k: Clock, at: Time): Option<Time> {
    var derived := Derive(k.cron, k.job, k.timing, at);
    if derived.NextAt? then derived.at else None
  }

  /** The n-th time after `start`, if the clock gets there. */
  function Iter(k: Clock, start: Time, n: nat): Option<Time> {
    if n == 0 then Some(start)
    else
      var before := Iter(k, start, n - 1);
      if before.None? then None else Tick(k, before.value)
  }

  /** The clock of job `j` in this database. */
  predicate Runs(db: Db, j: JobId, k: Clock) {
    && j in db.jobs && db.jobs[j].timing == k.job && !OneShot(k.timing)
    && db.jobs[j].edict in db.edicts && db.edicts[db.jobs[j].edict].schedule.timing == k.timing
  }

  ghost predicate IsTick(k: Clock, start: Time, n: nat, at: Time) {
    exists i: nat :: i < n && Iter(k, start, i) == Some(at)
  }

  /** The timer fires of the job are exactly the first `n` times of its clock, and the cursor is the next one. */
  ghost predicate Chain(db: Db, j: JobId, k: Clock, start: Time, n: nat) {
    && Runs(db, j, k)
    && Iter(k, start, n).Some? && db.jobs[j].cursor == Iter(k, start, n)
    && forall at :: TimerFire(j, at) in db.fires <==> IsTick(k, start, n, at)
  }

  // ---------------------------------------------------------------- one step

  lemma TickAfter(db: Db, c: FireCommand, k: Clock)
    requires Serviceable(db, c.job) && Runs(db, c.job, k) && CursorAfter(db, k.cron, c).NextAt?
    ensures Tick(k, c.at).Some? && CursorAfter(db, k.cron, c).at == Tick(k, c.at)
  {
  }

  lemma OneMoreTick(k: Clock, start: Time, n: nat, at: Time)
    requires Iter(k, start, n).Some?
    ensures IsTick(k, start, n + 1, at) <==> IsTick(k, start, n, at) || at == Iter(k, start, n).value
  {
  }

  /** A recorded fire of the job is at the cursor and makes the chain one longer. */
  lemma FireExtends(db: Db, c: FireCommand, k: Clock, start: Time, n: nat)
    requires Inv(db) && Chain(db, c.job, k, start, n)
    requires Prepare(db, k.cron, c).Committed? && TimerFire(c.job, c.at) !in db.fires
    ensures Some(c.at) == Iter(k, start, n)
    ensures Chain(Prepare(db, k.cron, c).db, c.job, k, start, n + 1)
  {
    PrepareFires(db, k.cron, c);
    var next, cursor := Prepare(db, k.cron, c).db, CursorAfter(db, k.cron, c).at;
    FiresTimers(db, next, c, cursor);
    TickAfter(db, c, k);
    forall at ensures TimerFire(c.job, at) in next.fires <==> IsTick(k, start, n + 1, at) {
      OneMoreTick(k, start, n, at);
    }
  }

  /** A step that leaves this job's row and timer fires and its edict's timing alone keeps the chain. */
  ghost predicate Untouched(db: Db, next: Db, j: JobId, k: Clock) {
    && Runs(next, j, k) && j in db.jobs && next.jobs[j].cursor == db.jobs[j].cursor
    && forall at :: TimerFire(j, at) in next.fires <==> TimerFire(j, at) in db.fires
  }

  lemma UntouchedKeepsChain(db: Db, next: Db, j: JobId, k: Clock, start: Time, n: nat)
    requires Chain(db, j, k, start, n) && Untouched(db, next, j, k)
    ensures Chain(next, j, k, start, n)
  {
  }

  /** Fires of other jobs leave it alone. */
  lemma OtherFires(db: Db, c: FireCommand, j: JobId, k: Clock)
    requires Inv(db) && Runs(db, j, k) && c.job != j
    ensures Untouched(db, Prepare(db, k.cron, c).After(db), j, k)
  {
    if Prepare(db, k.cron, c).Committed? && TimerFire(c.job, c.at) !in db.fires {
      PrepareFires(db, k.cron, c);
      FiresTimers(db, Prepare(db, k.cron, c).db, c, CursorAfter(db, k.cron, c).at);
    }
  }

  /** Manual fires never move a cursor, not even their own job's. */
  lemma ManualFiresLeaveTimers(db: Db, c: ManualCommand, j: JobId, k: Clock)
    requires Inv(db) && Runs(db, j, k)
    ensures Untouched(db, PrepareManual(db, c).After(db), j, k)
  {
    if PrepareManual(db, c).Committed? && ManualFire(c.job, c.key) !in db.fires {
      ManualFires(db, c);
      ManualTimers(db, PrepareManual(db, c).db, c);
    }
  }

  /** The step records a timer fire of job `j`. */
  predicate RecordsFire(db: Db, s: Step, next: Db, j: JobId) {
    && s.Fires? && s.fire.job == j
    && TimerFire(j, s.fire.at) !in db.fires && TimerFire(j, s.fire.at) in next.fires
  }

  lemma StepKeepsChain(db: Db, s: Step, j: JobId, k: Clock, start: Time, n: nat)
    requires Inv(db) && Enabled(db, s) && Chain(db, j, k, start, n)
    requires s.Foreign? ==> Untouched(db, s.after, j, k)
    ensures var next := Next(db, k.cron, s);
            Chain(next, j, k, start, if RecordsFire(db, s, next, j) then n + 1 else n)
  {
    var next := Next(db, k.cron, s);
    if s.Fires? {
      FireKeepsChain(db, s.fire, j, k, start, n);
    } else {
      if s.FiresManually? {
        ManualFiresLeaveTimers(db, s.manual, j, k);
      } else if !s.Foreign? {
        OthersKeepTimers(db, k.cron, s);
        KeptIsUntouched(db, next, j, k);
      }
      UntouchedKeepsChain(db, next, j, k, start, n);
    }
  }

  lemma KeptIsUntouched(db: Db, next: Db, j: JobId, k: Clock)
    requires TimersKept(db, next) && Runs(db, j, k)
    ensures Untouched(db, next, j, k)
  {
  }

  lemma FireKeepsChain(db: Db, c: FireCommand, j: JobId, k: Clock, start: Time, n: nat)
    requires Inv(db) && Chain(db, j, k, start, n)
    ensures var next := Prepare(db, k.cron, c).After(db);
            var recorded := c.job == j && TimerFire(j, c.at) !in db.fires && TimerFire(j, c.at) in next.fires;
            Chain(next, j, k, start, if recorded then n + 1 else n)
  {
    var next := Prepare(db, k.cron, c).After(db);
    if c.job != j {
      OtherFires(db, c, j, k);
      UntouchedKeepsChain(db, next, j, k, start, n);
    } else if Prepare(db, k.cron, c).Committed? && TimerFire(j, c.at) !in db.fires {
      FireExtends(db, c, k, start, n);
      OneMoreTick(k, start, n, c.at);
    }
  }

  // ---------------------------------------------------------------- whole runs

  /** How many fires of job `j` the steps from `i` to `e` record. */
  ghost function Recorded(dbs: seq<Db>, steps: seq<Step>, j: JobId, i: nat, e: nat): nat
    requires |dbs| == |steps| + 1 && i <= e <= |steps|
    decreases e - i
  {
    if i == e then 0
    else Recorded(dbs, steps, j, i, e - 1) + (if RecordsFire(dbs[e - 1], steps[e - 1], dbs[e], j) then 1 else 0)
  }

  /** No foreign writer edits the job, its fires or its edict's timing between `i` and `e`. */
  ghost predicate NoEdits(dbs: seq<Db>, steps: seq<Step>, j: JobId, k: Clock, i: nat, e: nat)
    requires |dbs| == |steps| + 1 && i <= e <= |steps|
  {
    forall x :: i <= x < e && steps[x].Foreign? ==> Untouched(dbs[x], steps[x].after, j, k)
  }

  /** The timer fires of a job form an unbroken chain over any run: each recorded fire, prepared or skipped, is one
      more time of the clock and moves the cursor by exactly that one; nothing else moves it. */
  lemma {:induction false} ChainOverRuns(
    dbs: seq<Db>, steps: seq<Step>, j: JobId, k: Clock, start: Time, i: nat, e: nat, n: nat)
    requires Run(k.cron, dbs, steps) && i <= e <= |steps| && NoEdits(dbs, steps, j, k, i, e)
    requires Chain(dbs[i], j, k, start, n)
    ensures Chain(dbs[e], j, k, start, n + Recorded(dbs, steps, j, i, e))
    decreases e - i
  {
    if i < e {
      ChainOverRuns(dbs, steps, j, k, start, i, e - 1, n);
      ChainStep(dbs, steps, j, k, start, e - 1, n + Recorded(dbs, steps, j, i, e - 1));
    }
  }

  lemma ChainStep(dbs: seq<Db>, steps: seq<Step>, j: JobId, k: Clock, start: Time, i: nat, n: nat)
    requires Run(k.cron, dbs, steps) && i < |steps| && Chain(dbs[i], j, k, start, n)
    requires steps[i].Foreign? ==> Untouched(dbs[i], steps[i].after, j, k)
    ensures Chain(dbs[i + 1], j, k, start, if RecordsFire(dbs[i], steps[i], dbs[i + 1], j) then n + 1 else n)
  {
    RunInv(k.cron, dbs, steps, i);
    assert StepAt(k.cron, dbs, steps, i);
    StepKeepsChain(dbs[i], steps[i], j, k, start, n);
  }

  /** The times of an interval clock. */
  lemma {:induction false} IntervalIter(k: Clock, seconds: int, start: Time, n: nat)
    requires 0 < seconds && k.job == IntervalJob(Some(seconds)) && k.timing == Interval(Some(seconds))
    ensures Iter(k, start, n) == Some(start + n * seconds)
  {
    if n > 0 {
      IntervalIter(k, seconds, start, n - 1);
    }
  }

  /** A cron clock goes forward if its expression does; an interval clock always does. */
  ghost predicate Forward(k: Clock) {
    k.timing.Cron? ==> Increasing(k.cron)
  }

  lemma TickIncreases(k: Clock, at: Time)
    requires Forward(k) && !OneShot(k.timing) && Tick(k, at).Some?
    ensures at < Tick(k, at).value
  {
    match k.timing
    case Cron(_, zone) =>
      CronIncreases(k.cron, k.job.expr.value, zone, at);
    case _ =>
  }

  lemma CronIncreases(cron: CronNext, expr: CronExpr, zone: Zone, at: Time)
    requires Increasing(cron) && cron(expr, zone, at).Some?
    ensures at < cron(expr, zone, at).value
  {
  }

  lemma {:induction false} IterIncreases(k: Clock, start: Time, i: nat, n: nat)
    requires Forward(k) && !OneShot(k.timing) && i < n && Iter(k, start, n).Some?
    ensures Iter(k, start, i).Some? && Iter(k, start, i).value < Iter(k, start, n).value
    decreases n
  {
    var at := Iter(k, start, n - 1);
    assert at.Some? && Tick(k, at.value) == Iter(k, start, n);
    TickIncreases(k, at.value);
    if i < n - 1 {
      IterIncreases(k, start, i, n - 1);
    }
  }

  ghost function Times(k: Clock, start: Time, n: nat): set<Time>
    requires Iter(k, start, n).Some?
  {
    if n == 0 then {}
    else
      assert Iter(k, start, n - 1).Some?;
      Times(k, start, n - 1) + {Iter(k, start, n - 1).value}
  }

  lemma {:induction false} TimesAreTicks(k: Clock, start: Time, n: nat)
    requires Forward(k) && !OneShot(k.timing) && Iter(k, start, n).Some?
    ensures |Times(k, start, n)| == n
    ensures forall at :: at in Times(k, start, n) <==> IsTick(k, start, n, at)
  {
    if n > 0 {
      assert Iter(k, start, n - 1).Some?;
      TimesAreTicks(k, start, n - 1);
      forall at ensures at in Times(k, start, n) <==> IsTick(k, start, n, at) {
        OneMoreTick(k, start, n - 1, at);
      }
      if IsTick(k, start, n - 1, Iter(k, start, n - 1).value) {
        var i: nat :| i < n - 1 && Iter(k, start, i) == Iter(k, start, n - 1);
        IterIncreases(k, start, i, n - 1);
      }
    }
  }

  /** The recorded timer fires of a job. */
  function FireTimes(db: Db, j: JobId): set<Time> {
    set f | f in db.fires && f.TimerFire? && f.job == j :: f.at
  }

  lemma ChainCounts(db: Db, j: JobId, k: Clock, start: Time, n: nat)
    requires Forward(k) && Chain(db, j, k, start, n)
    ensures |FireTimes(db, j)| == n
  {
    TimesAreTicks(k, start, n);
    forall at ensures at in FireTimes(db, j) <==> at in Times(k, start, n) {
      assert at in FireTimes(db, j) <==> TimerFire(j, at) in db.fires;
    }
    assert FireTimes(db, j) == Times(k, start, n);
  }

  /** An interval job that starts with an empty ledger: at any later point of any run its cursor is the start plus
      its recorded timer fires times the interval. */
  lemma IntervalCursor(dbs: seq<Db>, steps: seq<Step>, j: JobId, k: Clock, seconds: int, start: Time, i: nat, e: nat)
    requires Run(k.cron, dbs, steps) && i <= e <= |steps| && NoEdits(dbs, steps, j, k, i, e)
    requires 0 < seconds && k.job == IntervalJob(Some(seconds)) && k.timing == Interval(Some(seconds))
    requires Chain(dbs[i], j, k, start, 0)
    ensures j in dbs[e].jobs && dbs[e].jobs[j].cursor == Some(start + |FireTimes(dbs[e], j)| * seconds)
  {
    ChainOverRuns(dbs, steps, j, k, start, i, e, 0);
    var n := Recorded(dbs, steps, j, i, e);
    IntervalIter(k, seconds, start, n);
    ChainCounts(dbs[e], j, k, start, n);
  }
}
