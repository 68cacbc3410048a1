/** Durable preparation of scheduled and manual fires: `application/scheduled_runs.py`. */
module ScheduledRuns {
  import opened Durable
  import opened Invariant
  import opened AttemptLedger

  /** The next time of a cron expression in a zone after a given time; `None` where the library refuses. */
  type CronNext = (CronExpr, Zone, Time) -> Option<Time>

  ghost predicate Increasing(cron: CronNext) {
    forall e, z, t :: cron(e, z, t).Some? ==> t < cron(e, z, t).value
  }

  datatype FireCommand = FireCommand(job: JobId, at: Time, initial: Option<MemorialId>, requested: Option<Time>)
  datatype ManualCommand = ManualCommand(job: JobId, key: Key, at: Time)

  datatype PreparedFire = PreparedFire(
    fire: FireId, edict: EdictId, at: Time, next: Option<Time>, status: FireStatus,
    memorial: Option<MemorialId>, attempt: Option<AttemptId>, deduplicated: bool)

  // ---------------------------------------------------------------- the next cursor

  predicate SameType(t: Timing, j: JobTiming) {
    || (t.Immediate? && j.ImmediateJob?) || (t.Once? && j.OnceJob?)
    || (t.Cron? && j.CronJob?) || (t.Interval? && j.IntervalJob?)
  }

  predicate OneShot(t: Timing) {
    t.Immediate? || t.Once?
  }

  datatype Derived = Refused | NextAt(at: Option<Time>)

  /** The time after `at`, whatever the caller asked for. */
  function Derive(cron: CronNext, j: JobTiming, t: Timing, at: Time): Derived {
    match t
    case Immediate => NextAt(None)
    case Once(time) => if time == Some(at) then NextAt(None) else Refused
    case Interval(seconds) =>
      if j.IntervalJob? && j.seconds.Some? && 0 < j.seconds.value && j.seconds == seconds
      then NextAt(Some(at + j.seconds.value)) else Refused
    case Cron(expr, zone) =>
      if j.CronJob? && j.expr.Some? && j.expr == expr && cron(j.expr.value, zone, at).Some?
      then NextAt(cron(j.expr.value, zone, at)) else Refused
  }

  /** `_next_cursor`: a requested next time must be the derived one. */
  function NextCursor(cron: CronNext, j: JobTiming, t: Timing, at: Time, requested: Option<Time>): Derived {
    var derived := Derive(cron, j, t, at);
    if derived.NextAt? && requested.Some? && requested != derived.at then Refused else derived
  }

  // ---------------------------------------------------------------- prepare

  predicate Serviceable(db: Db, j: JobId) {
    && j in db.jobs && db.jobs[j].edict in db.edicts
    && db.edicts[db.jobs[j].edict].open && !db.edicts[db.jobs[j].edict].archived
  }

  function EdictOf(db: Db, j: JobId): Edict
    requires Serviceable(db, j)
  {
    db.edicts[db.jobs[j].edict]
  }

  function CursorAfter(db: Db, cron: CronNext, c: FireCommand): Derived
    requires Serviceable(db, c.job)
  {
    if !SameType(EdictOf(db, c.job).schedule.timing, db.jobs[c.job].timing) then Refused
    else NextCursor(cron, db.jobs[c.job].timing, EdictOf(db, c.job).schedule.timing, c.at, c.requested)
  }

  /** `_fingerprint` */
  function Fingerprint(db: Db, c: FireCommand, next: Option<Time>, status: FireStatus): Envelope
    requires Serviceable(db, c.job)
  {
    TimerEnvelope(db.jobs[c.job].edict, db.jobs[c.job].timing, EdictOf(db, c.job).schedule, c.at, next, c.initial,
                  status, EdictOf(db, c.job).retryLimit + 1)
  }

  /** `_expected_memorial_id`: a one-shot job needs the submitted Memorial. */
  function ExpectedRoot(c: FireCommand, t: Timing): Option<MemorialId> {
    if c.initial.Some? then c.initial else if OneShot(t) then None else Some(FireRoot(c.job, c.at))
  }

  predicate HasFires(db: Db, j: JobId) {
    exists f :: f in db.fires && f.job == j
  }

  /** `_validate_initial_memorial`: the untouched Memorial of the job's own submission. */
  predicate ValidInitial(db: Db, j: JobId, m: MemorialId)
    requires Serviceable(db, j)
  {
    && m in db.memorials
    && var row, job := db.memorials[m], db.jobs[j];
       && row.edict == job.edict && row.instruction == EdictOf(db, j).goal && row.status.Submitted?
       && row.isRoot && row.parent.None?
       && job.submission in db.outbox
       && db.outbox[job.submission].kind.EdictSubmitted?
       && db.outbox[job.submission].edict == job.edict && db.outbox[job.submission].memorial == m
  }

  /** `_has_active_root` */
  predicate HasOtherActiveRoot(db: Db, edict: EdictId, excluded: Option<MemorialId>) {
    exists m :: m in db.memorials && ActiveRoot(db, m) && db.memorials[m].edict == edict && Some(m) != excluded
  }

  predicate Skips(db: Db, c: FireCommand)
    requires Serviceable(db, c.job)
  {
    && !OneShot(EdictOf(db, c.job).schedule.timing)
    && EdictOf(db, c.job).schedule.policy.Skip?
    && HasOtherActiveRoot(db, db.jobs[c.job].edict, c.initial)
  }

  predicate ReplayMatches(db: Db, c: FireCommand, next: Option<Time>)
    requires Serviceable(db, c.job) && TimerFire(c.job, c.at) in db.fires
  {
    var row := db.fires[TimerFire(c.job, c.at)];
    && row.edict == db.jobs[c.job].edict && row.startedAt == c.at
    && row.envelope == Fingerprint(db, c, next, row.status)
    && (row.status.FirePrepared? ==>
          && ExpectedRoot(c, EdictOf(db, c.job).schedule.timing).Some?
          && FireAttempt(c.job, c.at) in db.attempts
          && db.attempts[FireAttempt(c.job, c.at)].memorial == ExpectedRoot(c, EdictOf(db, c.job).schedule.timing).value
          && db.attempts[FireAttempt(c.job, c.at)].no == 1
          && db.attempts[FireAttempt(c.job, c.at)].maxAttempts == EdictOf(db, c.job).retryLimit + 1)
  }

  function FireResult(db: Db, c: FireCommand, next: Option<Time>, status: FireStatus, deduplicated: bool): PreparedFire
    requires Serviceable(db, c.job)
  {
    PreparedFire(
      TimerFire(c.job, c.at), db.jobs[c.job].edict, c.at, next, status,
      if status.FireSkipped? then None else ExpectedRoot(c, EdictOf(db, c.job).schedule.timing),
      if status.FireSkipped? then None else Some(FireAttempt(c.job, c.at)), deduplicated)
  }

  /** The cursor is at this fire, and a submitted Memorial is given only to the job's first fire. */
  predicate Due(db: Db, c: FireCommand)
    requires Serviceable(db, c.job)
  {
    && db.jobs[c.job].status.JobActive? && db.jobs[c.job].cursor == Some(c.at)
    && (c.initial.Some? ==> !HasFires(db, c.job) && ValidInitial(db, c.job, c.initial.value))
  }

  function FireRowFor(db: Db, c: FireCommand, next: Option<Time>, status: FireStatus): FireRow
    requires Serviceable(db, c.job)
  {
    FireRow(db.jobs[c.job].edict, status, c.at, Fingerprint(db, c, next, status))
  }

  function MovedJob(job: Job, t: Timing, next: Option<Time>): Job {
    if OneShot(t) then job.(cursor := None, status := JobCompleted) else job.(cursor := next)
  }

  /** The fire row is inserted and the cursor swapped. */
  function File(db: Db, f: FireId, row: FireRow, j: JobId, job: Job): Db {
    db.(fires := db.fires[f := row], jobs := db.jobs[j := job])
  }

  function ScheduledRoot(db: Db, j: JobId, at: Time): Memorial
    requires Serviceable(db, j)
  {
    Memorial(db.jobs[j].edict, true, Submitted, EdictOf(db, j).goal, None, at, 1, None)
  }

  /** The root of a fire that is not skipped, with its first attempt. */
  ghost function PrepareRoot(db: Db, c: FireCommand): Outcome<AttemptId>
    requires Serviceable(db, c.job)
  {
    var root, max := ExpectedRoot(c, EdictOf(db, c.job).schedule.timing), EdictOf(db, c.job).retryLimit + 1;
    if root.None? then Raised(Conflict)
    else if c.initial.None? && root.value in db.memorials then Raised(Conflict)
    else EnqueueInitial(WithRoot(db, c, root.value), root.value, c.at, max, FireAttempt(c.job, c.at))
  }

  /** `_prepare_memorial` inserts a root unless the submitted one is used. */
  function WithRoot(db: Db, c: FireCommand, m: MemorialId): (next: Db)
    requires Serviceable(db, c.job)
    ensures next.jobs == db.jobs && next.fires == db.fires
  {
    if c.initial.Some? then db else SetMemorial(db, m, ScheduledRoot(db, c.job, c.at))
  }

  ghost function Prepare(db: Db, cron: CronNext, c: FireCommand): Outcome<PreparedFire> {
    if !Serviceable(db, c.job) then Raised(Conflict)
    else
      var cursor := CursorAfter(db, cron, c);
      if cursor.Refused? then Raised(Conflict)
      else if TimerFire(c.job, c.at) in db.fires then
        if !ReplayMatches(db, c, cursor.at) then Raised(Conflict)
        else Committed(db, FireResult(db, c, cursor.at, db.fires[TimerFire(c.job, c.at)].status, true))
      else if !Due(db, c) then Raised(Conflict)
      else PrepareFresh(db, c, cursor.at)
  }

  ghost function PrepareFresh(db: Db, c: FireCommand, next: Option<Time>): Outcome<PreparedFire>
    requires Serviceable(db, c.job)
  {
    var status := if Skips(db, c) then FireSkipped else FirePrepared;
    var job := MovedJob(db.jobs[c.job], EdictOf(db, c.job).schedule.timing, next);
    var row := FireRowFor(db, c, next, status);
    if Skips(db, c) then
      Committed(File(db, TimerFire(c.job, c.at), row, c.job, job), FireResult(db, c, next, status, false))
    else
      var born := PrepareRoot(db, c);
      if born.Raised? then Raised(Conflict)
      else Committed(File(born.db, TimerFire(c.job, c.at), row, c.job, job), FireResult(db, c, next, status, false))
  }

  method PrepareFire(storage: Storage, cron: CronNext, c: FireCommand) returns (r: Option<PreparedFire>)
    requires OneFirst(storage.db)
    modifies storage
    ensures var o := Prepare(old(storage.db), cron, c);
            && storage.db == o.After(old(storage.db))
            && r == if o.Committed? then Some(o.value) else None
  {
    var db := storage.db;
    if !Serviceable(db, c.job) { return None; }
    var job, edict, fire := db.jobs[c.job], EdictOf(db, c.job), TimerFire(c.job, c.at);
    var cursor := CursorAfter(db, cron, c);
    if cursor.Refused? { return None; }
    var next := cursor.at;
    if fire in db.fires {
      if !ReplayMatches(db, c, next) { return None; }
      return Some(FireResult(db, c, next, db.fires[fire].status, true));
    }
    if !Due(db, c) { return None; }
    var skip := Skips(db, c);
    var status := if skip then FireSkipped else FirePrepared;
    var row, result := FireRowFor(db, c, next, status), FireResult(db, c, next, status, false);
    if !skip {
      var root := ExpectedRoot(c, edict.schedule.timing);
      if root.None? { return None; }
      if c.initial.None? {
        if root.value in db.memorials { return None; }
        db := SetMemorial(db, root.value, ScheduledRoot(db, c.job, c.at));
      }
      var born := Enqueue(db, root.value, c.at, edict.retryLimit + 1, FireAttempt(c.job, c.at));
      if born.Raised? { return None; }
      db := born.db;
    }
    storage.db := File(db, fire, row, c.job, MovedJob(job, edict.schedule.timing, next));
    return Some(result);
  }

  // ---------------------------------------------------------------- prepare_manual

  function ManualResult(db: Db, c: ManualCommand, at: Time, next: Option<Time>, deduplicated: bool): PreparedFire
    requires c.job in db.jobs
  {
    PreparedFire(ManualFire(c.job, c.key), db.jobs[c.job].edict, at, next, FirePrepared,
                 Some(ManualRoot(c.job, c.key)), Some(ManualAttempt(c.job, c.key)), deduplicated)
  }

  predicate ManualMatches(db: Db, c: ManualCommand)
    requires Serviceable(db, c.job) && ManualFire(c.job, c.key) in db.fires
  {
    var row, max := db.fires[ManualFire(c.job, c.key)], EdictOf(db, c.job).retryLimit + 1;
    && row.envelope.ManualEnvelope?
    && row.envelope.edict == db.jobs[c.job].edict && row.envelope.maxAttempts == max
    && row.edict == db.jobs[c.job].edict && row.startedAt == row.envelope.at
    && ManualAttempt(c.job, c.key) in db.attempts
    && db.attempts[ManualAttempt(c.job, c.key)].memorial == ManualRoot(c.job, c.key)
    && db.attempts[ManualAttempt(c.job, c.key)].maxAttempts == max
  }

  predicate Runnable(s: JobStatus) {
    s.JobActive? || s.JobPaused?
  }

  function ManualRow(db: Db, c: ManualCommand): FireRow
    requires Serviceable(db, c.job)
  {
    FireRow(db.jobs[c.job].edict, FirePrepared, c.at,
            ManualEnvelope(db.jobs[c.job].edict, EdictOf(db, c.job).retryLimit + 1, c.at, db.jobs[c.job].cursor))
  }

  ghost function PrepareManual(db: Db, c: ManualCommand): Outcome<PreparedFire> {
    if !Serviceable(db, c.job) || !Runnable(db.jobs[c.job].status) then Raised(Conflict)
    else
      var fire, root := ManualFire(c.job, c.key), ManualRoot(c.job, c.key);
      if fire in db.fires then
        if !ManualMatches(db, c) then Raised(Conflict)
        else Committed(db, ManualResult(db, c, db.fires[fire].envelope.at, db.fires[fire].envelope.next, true))
      else if root in db.memorials then Raised(Conflict)
      else
        var born := FreshRoot(db, root, ScheduledRoot(db, c.job, c.at), c.at, EdictOf(db, c.job).retryLimit + 1,
                              ManualAttempt(c.job, c.key));
        if born.Raised? then Raised(Conflict)
        else Committed(File(born.db, fire, ManualRow(db, c), c.job, db.jobs[c.job]),
                       ManualResult(db, c, c.at, db.jobs[c.job].cursor, false))
  }

  method PrepareManualFire(storage: Storage, c: ManualCommand) returns (r: Option<PreparedFire>)
    requires OneFirst(storage.db)
    modifies storage
    ensures var o := PrepareManual(old(storage.db), c);
            && storage.db == o.After(old(storage.db))
            && r == if o.Committed? then Some(o.value) else None
  {
    var db := storage.db;
    if !Serviceable(db, c.job) || !Runnable(db.jobs[c.job].status) { return None; }
    var fire, root, job := ManualFire(c.job, c.key), ManualRoot(c.job, c.key), db.jobs[c.job];
    if fire in db.fires {
      if !ManualMatches(db, c) { return None; }
      return Some(ManualResult(db, c, db.fires[fire].envelope.at, db.fires[fire].envelope.next, true));
    }
    var row, result := ManualRow(db, c), ManualResult(db, c, c.at, job.cursor, false);
    if root in db.memorials { return None; }
    db := SetMemorial(db, root, ScheduledRoot(db, c.job, c.at));
    var born := Enqueue(db, root, c.at, EdictOf(db, c.job).retryLimit + 1, ManualAttempt(c.job, c.key));
    if born.Raised? { return None; }
    db := born.db;
    assert db.jobs[c.job := job] == db.jobs;
    storage.db := db.(fires := db.fires[fire := row]);
    return Some(result);
  }

  // ---------------------------------------------------------------- both keep the invariant

  lemma FileKeeps(db: Db, f: FireId, row: FireRow, j: JobId, job: Job)
    requires Inv(db) && f !in db.fires && j in db.jobs && JobAdvances(db.jobs[j], job)
    ensures Keeps(db, File(db, f, row, j, job))
  {
    AsideKeeps(db, File(db, f, row, j, job));
  }

  /** What preparing the root of a fire does: nothing new, a first attempt for the submitted Memorial, or a new
      root with its first attempt. */
  ghost predicate RootPrepared(db: Db, next: Db, c: FireCommand)
    requires Serviceable(db, c.job)
  {
    var a, max := FireAttempt(c.job, c.at), EdictOf(db, c.job).retryLimit + 1;
    && next.jobs == db.jobs && next.fires == db.fires && next.edicts == db.edicts
    && next.runStates == db.runStates && next.decisions == db.decisions
    && if c.initial.Some? then next == db || Adopts(db, next, c.initial.value, c.at, max, a)
       else && 0 < max
            && Newborn(db, FireRoot(c.job, c.at), ScheduledRoot(db, c.job, c.at), a, Initial(FireRoot(c.job, c.at), c.at, max))
            && next == Birth(db, FireRoot(c.job, c.at), ScheduledRoot(db, c.job, c.at), a, Initial(FireRoot(c.job, c.at), c.at, max))
  }

  lemma PrepareRootMeans(db: Db, c: FireCommand)
    requires AttemptsWell(db.memorials, db.attempts) && Serviceable(db, c.job) && PrepareRoot(db, c).Committed?
    requires c.initial.Some? ==> ValidInitial(db, c.job, c.initial.value)
    ensures RootPrepared(db, PrepareRoot(db, c).db, c)
  {
    if c.initial.None? {
      FreshRootWorks(db, FireRoot(c.job, c.at), ScheduledRoot(db, c.job, c.at), c.at, EdictOf(db, c.job).retryLimit + 1,
                     FireAttempt(c.job, c.at));
    }
  }

  lemma RootPreparedKeeps(db: Db, next: Db, c: FireCommand)
    requires Inv(db) && Serviceable(db, c.job) && RootPrepared(db, next, c)
    ensures Keeps(db, next)
  {
    var a, max := FireAttempt(c.job, c.at), EdictOf(db, c.job).retryLimit + 1;
    if next == db {
      KeepsSame(db);
    } else if c.initial.Some? {
      AdoptsKeeps(db, next, c.initial.value, c.at, max, a);
    } else {
      BirthKeeps(db, FireRoot(c.job, c.at), ScheduledRoot(db, c.job, c.at), a, Initial(FireRoot(c.job, c.at), c.at, max));
    }
  }

  /** The whole effect of a fire that is recorded: its root, unless it is skipped, then its row and the cursor. */
  ghost predicate Fires(db: Db, next: Db, c: FireCommand, cursor: Option<Time>) {
    && Serviceable(db, c.job) && TimerFire(c.job, c.at) !in db.fires && Due(db, c)
    && var job := MovedJob(db.jobs[c.job], EdictOf(db, c.job).schedule.timing, cursor);
       if Skips(db, c)
       then next == File(db, TimerFire(c.job, c.at), FireRowFor(db, c, cursor, FireSkipped), c.job, job)
       else exists mid :: RootPrepared(db, mid, c)
                          && next == File(mid, TimerFire(c.job, c.at), FireRowFor(db, c, cursor, FirePrepared), c.job, job)
  }

  lemma PrepareFires(db: Db, cron: CronNext, c: FireCommand)
    requires AttemptsWell(db.memorials, db.attempts) && Prepare(db, cron, c).Committed? && TimerFire(c.job, c.at) !in db.fires
    ensures Serviceable(db, c.job) && CursorAfter(db, cron, c).NextAt?
    ensures Fires(db, Prepare(db, cron, c).db, c, CursorAfter(db, cron, c).at)
  {
    if !Skips(db, c) {
      PrepareRootMeans(db, c);
      assert RootPrepared(db, PrepareRoot(db, c).db, c);
    }
  }

  lemma FiresKeeps(db: Db, next: Db, c: FireCommand, cursor: Option<Time>)
    requires Inv(db) && Fires(db, next, c, cursor)
    ensures Keeps(db, next)
  {
    var job := MovedJob(db.jobs[c.job], EdictOf(db, c.job).schedule.timing, cursor);
    if Skips(db, c) {
      FileKeeps(db, TimerFire(c.job, c.at), FireRowFor(db, c, cursor, FireSkipped), c.job, job);
    } else {
      var mid :| RootPrepared(db, mid, c)
                 && next == File(mid, TimerFire(c.job, c.at), FireRowFor(db, c, cursor, FirePrepared), c.job, job);
      RootFiledKeeps(db, mid, c, FireRowFor(db, c, cursor, FirePrepared), job);
    }
  }

  lemma RootFiledKeeps(db: Db, mid: Db, c: FireCommand, row: FireRow, job: Job)
    requires Inv(db) && Serviceable(db, c.job) && RootPrepared(db, mid, c)
    requires TimerFire(c.job, c.at) !in db.fires && JobAdvances(db.jobs[c.job], job)
    ensures Keeps(db, File(mid, TimerFire(c.job, c.at), row, c.job, job))
  {
    RootPreparedKeeps(db, mid, c);
    FileKeeps(mid, TimerFire(c.job, c.at), row, c.job, job);
    KeepsTransitive(db, mid, File(mid, TimerFire(c.job, c.at), row, c.job, job));
  }

  lemma PrepareKeeps(db: Db, cron: CronNext, c: FireCommand)
    requires Inv(db)
    ensures Keeps(db, Prepare(db, cron, c).After(db))
  {
    if Prepare(db, cron, c).Raised? || TimerFire(c.job, c.at) in db.fires {
      KeepsSame(db);
    } else {
      PrepareFires(db, cron, c);
      FiresKeeps(db, Prepare(db, cron, c).db, c, CursorAfter(db, cron, c).at);
    }
  }

  ghost predicate FiresManually(db: Db, next: Db, c: ManualCommand) {
    && Serviceable(db, c.job) && ManualFire(c.job, c.key) !in db.fires
    && var a, m, max := ManualAttempt(c.job, c.key), ManualRoot(c.job, c.key), EdictOf(db, c.job).retryLimit + 1;
       && 0 < max
       && Newborn(db, m, ScheduledRoot(db, c.job, c.at), a, Initial(m, c.at, max))
       && next == File(Birth(db, m, ScheduledRoot(db, c.job, c.at), a, Initial(m, c.at, max)),
                       ManualFire(c.job, c.key), ManualRow(db, c), c.job, db.jobs[c.job])
  }

  lemma ManualFires(db: Db, c: ManualCommand)
    requires AttemptsWell(db.memorials, db.attempts) && PrepareManual(db, c).Committed? && ManualFire(c.job, c.key) !in db.fires
    ensures FiresManually(db, PrepareManual(db, c).db, c)
  {
    FreshRootWorks(db, ManualRoot(c.job, c.key), ScheduledRoot(db, c.job, c.at), c.at, EdictOf(db, c.job).retryLimit + 1,
                   ManualAttempt(c.job, c.key));
  }

  lemma FiresManuallyKeeps(db: Db, next: Db, c: ManualCommand)
    requires Inv(db) && FiresManually(db, next, c)
    ensures Keeps(db, next)
  {
    var a, m, max := ManualAttempt(c.job, c.key), ManualRoot(c.job, c.key), EdictOf(db, c.job).retryLimit + 1;
    BirthKeeps(db, m, ScheduledRoot(db, c.job, c.at), a, Initial(m, c.at, max));
    var born := Birth(db, m, ScheduledRoot(db, c.job, c.at), a, Initial(m, c.at, max));
    FileKeeps(born, ManualFire(c.job, c.key), ManualRow(db, c), c.job, db.jobs[c.job]);
    KeepsTransitive(db, born, next);
  }

  lemma PrepareManualKeeps(db: Db, c: ManualCommand)
    requires Inv(db)
    ensures Keeps(db, PrepareManual(db, c).After(db))
  {
    if PrepareManual(db, c).Raised? || ManualFire(c.job, c.key) in db.fires {
      KeepsSame(db);
    } else {
      ManualFires(db, c);
      FiresManuallyKeeps(db, PrepareManual(db, c).db, c);
    }
  }

  // ---------------------------------------------------------------- exactly once

  /** What a recorded fire leaves behind, as any later step may have moved it. */
  ghost predicate Recorded(db: Db, c: FireCommand, first: PreparedFire, envelope: Envelope) {
    && TimerFire(c.job, c.at) in db.fires
    && db.fires[TimerFire(c.job, c.at)] == FireRow(first.edict, first.status, c.at, envelope)
    && envelope.TimerEnvelope? && envelope.status == first.status && envelope.edict == first.edict
    && c.job in db.jobs && db.jobs[c.job].edict == first.edict
    && (first.status.FirePrepared? ==>
          && first.memorial.Some? && FireAttempt(c.job, c.at) in db.attempts
          && db.attempts[FireAttempt(c.job, c.at)].memorial == first.memorial.value
          && db.attempts[FireAttempt(c.job, c.at)].no == 1
          && db.attempts[FireAttempt(c.job, c.at)].maxAttempts == envelope.maxAttempts)
  }

  lemma FiresRecords(db: Db, cron: CronNext, c: FireCommand)
    requires Inv(db) && Prepare(db, cron, c).Committed? && TimerFire(c.job, c.at) !in db.fires
    ensures Serviceable(db, c.job) && CursorAfter(db, cron, c).NextAt?
    ensures var first := Prepare(db, cron, c).value;
            && first == FireResult(db, c, CursorAfter(db, cron, c).at, first.status, false)
            && Recorded(Prepare(db, cron, c).db, c, first, Fingerprint(db, c, CursorAfter(db, cron, c).at, first.status))
  {
    if !Skips(db, c) {
      PrepareRootIsFirst(db, c);
    }
  }

  lemma PrepareRootIsFirst(db: Db, c: FireCommand)
    requires Serviceable(db, c.job) && PrepareRoot(db, c).Committed?
    ensures ExpectedRoot(c, EdictOf(db, c.job).schedule.timing).Some?
    ensures FirstEnqueued(db, PrepareRoot(db, c).db, c, ExpectedRoot(c, EdictOf(db, c.job).schedule.timing).value)
  {
    var m := ExpectedRoot(c, EdictOf(db, c.job).schedule.timing).value;
    EnqueueMeans(WithRoot(db, c, m), m, c.at, EdictOf(db, c.job).retryLimit + 1, FireAttempt(c.job, c.at));
  }

  predicate FirstEnqueued(db: Db, next: Db, c: FireCommand, m: MemorialId)
    requires Serviceable(db, c.job)
  {
    && IsFirst(next.attempts, FireAttempt(c.job, c.at), m)
    && next.attempts[FireAttempt(c.job, c.at)].maxAttempts == EdictOf(db, c.job).retryLimit + 1
    && next.jobs == db.jobs && next.fires == db.fires
  }

  lemma RecordedStays(db: Db, later: Db, c: FireCommand, first: PreparedFire, envelope: Envelope)
    requires Recorded(db, c, first, envelope) && Advances(db, later)
    ensures Recorded(later, c, first, envelope)
  {
    assert JobAdvances(db.jobs[c.job], later.jobs[c.job]);
    if first.status.FirePrepared? {
      assert AttemptAdvances(db.attempts[FireAttempt(c.job, c.at)], later.attempts[FireAttempt(c.job, c.at)]);
    }
  }

  /** Everything the fingerprint of a fire covers is now what it was. */
  predicate SameFireEnvelope(db: Db, c: FireCommand, later: Db, c': FireCommand)
    requires Serviceable(db, c.job) && Serviceable(later, c.job)
  {
    && c'.initial == c.initial
    && later.jobs[c.job].timing == db.jobs[c.job].timing
    && EdictOf(later, c.job).schedule == EdictOf(db, c.job).schedule
    && EdictOf(later, c.job).retryLimit == EdictOf(db, c.job).retryLimit
  }

  /** A fire is prepared once.  Whatever happens after it, preparing the same job and time again changes nothing.
      While the edict is open, the call succeeds exactly when the job's timing, the schedule, the retry limit and
      the initial Memorial are those of the first call and no other next time is asked for; it then returns the
      first answer, marked as a duplicate. */
  lemma FireExactlyOnce(db: Db, cron: CronNext, c: FireCommand, later: Db, c': FireCommand)
    requires Inv(db) && Prepare(db, cron, c).Committed? && TimerFire(c.job, c.at) !in db.fires
    requires Advances(Prepare(db, cron, c).db, later) && c'.job == c.job && c'.at == c.at
    ensures Prepare(later, cron, c').After(later) == later
    ensures Serviceable(db, c.job)
    ensures var first, o := Prepare(db, cron, c).value, Prepare(later, cron, c');
            && (o.Committed? <==> && Serviceable(later, c.job) && SameFireEnvelope(db, c, later, c')
                                  && (c'.requested.None? || c'.requested == first.next))
            && (o.Committed? ==> o.value == first.(deduplicated := true))
  {
    FiresRecords(db, cron, c);
    var first, next := Prepare(db, cron, c).value, CursorAfter(db, cron, c).at;
    RecordedStays(Prepare(db, cron, c).db, later, c, first, Fingerprint(db, c, next, first.status));
    ReplayOfRecorded(db, cron, c, first, later, c');
  }

  lemma ReplayOfRecorded(db: Db, cron: CronNext, c: FireCommand, first: PreparedFire, later: Db, c': FireCommand)
    requires Serviceable(db, c.job) && CursorAfter(db, cron, c).NextAt?
    requires first == FireResult(db, c, CursorAfter(db, cron, c).at, first.status, false)
    requires Recorded(later, c, first, Fingerprint(db, c, CursorAfter(db, cron, c).at, first.status))
    requires c'.job == c.job && c'.at == c.at
    ensures Prepare(later, cron, c').After(later) == later
    ensures var o := Prepare(later, cron, c');
            && (o.Committed? <==> && Serviceable(later, c.job) && SameFireEnvelope(db, c, later, c')
                                  && (c'.requested.None? || c'.requested == first.next))
            && (o.Committed? ==> o.value == first.(deduplicated := true))
  {
  }

  /** What a recorded manual fire leaves behind. */
  ghost predicate ManuallyRecorded(db: Db, c: ManualCommand, first: PreparedFire, max: int) {
    && ManualFire(c.job, c.key) in db.fires
    && db.fires[ManualFire(c.job, c.key)] ==
         FireRow(first.edict, FirePrepared, first.at, ManualEnvelope(first.edict, max, first.at, first.next))
    && c.job in db.jobs && db.jobs[c.job].edict == first.edict
    && ManualAttempt(c.job, c.key) in db.attempts
    && db.attempts[ManualAttempt(c.job, c.key)].memorial == ManualRoot(c.job, c.key)
    && db.attempts[ManualAttempt(c.job, c.key)].maxAttempts == max
  }

  lemma ManualRecords(db: Db, c: ManualCommand)
    requires Inv(db) && PrepareManual(db, c).Committed? && ManualFire(c.job, c.key) !in db.fires
    ensures Serviceable(db, c.job)
    ensures var first := PrepareManual(db, c).value;
            && first == ManualResult(db, c, c.at, db.jobs[c.job].cursor, false)
            && ManuallyRecorded(PrepareManual(db, c).db, c, first, EdictOf(db, c.job).retryLimit + 1)
  {
    ManualFires(db, c);
  }

  lemma ManuallyRecordedStays(db: Db, later: Db, c: ManualCommand, first: PreparedFire, max: int)
    requires ManuallyRecorded(db, c, first, max) && Advances(db, later)
    ensures ManuallyRecorded(later, c, first, max)
  {
    assert JobAdvances(db.jobs[c.job], later.jobs[c.job]);
    assert AttemptAdvances(db.attempts[ManualAttempt(c.job, c.key)], later.attempts[ManualAttempt(c.job, c.key)]);
  }

  /** A manual fire happens once per key.  A later call under the key changes nothing; while the job is active or
      paused and its edict open it succeeds exactly when the retry limit is what it was, and returns the first
      answer with the first call's time, whatever time it brings itself. */
  lemma ManualExactlyOnce(db: Db, c: ManualCommand, later: Db, c': ManualCommand)
    requires Inv(db) && PrepareManual(db, c).Committed? && ManualFire(c.job, c.key) !in db.fires
    requires Advances(PrepareManual(db, c).db, later) && c'.job == c.job && c'.key == c.key
    ensures PrepareManual(later, c').After(later) == later
    ensures Serviceable(db, c.job)
    ensures var first, o := PrepareManual(db, c).value, PrepareManual(later, c');
            && (o.Committed? <==> && Serviceable(later, c.job) && Runnable(later.jobs[c.job].status)
                                  && EdictOf(later, c.job).retryLimit == EdictOf(db, c.job).retryLimit)
            && (o.Committed? ==> o.value == first.(deduplicated := true))
  {
    ManualRecords(db, c);
    ManuallyRecordedStays(PrepareManual(db, c).db, later, c, PrepareManual(db, c).value, EdictOf(db, c.job).retryLimit + 1);
  }

  // ---------------------------------------------------------------- the whole answer of a fresh fire

  /** The job is there and its edict open. */
  predicate InService(db: Db, j: JobId) {
    && j in db.jobs && db.jobs[j].edict in db.edicts
    && db.edicts[db.jobs[j].edict].open && !db.edicts[db.jobs[j].edict].archived
  }

  predicate Recurs(t: Timing) {
    t.Cron? || t.Interval?
  }

  /** Job and edict agree on the timing, and `next` is the time after `at`: none for a one-shot job at its time. */
  predicate NextIs(cron: CronNext, j: JobTiming, t: Timing, at: Time, next: Option<Time>) {
    match t
    case Immediate => j == ImmediateJob && next == None
    case Once(time) => j == OnceJob && time == Some(at) && next == None
    case Interval(seconds) => j == IntervalJob(seconds) && seconds.Some? && 0 < seconds.value && next == Some(at + seconds.value)
    case Cron(expr, zone) => j == CronJob(expr) && expr.Some? && next.Some? && next == cron(expr.value, zone, at)
  }

  lemma CursorIs(db: Db, cron: CronNext, c: FireCommand, next: Option<Time>)
    requires Serviceable(db, c.job)
    ensures CursorAfter(db, cron, c) == NextAt(next) <==>
              && NextIs(cron, db.jobs[c.job].timing, db.edicts[db.jobs[c.job].edict].schedule.timing, c.at, next)
              && (c.requested == None || c.requested == next)
  {
  }

  /** The untouched root of the job's own submission, offered to its first fire. */
  ghost predicate OffersInitial(db: Db, j: JobId, m: MemorialId)
    requires InService(db, j)
  {
    var job := db.jobs[j];
    && (forall f :: f in db.fires ==> f.job != j)
    && m in db.memorials && job.submission in db.outbox
    && var row, e := db.memorials[m], db.outbox[job.submission];
       && row.isRoot && row.parent == None && row.status == Submitted
       && row.edict == job.edict && row.instruction == db.edicts[job.edict].goal
       && e.kind == EdictSubmitted && e.edict == job.edict && e.memorial == m
  }

  /** Some root of the edict, other than the offered one, is not finished. */
  ghost predicate Occupied(db: Db, edict: EdictId, initial: Option<MemorialId>) {
    exists m :: && m in db.memorials && db.memorials[m].isRoot && db.memorials[m].edict == edict && Some(m) != initial
                && db.memorials[m].status !in {Completed, Failed, Cancelled}
  }

  /** The job recurs, its edict has the skip policy and is occupied. */
  ghost predicate IsSkipped(db: Db, c: FireCommand)
    requires InService(db, c.job)
  {
    var edict := db.edicts[db.jobs[c.job].edict];
    Recurs(edict.schedule.timing) && edict.schedule.policy == Skip && Occupied(db, db.jobs[c.job].edict, c.initial)
  }

  lemma SkipsIff(db: Db, c: FireCommand)
    requires Serviceable(db, c.job)
    ensures Skips(db, c) <==> IsSkipped(db, c)
  {
    var e := db.jobs[c.job].edict;
    if HasOtherActiveRoot(db, e, c.initial) {
      var m :| m in db.memorials && ActiveRoot(db, m) && db.memorials[m].edict == e && Some(m) != c.initial;
      assert Occupied(db, e, c.initial);
    }
    if Occupied(db, e, c.initial) {
      var m :| && m in db.memorials && db.memorials[m].isRoot && db.memorials[m].edict == e && Some(m) != c.initial
               && db.memorials[m].status !in {Completed, Failed, Cancelled};
      assert ActiveRoot(db, m);
    }
  }

  lemma DueIff(db: Db, c: FireCommand)
    requires Serviceable(db, c.job)
    ensures Due(db, c) <==>
              && db.jobs[c.job].status == JobActive && db.jobs[c.job].cursor == Some(c.at)
              && (c.initial.Some? ==> OffersInitial(db, c.job, c.initial.value))
  {
  }

  /** A first attempt for the fire can be had: with an offered root, its own or none so far; otherwise a new root of a
      recurring job under free identities. */
  ghost predicate RootReady(db: Db, c: FireCommand)
    requires InService(db, c.job)
  {
    var a, edict := FireAttempt(c.job, c.at), db.edicts[db.jobs[c.job].edict];
    && 0 <= edict.retryLimit
    && match c.initial
       case Some(m) =>
         if IsFirst(db.attempts, a, m)
         then db.attempts[a].availableAt == c.at && db.attempts[a].maxAttempts == edict.retryLimit + 1
         else a !in db.attempts && !HasFirst(db.attempts, m)
       case None => Recurs(edict.schedule.timing) && FireRoot(c.job, c.at) !in db.memorials && a !in db.attempts
  }

  lemma RootReadyIff(db: Db, c: FireCommand)
    requires Inv(db) && Serviceable(db, c.job) && (c.initial.Some? ==> Root(db, c.initial.value))
    ensures PrepareRoot(db, c).Committed? <==> RootReady(db, c)
  {
    var max := EdictOf(db, c.job).retryLimit + 1;
    if c.initial.Some? {
      InvOneFirst(db);
      EnqueueAnswers(db, c.initial.value, c.at, max, FireAttempt(c.job, c.at));
    } else if FireRoot(c.job, c.at) !in db.memorials {
      FreshRootWorks(db, FireRoot(c.job, c.at), ScheduledRoot(db, c.job, c.at), c.at, max, FireAttempt(c.job, c.at));
    }
  }

  /** The fire is the job's next one and there is a time after it. */
  ghost predicate MayFire(db: Db, cron: CronNext, c: FireCommand, next: Option<Time>) {
    && InService(db, c.job)
    && var job := db.jobs[c.job];
       && NextIs(cron, job.timing, db.edicts[job.edict].schedule.timing, c.at, next)
       && (c.requested == None || c.requested == next)
       && job.status == JobActive && job.cursor == Some(c.at)
       && (c.initial.Some? ==> OffersInitial(db, c.job, c.initial.value))
  }

  /** A fresh fire commits if and only if the job is active with its cursor at that time, timing and offered root are
      valid, and the fire is skipped or its root can be had. */
  lemma FireCommitsIff(db: Db, cron: CronNext, c: FireCommand)
    requires Inv(db) && TimerFire(c.job, c.at) !in db.fires
    ensures Prepare(db, cron, c).Committed? <==>
              exists next :: MayFire(db, cron, c, next) && (IsSkipped(db, c) || RootReady(db, c))
  {
    if Serviceable(db, c.job) {
      var cursor := CursorAfter(db, cron, c);
      DueIff(db, c);
      SkipsIff(db, c);
      if cursor.NextAt? && Due(db, c) {
        CursorIs(db, cron, c, cursor.at);
        RootReadyIff(db, c);
        assert MayFire(db, cron, c, cursor.at);
      }
      if next :| MayFire(db, cron, c, next) {
        CursorIs(db, cron, c, next);
      }
    }
  }

  /** The row that says whether the fire was skipped, with the envelope, and the moved cursor or completed job. */
  predicate FiresInto(db: Db, next: Db, c: FireCommand, cursor: Option<Time>, status: FireStatus)
    requires InService(db, c.job)
  {
    var job := db.jobs[c.job];
    var edict := db.edicts[job.edict];
    && next.fires == db.fires[TimerFire(c.job, c.at) :=
                                FireRow(job.edict, status, c.at,
                                        TimerEnvelope(job.edict, job.timing, edict.schedule, c.at, cursor, c.initial, status,
                                                      edict.retryLimit + 1))]
    && next.jobs == db.jobs[c.job := if Recurs(edict.schedule.timing) then job.(cursor := cursor)
                                     else job.(cursor := None, status := JobCompleted)]
  }

  lemma FreshRecords(db: Db, c: FireCommand, next: Option<Time>)
    requires Serviceable(db, c.job) && PrepareFresh(db, c, next).Committed?
    ensures var o, status := PrepareFresh(db, c, next), if Skips(db, c) then FireSkipped else FirePrepared;
            && FiresInto(db, o.db, c, next, status)
            && o.db == db.(memorials := o.db.memorials, attempts := o.db.attempts, fires := o.db.fires, jobs := o.db.jobs)
            && o.value == PreparedFire(TimerFire(c.job, c.at), db.jobs[c.job].edict, c.at, next, status, o.value.memorial,
                                       o.value.attempt, false)
  {
    if Skips(db, c) {
      FilesInto(db, db, c, next, FireSkipped);
    } else {
      PrepareRootAside(db, c);
      FilesInto(db, PrepareRoot(db, c).db, c, next, FirePrepared);
    }
  }

  lemma FilesInto(db: Db, mid: Db, c: FireCommand, next: Option<Time>, status: FireStatus)
    requires Serviceable(db, c.job) && mid.fires == db.fires && mid.jobs == db.jobs
    ensures FiresInto(db, File(mid, TimerFire(c.job, c.at), FireRowFor(db, c, next, status), c.job,
                               MovedJob(db.jobs[c.job], EdictOf(db, c.job).schedule.timing, next)), c, next, status)
  {
  }

  /** A recorded fire has a row that says whether it was skipped, moves the cursor or completes a one-shot job, and
      answers with what it recorded; besides roots and attempts nothing else is touched. */
  lemma FireIsFiled(db: Db, cron: CronNext, c: FireCommand, next: Option<Time>)
    requires Inv(db) && TimerFire(c.job, c.at) !in db.fires && Prepare(db, cron, c).Committed? && MayFire(db, cron, c, next)
    ensures var o, status := Prepare(db, cron, c), if IsSkipped(db, c) then FireSkipped else FirePrepared;
            && FiresInto(db, o.db, c, next, status)
            && o.db == db.(memorials := o.db.memorials, attempts := o.db.attempts, fires := o.db.fires, jobs := o.db.jobs)
            && o.value == PreparedFire(TimerFire(c.job, c.at), db.jobs[c.job].edict, c.at, next, status, o.value.memorial,
                                       o.value.attempt, false)
  {
    CursorIs(db, cron, c, next);
    SkipsIff(db, c);
    assert Prepare(db, cron, c) == PrepareFresh(db, c, next);
    FreshRecords(db, c, next);
  }

  lemma PrepareRootAside(db: Db, c: FireCommand)
    requires Serviceable(db, c.job) && PrepareRoot(db, c).Committed?
    ensures PrepareRoot(db, c).db == db.(memorials := PrepareRoot(db, c).db.memorials, attempts := PrepareRoot(db, c).db.attempts)
  {
  }

  /** Attempt `a` is the first of root `m`, due at the fire's time; it was there before or is new, and no other is
      touched. */
  ghost predicate FirstDue(ts: Attempts, us: Attempts, a: AttemptId, m: MemorialId, at: Time, max: int) {
    && a in us && us == ts[a := us[a]]
    && us[a].memorial == m && us[a].no == 1 && us[a].availableAt == at && us[a].maxAttempts == max
    && if a in ts then us[a] == ts[a] else us[a].status == Claimable && us[a].lease == None && us[a].token == 0 && us[a].version == 1
  }

  /** The root of the fire: the offered one, left as it is, or a new submitted one with the edict's goal. */
  ghost predicate RootOfFire(db: Db, next: Db, c: FireCommand, m: MemorialId)
    requires InService(db, c.job)
  {
    var job := db.jobs[c.job];
    match c.initial
    case Some(given) => m == given && next.memorials == db.memorials
    case None =>
      && m == FireRoot(c.job, c.at) && m !in db.memorials
      && next.memorials ==
           db.memorials[m := Memorial(job.edict, true, Submitted, db.edicts[job.edict].goal, None, c.at, 1, None)]
  }

  lemma OfferedStarts(db: Db, c: FireCommand)
    requires Inv(db) && Serviceable(db, c.job) && c.initial.Some? && PrepareRoot(db, c).Committed?
    ensures var next := PrepareRoot(db, c).db;
            && RootOfFire(db, next, c, c.initial.value)
            && FirstDue(db.attempts, next.attempts, FireAttempt(c.job, c.at), c.initial.value, c.at,
                        db.edicts[db.jobs[c.job].edict].retryLimit + 1)
  {
    var a := FireAttempt(c.job, c.at);
    InvOneFirst(db);
    EnqueueAnswers(db, c.initial.value, c.at, EdictOf(db, c.job).retryLimit + 1, a);
    assert a in db.attempts ==> db.attempts[a := db.attempts[a]] == db.attempts;
  }

  lemma NewRootStarts(db: Db, c: FireCommand)
    requires Inv(db) && Serviceable(db, c.job) && c.initial.None? && PrepareRoot(db, c).Committed?
    ensures var next := PrepareRoot(db, c).db;
            && RootOfFire(db, next, c, FireRoot(c.job, c.at))
            && FirstDue(db.attempts, next.attempts, FireAttempt(c.job, c.at), FireRoot(c.job, c.at), c.at,
                        db.edicts[db.jobs[c.job].edict].retryLimit + 1)
  {
    FreshRootWorks(db, FireRoot(c.job, c.at), ScheduledRoot(db, c.job, c.at), c.at, EdictOf(db, c.job).retryLimit + 1,
                   FireAttempt(c.job, c.at));
  }

  /** A skipped fire starts nothing.  Any other has exactly one root, the offered one or a new submitted one with the
      edict's goal, and its first attempt is due at the fire's time; no other root or attempt is touched. */
  lemma FireStarts(db: Db, cron: CronNext, c: FireCommand)
    requires Inv(db) && TimerFire(c.job, c.at) !in db.fires && Prepare(db, cron, c).Committed? && InService(db, c.job)
    ensures var o := Prepare(db, cron, c);
            if IsSkipped(db, c) then
              o.value.memorial == None && o.value.attempt == None && o.db.memorials == db.memorials && o.db.attempts == db.attempts
            else
              && o.value.memorial.Some? && o.value.attempt == Some(FireAttempt(c.job, c.at))
              && RootOfFire(db, o.db, c, o.value.memorial.value)
              && FirstDue(db.attempts, o.db.attempts, FireAttempt(c.job, c.at), o.value.memorial.value, c.at,
                          db.edicts[db.jobs[c.job].edict].retryLimit + 1)
  {
    SkipsIff(db, c);
    if !Skips(db, c) {
      if c.initial.Some? {
        OfferedStarts(db, c);
      } else {
        NewRootStarts(db, c);
      }
    }
  }

  /** The first manual fire under a key commits if and only if the job is active or paused, its edict open with a budget,
      and the identities free; policy, timing and cursor are not looked at. */
  lemma ManualCommitsIff(db: Db, c: ManualCommand)
    requires Inv(db) && ManualFire(c.job, c.key) !in db.fires
    ensures PrepareManual(db, c).Committed? <==>
              && InService(db, c.job) && (db.jobs[c.job].status == JobActive || db.jobs[c.job].status == JobPaused)
              && 0 <= db.edicts[db.jobs[c.job].edict].retryLimit
              && ManualRoot(c.job, c.key) !in db.memorials && ManualAttempt(c.job, c.key) !in db.attempts
  {
    if Serviceable(db, c.job) && ManualRoot(c.job, c.key) !in db.memorials {
      FreshRootWorks(db, ManualRoot(c.job, c.key), ScheduledRoot(db, c.job, c.at), c.at, EdictOf(db, c.job).retryLimit + 1,
                     ManualAttempt(c.job, c.key));
    }
  }

  /** All that it writes: a submitted root with the edict's goal, its first attempt due at the given time, and a row with
      that time and the untouched cursor. */
  lemma ManualWrites(db: Db, c: ManualCommand)
    requires Inv(db) && ManualFire(c.job, c.key) !in db.fires && PrepareManual(db, c).Committed? && InService(db, c.job)
    ensures var job, f, m, a := db.jobs[c.job], ManualFire(c.job, c.key), ManualRoot(c.job, c.key), ManualAttempt(c.job, c.key);
            var edict := db.edicts[job.edict];
            && 0 <= edict.retryLimit
            && PrepareManual(db, c) ==
                 Committed(
                   db.(memorials := db.memorials[m := Memorial(job.edict, true, Submitted, edict.goal, None, c.at, 1, None)],
                       attempts := db.attempts[a := Attempt(m, 1, Claimable, None, 0, c.at, edict.retryLimit + 1, 1)],
                       fires := db.fires[f := FireRow(job.edict, FirePrepared, c.at,
                                                      ManualEnvelope(job.edict, edict.retryLimit + 1, c.at, job.cursor))]),
                   PreparedFire(f, job.edict, c.at, job.cursor, FirePrepared, Some(m), Some(a), false))
  {
    ManualFires(db, c);
    assert db.jobs[c.job := db.jobs[c.job]] == db.jobs;
  }

  // ---------------------------------------------------------------- what a fire does to the timers

  /** A recorded fire stands at the cursor, and adds its row and moves that cursor one step. */
  lemma FiresTimers(db: Db, next: Db, c: FireCommand, cursor: Option<Time>)
    requires Fires(db, next, c, cursor)
    ensures db.jobs[c.job].cursor == Some(c.at)
    ensures next.jobs == db.jobs[c.job := MovedJob(db.jobs[c.job], EdictOf(db, c.job).schedule.timing, cursor)]
    ensures forall f :: f in next.fires <==> f in db.fires || f == TimerFire(c.job, c.at)
    ensures next.edicts == db.edicts
  {
  }

  lemma ManualTimers(db: Db, next: Db, c: ManualCommand)
    requires FiresManually(db, next, c)
    ensures next.jobs == db.jobs && next.edicts == db.edicts
    ensures forall f :: f in next.fires <==> f in db.fires || f == ManualFire(c.job, c.key)
  {
    assert db.jobs[c.job := db.jobs[c.job]] == db.jobs;
  }

  /** A recorded fire inserts at most one root, and that only when it is not skipped and no submitted Memorial
      is used. */
  lemma FiresRoots(db: Db, next: Db, c: FireCommand, cursor: Option<Time>)
    requires Fires(db, next, c, cursor)
    ensures Skips(db, c) || c.initial.Some? ==> next.memorials == db.memorials
    ensures !Skips(db, c) && c.initial.None? ==>
              next.memorials == db.memorials[FireRoot(c.job, c.at) := ScheduledRoot(db, c.job, c.at)]
  {
    if !Skips(db, c) {
      var job := MovedJob(db.jobs[c.job], EdictOf(db, c.job).schedule.timing, cursor);
      var mid :| RootPrepared(db, mid, c)
                 && next == File(mid, TimerFire(c.job, c.at), FireRowFor(db, c, cursor, FirePrepared), c.job, job);
      assert next.memorials == mid.memorials;
      PreparedRoots(db, mid, c);
    }
  }

  lemma PreparedRoots(db: Db, mid: Db, c: FireCommand)
    requires Serviceable(db, c.job) && RootPrepared(db, mid, c)
    ensures c.initial.Some? ==> mid.memorials == db.memorials
    ensures c.initial.None? ==> mid.memorials == db.memorials[FireRoot(c.job, c.at) := ScheduledRoot(db, c.job, c.at)]
  {
  }

  /** No fire touches RunStates or decisions. */
  lemma FiresStill(db: Db, next: Db, c: FireCommand, cursor: Option<Time>)
    requires Fires(db, next, c, cursor)
    ensures next.runStates == db.runStates && next.decisions == db.decisions
  {
    if !Skips(db, c) {
      var job := MovedJob(db.jobs[c.job], EdictOf(db, c.job).schedule.timing, cursor);
      var mid :| RootPrepared(db, mid, c)
                 && next == File(mid, TimerFire(c.job, c.at), FireRowFor(db, c, cursor, FirePrepared), c.job, job);
    }
  }

  lemma ManualRoots(db: Db, next: Db, c: ManualCommand)
    requires FiresManually(db, next, c)
    ensures next.memorials == db.memorials[ManualRoot(c.job, c.key) := ScheduledRoot(db, c.job, c.at)]
  {
  }
}
