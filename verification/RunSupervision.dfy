/**
 The supervision of local runs: `application/run_dispatcher.py` with the projections of
 `application/run_execution.py`.  One step is what happens between two awaits: of a dispatch, of the supervised
 coroutine of a task, of its runner or its heartbeat, of a callback or of reaping.  They interleave freely.
 */
module RunSupervision {
  import opened Durable
  import RX = RunExecution

  newtype TaskId = int

  datatype RunDisposition = RunSucceeded | RunFailed | RunRetry | RunSuspended

  /** The task of the runner.  A lookup error is one the supervised coroutine turns into a failed outcome. */
  datatype RunnerState =
    | NoRunner | RunnerRunning | RunnerReturned(disposition: RunDisposition) | RunnerRaised(lookup: bool) | RunnerCancelled

  /** The task of the heartbeat: it never returns. */
  datatype BeatState = NoBeat | Beating | BeatLost | BeatRaised(lookup: bool) | BeatCancelled

  /** Where the supervised coroutine stands. */
  datatype Pc =
    | AtBind
    | AtWait
    | AtDrain
    | AtStopBeat(disposition: RunDisposition)
    | AtComplete(disposition: RunDisposition, final: bool)
    | AtAwaitBeat
    | AtAwaitRunner
    | AtCleanup
    | Done(cleaned: bool)

  /** A supervised task: `held` while a projection its runner stored is neither taken nor cleaned up, `taken` once
      the completer has asked for one. */
  datatype Task = Task(auth: Authority, pc: Pc, runner: RunnerState, beat: BeatState, held: bool, taken: bool)

  datatype System = System(
    tasks: map<AttemptId, TaskId>,
    memorialTasks: map<MemorialId, TaskId>,
    idle: bool,
    stopping: bool,
    all: map<TaskId, Task>,
    projections: map<ProjectionKey, RX.Projected>)

  const IDLE: System := System(map[], map[], true, false, map[], map[])

  datatype Binding = Bindable | Unavailable | BindError
  datatype Completion = CompleterReturned | CompleterLookup | CompleterRaised

  datatype Step =
    | Dispatches(memorial: MemorialId, claim: Option<Authority>, id: TaskId)
    | Binds(id: TaskId, binding: Binding)
    | Stores(id: TaskId, projection: RX.Projected)
    | RunnerEnds(id: TaskId, runner: RunnerState)
    | BeatEnds(id: TaskId, beat: BeatState)
    | Wakes(id: TaskId)
    | Interrupts(id: TaskId)
    | Drains(id: TaskId)
    | StopsBeat(id: TaskId)
    | Completes(id: TaskId, completion: Completion)
    | AwaitsBeat(id: TaskId)
    | AwaitsRunner(id: TaskId)
    | Cleans(id: TaskId)
    | Observes(id: TaskId)
    | Reaps
    | Stopped

  predicate RunnerEnded(r: RunnerState) {
    r.RunnerReturned? || r.RunnerRaised? || r.RunnerCancelled?
  }

  /** The heartbeat ended by itself, by a lost fence or an error. */
  predicate BeatEnded(b: BeatState) {
    b.BeatLost? || b.BeatRaised?
  }

  predicate Takes(d: RunDisposition) {
    d.RunSucceeded? || d.RunFailed?
  }

  // ---------------------------------------------------------------- the supervised coroutine

  /** Into the exit block: heartbeat and runner are asked to stop. */
  function Exit(x: Task): Task {
    x.(pc := AtAwaitBeat)
  }

  function Bound(x: Task, b: Binding): Task {
    match b
    case Bindable => x.(pc := AtWait, runner := RunnerRunning, beat := Beating)
    case Unavailable => x.(pc := AtComplete(RunFailed, true))
    case BindError => Exit(x)
  }

  /** The wait for whichever ends first is over: the heartbeat is looked at before the runner. */
  function Woken(x: Task): Task {
    match x.beat
    case BeatLost => x.(pc := AtDrain)
    case BeatRaised(lookup) => if lookup then x.(pc := AtComplete(RunFailed, true)) else Exit(x)
    case _ =>
      match x.runner
      case RunnerReturned(d) => x.(pc := AtStopBeat(d))
      case RunnerRaised(lookup) => if lookup then x.(pc := AtComplete(RunFailed, true)) else Exit(x)
      case _ => Exit(x)
  }

  /** After a lost heartbeat the cancelled runner is awaited; a lookup error of its own is still completed. */
  function Drained(x: Task): Task {
    if x.runner == RunnerRaised(true) then x.(pc := AtComplete(RunFailed, true)) else Exit(x)
  }

  /** A lookup error of the completer itself is completed once more, as a failure. */
  function Completed(x: Task, c: Completion): Task
    requires x.pc.AtComplete?
  {
    var takes := Takes(x.pc.disposition);
    var y := x.(held := x.held && !takes, taken := x.taken || takes);
    if c.CompleterLookup? && !x.pc.final then y.(pc := AtComplete(RunFailed, true)) else Exit(y)
  }

  /** The first await of the exit block: what the heartbeat ended with is raised again, unless it was cancelled. */
  function BeatAwaited(x: Task): Task {
    if BeatEnded(x.beat) then x.(pc := Done(false))
    else x.(pc := AtAwaitRunner, beat := if x.beat.Beating? then BeatCancelled else x.beat)
  }

  /** The second: so is what the runner ended with. */
  function RunnerAwaited(x: Task): Task {
    if x.runner.RunnerRaised? then x.(pc := Done(false)) else x.(pc := AtCleanup)
  }

  // ---------------------------------------------------------------- the steps

  predicate At(s: System, t: TaskId, pc: Pc) {
    t in s.all && s.all[t].pc == pc
  }

  predicate Fresh(s: System, m: MemorialId, claim: Option<Authority>, t: TaskId) {
    && t !in s.all
    && (claim.Some? ==>
          && claim.value.memorial == m
          // the ledger binds an attempt to one Memorial and never issues a token twice
          && (claim.value.attempt in s.tasks && s.tasks[claim.value.attempt] in s.all ==>
                s.all[s.tasks[claim.value.attempt]].auth.memorial == m)
          && (forall u :: u in s.all ==> KeyOf(s.all[u].auth) != KeyOf(claim.value)))
  }

  predicate Enabled(s: System, k: Step) {
    match k
    case Dispatches(m, claim, t) => Fresh(s, m, claim, t)
    case Binds(t, _) => At(s, t, AtBind)
    case Stores(t, _) => t in s.all && s.all[t].runner.RunnerRunning?
    case RunnerEnds(t, r) => t in s.all && s.all[t].runner.RunnerRunning? && RunnerEnded(r)
    case BeatEnds(t, b) => At(s, t, AtWait) && s.all[t].beat.Beating? && BeatEnded(b)
    case Wakes(t) => At(s, t, AtWait) && (RunnerEnded(s.all[t].runner) || BeatEnded(s.all[t].beat))
    case Interrupts(t) => At(s, t, AtBind) || At(s, t, AtWait)
    case Drains(t) => At(s, t, AtDrain) && RunnerEnded(s.all[t].runner)
    case StopsBeat(t) => t in s.all && s.all[t].pc.AtStopBeat?
    case Completes(t, _) => t in s.all && s.all[t].pc.AtComplete?
    case AwaitsBeat(t) => At(s, t, AtAwaitBeat)
    case AwaitsRunner(t) => At(s, t, AtAwaitRunner) && !s.all[t].runner.RunnerRunning?
    case Cleans(t) => At(s, t, AtCleanup)
    case Observes(t) => t in s.all && s.all[t].pc.Done?
    case Reaps => true
    case Stopped => true
  }

  function Wins(s: System, m: MemorialId, claim: Option<Authority>): bool {
    !s.stopping && m !in s.memorialTasks && claim.Some?
  }

  function Dispatched(s: System, m: MemorialId, claim: Option<Authority>, t: TaskId): System {
    if !Wins(s, m, claim) then s
    else
      s.(tasks := s.tasks[claim.value.attempt := t], memorialTasks := s.memorialTasks[m := t], idle := false,
         all := s.all[t := Task(claim.value, AtBind, NoRunner, NoBeat, false, false)])
  }

  function SetTask(s: System, t: TaskId, x: Task): System {
    s.(all := s.all[t := x])
  }

  /** `_observe_task` */
  function Observed(s: System, t: TaskId): System
    requires t in s.all
  {
    var a, m := s.all[t].auth.attempt, s.all[t].auth.memorial;
    var tasks := if a in s.tasks && s.tasks[a] == t then s.tasks - {a} else s.tasks;
    s.(tasks := tasks,
       memorialTasks := if m in s.memorialTasks && s.memorialTasks[m] == t then s.memorialTasks - {m} else s.memorialTasks,
       idle := s.idle || tasks == map[])
  }

  predicate IsDone(all: map<TaskId, Task>, t: TaskId) {
    t in all && all[t].pc.Done?
  }

  /** `_reap_completed_tasks` */
  function Reaped(s: System): System {
    var tasks := map a | a in s.tasks && !IsDone(s.all, s.tasks[a]) :: s.tasks[a];
    s.(tasks := tasks,
       memorialTasks := map m | m in s.memorialTasks && !IsDone(s.all, s.memorialTasks[m]) :: s.memorialTasks[m],
       idle := s.idle || tasks == map[])
  }

  function Next(s: System, k: Step): System
    requires Enabled(s, k)
  {
    match k
    case Dispatches(m, claim, t) => Dispatched(s, m, claim, t)
    case Binds(t, b) => SetTask(s, t, Bound(s.all[t], b))
    case Stores(t, p) =>
      SetTask(s, t, s.all[t].(held := true)).(projections := RX.Stored(s.projections, s.all[t].auth, p))
    case RunnerEnds(t, r) => SetTask(s, t, s.all[t].(runner := r))
    case BeatEnds(t, b) => SetTask(s, t, s.all[t].(beat := b))
    case Wakes(t) => SetTask(s, t, Woken(s.all[t]))
    case Interrupts(t) => SetTask(s, t, if s.all[t].pc.AtBind? then s.all[t].(pc := Done(false)) else Exit(s.all[t]))
    case Drains(t) => SetTask(s, t, Drained(s.all[t]))
    case StopsBeat(t) => SetTask(s, t, s.all[t].(beat := BeatCancelled, pc := AtComplete(s.all[t].pc.disposition, false)))
    case Completes(t, c) =>
      SetTask(s, t, Completed(s.all[t], c)).(
        projections := if Takes(s.all[t].pc.disposition) then RX.Removed(s.projections, s.all[t].auth) else s.projections)
    case AwaitsBeat(t) => SetTask(s, t, BeatAwaited(s.all[t]))
    case AwaitsRunner(t) => SetTask(s, t, RunnerAwaited(s.all[t]))
    case Cleans(t) =>
      SetTask(s, t, s.all[t].(pc := Done(true), held := false)).(projections := RX.Removed(s.projections, s.all[t].auth))
    case Observes(t) => Observed(s, t)
    case Reaps => Reaped(s)
    case Stopped => s.(stopping := true)
  }

  // ---------------------------------------------------------------- tasks

  /** What is known of runner and heartbeat at each point of the coroutine. */
  predicate TaskWell(x: Task) {
    && (x.runner.NoRunner? <==> x.beat.NoBeat?)
    && (x.held ==> !x.runner.NoRunner?)
    && match x.pc
       case AtBind => x.runner.NoRunner? && !x.taken
       case AtWait => !x.runner.NoRunner? && !x.beat.BeatCancelled? && !x.taken
       case AtDrain => x.beat.BeatLost? && !x.taken
       case AtStopBeat(d) => x.runner == RunnerReturned(d) && x.beat.Beating? && !x.taken
       case AtComplete(d, final) =>
         if final then d.RunFailed? && FailsFinally(x)
         else x.runner == RunnerReturned(d) && x.beat.BeatCancelled? && !x.taken
       case AtAwaitBeat => TakenWell(x)
       case AtAwaitRunner => !BeatEnded(x.beat) && !x.beat.Beating? && TakenWell(x)
       case AtCleanup => !BeatEnded(x.beat) && !x.beat.Beating? && !x.runner.RunnerRunning? && !x.runner.RunnerRaised?
       case Done(cleaned) =>
         if cleaned then !BeatEnded(x.beat) && !x.runner.RunnerRunning? && !x.runner.RunnerRaised? && !x.held
         else (BeatEnded(x.beat) || x.runner.RunnerRaised? || x.runner.NoRunner?) && TakenWell(x)
  }

  /** Why a failure is completed in the error handler: no runtime, or a lookup error of heartbeat, runner or completer. */
  predicate FailsFinally(x: Task) {
    || x.runner.NoRunner?
    || x.beat == BeatRaised(true)
    || (x.runner == RunnerRaised(true) && (x.beat.BeatLost? || x.beat.Beating?))
    || (x.runner.RunnerReturned? && x.beat.BeatCancelled?)
  }

  /** A task that lost its heartbeat, or failed otherwise than by a lookup error, was never completed. */
  predicate TakenWell(x: Task) {
    && (x.beat.BeatLost? && x.runner != RunnerRaised(true) ==> !x.taken)
    && (x.beat == BeatRaised(false) ==> !x.taken)
    && (!BeatEnded(x.beat) && x.runner == RunnerRaised(false) ==> !x.taken)
    && (x.taken && x.runner.RunnerRunning? ==> x.beat == BeatRaised(true))
  }

  ghost predicate KeysApart(all: map<TaskId, Task>) {
    forall t, u :: t in all && u in all && t != u ==> KeyOf(all[t].auth) != KeyOf(all[u].auth)
  }

  ghost predicate ProjectionsWell(s: System) {
    && (forall t :: t in s.all ==> (KeyOf(s.all[t].auth) in s.projections <==> s.all[t].held))
    && (forall k :: k in s.projections ==> Owned(s.all, k))
  }

  // ---------------------------------------------------------------- the two maps

  /** Both maps hold the same tasks, each under its own attempt and Memorial. */
  ghost predicate InStep(s: System) {
    && (forall a :: a in s.tasks ==>
          && s.tasks[a] in s.all && s.all[s.tasks[a]].auth.attempt == a
          && s.all[s.tasks[a]].auth.memorial in s.memorialTasks
          && s.memorialTasks[s.all[s.tasks[a]].auth.memorial] == s.tasks[a])
    && (forall m :: m in s.memorialTasks ==>
          && s.memorialTasks[m] in s.all && s.all[s.memorialTasks[m]].auth.memorial == m
          && s.all[s.memorialTasks[m]].auth.attempt in s.tasks
          && s.tasks[s.all[s.memorialTasks[m]].auth.attempt] == s.memorialTasks[m])
  }

  /** Every task that is not done is in the maps. */
  ghost predicate AllSupervised(s: System) {
    forall t :: t in s.all && !s.all[t].pc.Done? ==> s.all[t].auth.attempt in s.tasks && s.tasks[s.all[t].auth.attempt] == t
  }

  ghost predicate MapsWell(s: System) {
    InStep(s) && AllSupervised(s) && (s.idle <==> s.tasks == map[])
  }

  ghost predicate Inv(s: System) {
    && MapsWell(s)
    && (forall t :: t in s.all ==> TaskWell(s.all[t]))
    && KeysApart(s.all) && ProjectionsWell(s)
  }

  /** The maps are a bijection: one task per attempt and per Memorial, the same tasks in both. */
  lemma InStepIsBijection(s: System)
    requires InStep(s)
    ensures forall a, b :: a in s.tasks && b in s.tasks && s.tasks[a] == s.tasks[b] ==> a == b
    ensures forall m, n :: m in s.memorialTasks && n in s.memorialTasks && s.memorialTasks[m] == s.memorialTasks[n] ==> m == n
    ensures s.tasks.Values == s.memorialTasks.Values
    ensures s.tasks == map[] <==> s.memorialTasks == map[]
  {
    assert forall a :: a in s.tasks ==> s.tasks[a] in s.memorialTasks.Values;
    assert forall m :: m in s.memorialTasks ==> s.memorialTasks[m] in s.tasks.Values;
    if s.tasks == map[] {
      assert forall m :: m !in s.memorialTasks;
    }
    if s.memorialTasks == map[] {
      assert forall a :: a !in s.tasks;
    }
  }

  // ---------------------------------------------------------------- every step keeps the invariant

  lemma MapsUnderTask(s: System, t: TaskId, x: Task)
    requires MapsWell(s) && t in s.all && x.auth == s.all[t].auth && (s.all[t].pc.Done? ==> x.pc.Done?)
    ensures MapsWell(SetTask(s, t, x))
  {
  }

  ghost predicate Owned(all: map<TaskId, Task>, k: ProjectionKey) {
    exists t :: t in all && KeyOf(all[t].auth) == k
  }

  lemma OwnedStays(all: map<TaskId, Task>, t: TaskId, x: Task, k: ProjectionKey)
    requires Owned(all, k) && t in all && x.auth == all[t].auth
    ensures Owned(all[t := x], k)
  {
    var u :| u in all && KeyOf(all[u].auth) == k;
    assert u in all[t := x];
  }

  lemma ProjectionsUnderTask(s: System, t: TaskId, x: Task)
    requires ProjectionsWell(s) && t in s.all && x.auth == s.all[t].auth && x.held == s.all[t].held
    ensures ProjectionsWell(SetTask(s, t, x))
  {
    forall k | k in s.projections ensures Owned(s.all[t := x], k) {
      OwnedStays(s.all, t, x, k);
    }
  }

  /** A step of one task that leaves the projections alone. */
  lemma TaskKeeps(s: System, t: TaskId, x: Task)
    requires Inv(s) && t in s.all && x.auth == s.all[t].auth && (s.all[t].pc.Done? ==> x.pc.Done?)
    requires TaskWell(x) && x.held == s.all[t].held
    ensures Inv(SetTask(s, t, x))
  {
    MapsUnderTask(s, t, x);
    ProjectionsUnderTask(s, t, x);
  }

  lemma ProjectionsUnderWrite(s: System, t: TaskId, x: Task, ps: map<ProjectionKey, RX.Projected>)
    requires KeysApart(s.all) && ProjectionsWell(s) && t in s.all && x.auth == s.all[t].auth
    requires forall k :: k != KeyOf(x.auth) ==> (k in ps <==> k in s.projections)
    requires KeyOf(x.auth) in ps <==> x.held
    ensures ProjectionsWell(SetTask(s, t, x).(projections := ps))
  {
    var all := s.all[t := x];
    forall u | u in all ensures KeyOf(all[u].auth) in ps <==> all[u].held {
      if u != t {
        assert KeyOf(s.all[u].auth) != KeyOf(s.all[t].auth);
      }
    }
    forall k | k in ps ensures Owned(all, k) {
      if k == KeyOf(x.auth) {
        assert t in all;
      } else {
        OwnedStays(s.all, t, x, k);
      }
    }
  }

  /** One that writes its own. */
  lemma WriteKeeps(s: System, t: TaskId, x: Task, ps: map<ProjectionKey, RX.Projected>)
    requires Inv(s) && t in s.all && x.auth == s.all[t].auth && (s.all[t].pc.Done? ==> x.pc.Done?) && TaskWell(x)
    requires forall k :: k != KeyOf(x.auth) ==> (k in ps <==> k in s.projections)
    requires KeyOf(x.auth) in ps <==> x.held
    ensures Inv(SetTask(s, t, x).(projections := ps))
  {
    MapsUnderTask(s, t, x);
    ProjectionsUnderWrite(s, t, x, ps);
  }

  lemma DispatchMaps(s: System, m: MemorialId, claim: Option<Authority>, t: TaskId)
    requires MapsWell(s) && Fresh(s, m, claim, t)
    ensures MapsWell(Dispatched(s, m, claim, t))
    ensures Wins(s, m, claim) ==> claim.value.attempt !in s.tasks
  {
  }

  lemma DispatchProjections(s: System, m: MemorialId, claim: Option<Authority>, t: TaskId)
    requires KeysApart(s.all) && ProjectionsWell(s) && Fresh(s, m, claim, t) && Wins(s, m, claim)
    ensures KeysApart(Dispatched(s, m, claim, t).all) && ProjectionsWell(Dispatched(s, m, claim, t))
  {
    var next := Dispatched(s, m, claim, t);
    forall k | k in s.projections ensures Owned(next.all, k) && k != KeyOf(claim.value) {
      assert Owned(s.all, k);
      var u :| u in s.all && KeyOf(s.all[u].auth) == k;
      assert u in next.all;
    }
  }

  lemma DispatchKeeps(s: System, m: MemorialId, claim: Option<Authority>, t: TaskId)
    requires Inv(s) && Fresh(s, m, claim, t)
    ensures Inv(Dispatched(s, m, claim, t))
  {
    if Wins(s, m, claim) {
      DispatchMaps(s, m, claim, t);
      DispatchProjections(s, m, claim, t);
    }
  }

  lemma ObserveMaps(s: System, t: TaskId)
    requires MapsWell(s) && IsDone(s.all, t)
    ensures MapsWell(Observed(s, t))
  {
  }

  lemma ReapMaps(s: System)
    requires MapsWell(s)
    ensures MapsWell(Reaped(s))
  {
    assert s.tasks == map[] ==> Reaped(s).tasks == map[];
  }

  lemma BoundWell(x: Task, b: Binding)
    requires TaskWell(x) && x.pc.AtBind?
    ensures TaskWell(Bound(x, b)) && Bound(x, b).held == x.held
  {
  }

  lemma WokenWell(x: Task)
    requires TaskWell(x) && x.pc.AtWait? && (RunnerEnded(x.runner) || BeatEnded(x.beat))
    ensures TaskWell(Woken(x)) && Woken(x).held == x.held
  {
  }

  lemma ExitWell(x: Task)
    requires TaskWell(x) && (x.pc.AtBind? || x.pc.AtWait?)
    ensures TaskWell(Exit(x)) && Exit(x).held == x.held
    ensures x.pc.AtBind? ==> TaskWell(x.(pc := Done(false)))
  {
  }

  lemma DrainedWell(x: Task)
    requires TaskWell(x) && x.pc.AtDrain? && RunnerEnded(x.runner)
    ensures TaskWell(Drained(x)) && Drained(x).held == x.held
  {
  }

  lemma BeatAwaitedWell(x: Task)
    requires TaskWell(x) && x.pc.AtAwaitBeat?
    ensures TaskWell(BeatAwaited(x)) && BeatAwaited(x).held == x.held
  {
  }

  lemma RunnerAwaitedWell(x: Task)
    requires TaskWell(x) && x.pc.AtAwaitRunner? && !x.runner.RunnerRunning?
    ensures TaskWell(RunnerAwaited(x)) && RunnerAwaited(x).held == x.held
  {
  }

  lemma CompletedWell(x: Task, c: Completion)
    requires TaskWell(x) && x.pc.AtComplete?
    ensures TaskWell(Completed(x, c)) && Completed(x, c).auth == x.auth
    ensures if Takes(x.pc.disposition) then !Completed(x, c).held else Completed(x, c).held == x.held
  {
  }

  lemma EndedWell(x: Task, r: RunnerState)
    requires TaskWell(x) && x.runner.RunnerRunning? && RunnerEnded(r)
    ensures TaskWell(x.(runner := r)) && x.(runner := r).held == x.held
  {
  }

  predicate InCoroutine(k: Step) {
    k.Binds? || k.Wakes? || k.Interrupts? || k.Drains? || k.StopsBeat? || k.AwaitsBeat? || k.AwaitsRunner?
  }

  lemma AdvanceWell(s: System, k: Step)
    requires Enabled(s, k) && InCoroutine(k) && TaskWell(s.all[k.id])
    ensures var x := s.all[k.id];
            && k.id in Next(s, k).all && Next(s, k) == SetTask(s, k.id, Next(s, k).all[k.id])
            && var y := Next(s, k).all[k.id];
               y.auth == x.auth && TaskWell(y) && y.held == x.held && !x.pc.Done?
  {
    var x := s.all[k.id];
    if k.Binds? {
      BoundWell(x, k.binding);
    } else if k.Wakes? {
      WokenWell(x);
    } else if k.Interrupts? {
      ExitWell(x);
    } else if k.Drains? {
      DrainedWell(x);
    } else if k.AwaitsBeat? {
      BeatAwaitedWell(x);
    } else if k.AwaitsRunner? {
      RunnerAwaitedWell(x);
    }
  }

  lemma CoroutineKeeps(s: System, k: Step)
    requires Inv(s) && Enabled(s, k) && InCoroutine(k)
    ensures Inv(Next(s, k))
  {
    AdvanceWell(s, k);
    TaskKeeps(s, k.id, Next(s, k).all[k.id]);
  }

  lemma EndKeeps(s: System, k: Step)
    requires Inv(s) && Enabled(s, k) && (k.RunnerEnds? || k.BeatEnds?)
    ensures Inv(Next(s, k))
  {
    var x := s.all[k.id];
    assert TaskWell(x);
    if k.RunnerEnds? {
      EndedWell(x, k.runner);
      TaskKeeps(s, k.id, x.(runner := k.runner));
    } else {
      TaskKeeps(s, k.id, x.(beat := k.beat));
    }
  }

  lemma ProjectionKeeps(s: System, k: Step)
    requires Inv(s) && Enabled(s, k) && (k.Stores? || k.Cleans?)
    ensures Inv(Next(s, k))
  {
    var x := s.all[k.id];
    assert TaskWell(x);
    if k.Stores? {
      WriteKeeps(s, k.id, x.(held := true), RX.Stored(s.projections, x.auth, k.projection));
    } else {
      WriteKeeps(s, k.id, x.(pc := Done(true), held := false), RX.Removed(s.projections, x.auth));
    }
  }

  lemma CompleteKeeps(s: System, t: TaskId, c: Completion)
    requires Inv(s) && Enabled(s, Completes(t, c))
    ensures Inv(Next(s, Completes(t, c)))
  {
    var x := s.all[t];
    assert TaskWell(x);
    CompletedWell(x, c);
    if Takes(x.pc.disposition) {
      WriteKeeps(s, t, Completed(x, c), RX.Removed(s.projections, x.auth));
    } else {
      TaskKeeps(s, t, Completed(x, c));
    }
  }

  lemma MapKeeps(s: System, k: Step)
    requires Inv(s) && Enabled(s, k) && (k.Observes? || k.Reaps? || k.Stopped?)
    ensures Inv(Next(s, k))
  {
    if k.Observes? {
      ObserveMaps(s, k.id);
    } else if k.Reaps? {
      ReapMaps(s);
    }
  }

  lemma StepKeeps(s: System, k: Step)
    requires Inv(s) && Enabled(s, k)
    ensures Inv(Next(s, k))
  {
    if k.Dispatches? {
      DispatchKeeps(s, k.memorial, k.claim, k.id);
    } else if k.Stores? || k.Cleans? {
      ProjectionKeeps(s, k);
    } else if k.Completes? {
      CompleteKeeps(s, k.id, k.completion);
    } else if k.RunnerEnds? || k.BeatEnds? {
      EndKeeps(s, k);
    } else if k.Observes? || k.Reaps? || k.Stopped? {
      MapKeeps(s, k);
    } else {
      CoroutineKeeps(s, k);
    }
  }

  // ---------------------------------------------------------------- runs

  ghost predicate StepAt(states: seq<System>, steps: seq<Step>, i: nat)
    requires |states| == |steps| + 1 && i < |steps|
  {
    Enabled(states[i], steps[i]) && states[i + 1] == Next(states[i], steps[i])
  }

  ghost predicate Run(states: seq<System>, steps: seq<Step>) {
    && |states| == |steps| + 1 && states[0] == IDLE
    && forall i :: 0 <= i < |steps| ==> StepAt(states, steps, i)
  }

  lemma {:induction false} RunInv(states: seq<System>, steps: seq<Step>, i: nat)
    requires Run(states, steps) && i < |states|
    ensures Inv(states[i])
  {
    if i > 0 {
      RunInv(states, steps, i - 1);
      assert StepAt(states, steps, i - 1);
      StepKeeps(states[i - 1], steps[i - 1]);
    }
  }

  /** Over every interleaving the maps stay in bijection with one task per Memorial, every unfinished task is in
      them, and the idle flag is set exactly when both are empty. */
  lemma MapsInStep(states: seq<System>, steps: seq<Step>, i: nat)
    requires Run(states, steps) && i < |states|
    ensures InStep(states[i]) && AllSupervised(states[i])
    ensures states[i].tasks.Values == states[i].memorialTasks.Values
    ensures states[i].idle <==> states[i].tasks == map[] && states[i].memorialTasks == map[]
  {
    RunInv(states, steps, i);
    InStepIsBijection(states[i]);
  }

  /** In every state a stored projection belongs to a task that has not run its exit cleanup. */
  lemma ProjectionsBelongToUncleaned(states: seq<System>, steps: seq<Step>, i: nat, k: ProjectionKey)
    requires Run(states, steps) && i < |states| && k in states[i].projections
    ensures exists t :: t in states[i].all && KeyOf(states[i].all[t].auth) == k && states[i].all[t].pc != Done(true)
  {
    RunInv(states, steps, i);
    assert Owned(states[i].all, k);
    var t :| t in states[i].all && KeyOf(states[i].all[t].auth) == k;
    assert TaskWell(states[i].all[t]);
  }

  /** Exactly which tasks leave a projection behind: those that still hold one when they end, which takes a heartbeat
      that ended by itself or a runner that raised, because the exit block awaits both before it cleans up. */
  lemma LeaksIff(states: seq<System>, steps: seq<Step>, i: nat, t: TaskId)
    requires Run(states, steps) && i < |states| && t in states[i].all && states[i].all[t].pc.Done?
    ensures var x := states[i].all[t];
            && (KeyOf(x.auth) in states[i].projections <==> x.held)
            && (x.held ==> BeatEnded(x.beat) || x.runner.RunnerRaised?)
            && (x.pc == Done(true) <==> !(BeatEnded(x.beat) || x.runner.RunnerRaised?) && !NeverRan(x))
  {
    RunInv(states, steps, i);
    assert TaskWell(states[i].all[t]);
  }

  /** The task was cancelled before its coroutine ran at all. */
  predicate NeverRan(x: Task) {
    x.pc == Done(false) && x.runner.NoRunner?
  }

  // ---------------------------------------------------------------- in terms of the run's steps

  /** Step `j` lets the runner of `t` store a projection. */
  predicate StoresAt(steps: seq<Step>, j: int, t: TaskId) {
    0 <= j < |steps| && steps[j].Stores? && steps[j].id == t
  }

  /** Step `j` calls the completer of `t` with a terminal result. */
  predicate TakesAt(states: seq<System>, steps: seq<Step>, j: int, t: TaskId) {
    && 0 <= j < |steps| && |states| == |steps| + 1 && steps[j].Completes? && steps[j].id == t
    && t in states[j].all && states[j].all[t].pc.AtComplete?
    && states[j].all[t].pc.disposition in {RunSucceeded, RunFailed}
  }

  predicate CleansAt(steps: seq<Step>, j: int, t: TaskId) {
    0 <= j < |steps| && steps[j].Cleans? && steps[j].id == t
  }

  /** Step `j` stores a projection that no step before `i` takes or cleans up. */
  ghost predicate StoresForGood(states: seq<System>, steps: seq<Step>, j: int, i: int, t: TaskId) {
    && j < i && StoresAt(steps, j, t)
    && forall l :: j < l < i ==> !TakesAt(states, steps, l, t) && !CleansAt(steps, l, t)
  }

  ghost predicate StoredForGood(states: seq<System>, steps: seq<Step>, i: int, t: TaskId) {
    exists j :: 0 <= j && StoresForGood(states, steps, j, i, t)
  }

  // ---------------------------------------------------------------- what is completed

  /** The step owes the task a completion with this disposition: its runtime is unavailable, its runner returned under a
      beating heart, or heartbeat, runner or the first completion itself ended in a lookup error. */
  predicate Owes(x: Task, k: Step, d: RunDisposition) {
    || (k.Binds? && k.binding.Unavailable? && d == RunFailed)
    || (k.Wakes? && x.beat == Beating && x.runner == RunnerReturned(d))
    || (k.Wakes? && x.beat == Beating && x.runner == RunnerRaised(true) && d == RunFailed)
    || (k.Wakes? && x.beat == BeatRaised(true) && d == RunFailed)
    || (k.Drains? && x.runner == RunnerRaised(true) && d == RunFailed)
    || (k.Completes? && k.completion == CompleterLookup && x.pc.AtComplete? && !x.pc.final && d == RunFailed)
  }

  predicate MayOwe(k: Step) {
    k.Binds? || k.Wakes? || k.Drains? || k.Completes?
  }

  predicate OwesAt(states: seq<System>, steps: seq<Step>, i: int, t: TaskId, d: RunDisposition) {
    && 0 <= i < |steps| && |states| == |steps| + 1 && MayOwe(steps[i])
    && steps[i].id == t && t in states[i].all && Owes(states[i].all[t], steps[i], d)
  }

  /** Step `k` calls the completer of `t` with this disposition. */
  predicate CompletesAt(states: seq<System>, steps: seq<Step>, k: int, t: TaskId, d: RunDisposition) {
    && 0 <= k < |steps| && |states| == |steps| + 1 && steps[k].Completes? && steps[k].id == t
    && t in states[k].all && states[k].all[t].pc.AtComplete? && states[k].all[t].pc.disposition == d
  }

  /** The coroutine is on its way to the completer. */
  predicate Due(x: Task, d: RunDisposition) {
    x.pc == AtStopBeat(d) || (x.pc.AtComplete? && x.pc.disposition == d)
  }

  lemma OwedIsDue(s: System, k: Step, d: RunDisposition)
    requires Enabled(s, k) && MayOwe(k) && TaskWell(s.all[k.id])
    ensures Owes(s.all[k.id], k, d) <==> Due(Next(s, k).all[k.id], d)
  {
  }

  lemma DueStays(s: System, k: Step, t: TaskId, d: RunDisposition)
    requires Enabled(s, k) && t in s.all && Due(s.all[t], d) && !(k.Completes? && k.id == t)
    ensures t in Next(s, k).all && Due(Next(s, k).all[t], d)
  {
  }

  lemma {:induction false} DueIsCompleted(states: seq<System>, steps: seq<Step>, i: nat, j: nat, t: TaskId, d: RunDisposition)
    returns (k: nat)
    requires Run(states, steps) && i <= j < |states| && t in states[i].all && Due(states[i].all[t], d)
    requires t in states[j].all && states[j].all[t].pc.Done?
    ensures i <= k < j && CompletesAt(states, steps, k, t, d)
    decreases j - i
  {
    assert StepAt(states, steps, i);
    if steps[i].Completes? && steps[i].id == t {
      k := i;
    } else {
      DueStays(states[i], steps[i], t, d);
      k := DueIsCompleted(states, steps, i + 1, j, t, d);
    }
  }

  /** Whatever a step owes a task is completed with that very disposition before the task ends. */
  lemma OwedIsCompleted(states: seq<System>, steps: seq<Step>, i: nat, j: nat, t: TaskId, d: RunDisposition) returns (k: nat)
    requires Run(states, steps) && i < j < |states| && OwesAt(states, steps, i, t, d)
    requires t in states[j].all && states[j].all[t].pc.Done?
    ensures i < k < j && CompletesAt(states, steps, k, t, d)
  {
    RunInv(states, steps, i);
    assert StepAt(states, steps, i);
    OwedIsDue(states[i], steps[i], d);
    k := DueIsCompleted(states, steps, i + 1, j, t, d);
  }

  lemma DueBefore(s: System, k: Step, t: TaskId, d: RunDisposition)
    requires Enabled(s, k) && t in Next(s, k).all && Due(Next(s, k).all[t], d) && (t in s.all ==> TaskWell(s.all[t]))
    ensures || (t in s.all && Due(s.all[t], d) && !(k.Completes? && k.id == t))
            || (MayOwe(k) && k.id == t && t in s.all && Owes(s.all[t], k, d))
  {
    if MayOwe(k) && k.id == t {
      OwedIsDue(s, k, d);
    }
  }

  /** And nothing else is completed: every completion was owed by an earlier step. */
  lemma {:induction false} CompletedWasOwed(states: seq<System>, steps: seq<Step>, i: nat, t: TaskId, d: RunDisposition)
    requires Run(states, steps) && i < |states| && t in states[i].all && Due(states[i].all[t], d)
    ensures exists k :: 0 <= k < i && OwesAt(states, steps, k, t, d)
    decreases i
  {
    assert i > 0;
    RunInv(states, steps, i - 1);
    assert StepAt(states, steps, i - 1);
    DueBefore(states[i - 1], steps[i - 1], t, d);
    if t in states[i - 1].all && Due(states[i - 1].all[t], d) && !(steps[i - 1].Completes? && steps[i - 1].id == t) {
      CompletedWasOwed(states, steps, i - 1, t, d);
    } else {
      assert OwesAt(states, steps, i - 1, t, d);
    }
  }

  /** What one step does to the marks of a task. */
  lemma MarksStep(s: System, k: Step, t: TaskId)
    requires Enabled(s, k) && t in s.all
    ensures t in Next(s, k).all
    ensures var x, y := s.all[t], Next(s, k).all[t];
            var takes := k.Completes? && k.id == t && Takes(x.pc.disposition);
            && (y.held <==> (k.Stores? && k.id == t) || (x.held && !takes && !(k.Cleans? && k.id == t)))
            && (y.taken <==> x.taken || takes)
            && (x.pc.Done? ==> y.pc == x.pc)
            && (k.Cleans? && k.id == t ==> y.pc == Done(true))
  {
  }

  lemma NewTask(s: System, k: Step, t: TaskId)
    requires Enabled(s, k) && t in Next(s, k).all && t !in s.all
    ensures k.Dispatches? && k.id == t && !Next(s, k).all[t].held && !Next(s, k).all[t].taken
  {
  }

  lemma {:induction false} TasksStay(states: seq<System>, steps: seq<Step>, i: nat, j: nat, t: TaskId)
    requires Run(states, steps) && i <= j < |states| && t in states[i].all
    ensures t in states[j].all
    ensures states[i].all[t].pc.Done? ==> states[j].all[t].pc == states[i].all[t].pc
    decreases j
  {
    if i < j {
      TasksStay(states, steps, i, j - 1, t);
      assert StepAt(states, steps, j - 1);
      MarksStep(states[j - 1], steps[j - 1], t);
    }
  }

  lemma NothingBefore(states: seq<System>, steps: seq<Step>, i: nat, t: TaskId)
    requires Run(states, steps) && 0 < i < |states| && t !in states[i - 1].all && t in states[i].all
    ensures forall j :: 0 <= j < i ==> !StoresAt(steps, j, t) && !TakesAt(states, steps, j, t)
  {
    assert StepAt(states, steps, i - 1);
    NewTask(states[i - 1], steps[i - 1], t);
    forall j | 0 <= j < i ensures !StoresAt(steps, j, t) && !TakesAt(states, steps, j, t) {
      assert StepAt(states, steps, j);
      if t in states[j].all { TasksStay(states, steps, j, i - 1, t); }
    }
  }

  lemma ForGoodStep(states: seq<System>, steps: seq<Step>, i: nat, t: TaskId)
    requires Run(states, steps) && 0 < i < |states| && t in states[i - 1].all && t in states[i].all
    requires states[i - 1].all[t].held <==> StoredForGood(states, steps, i - 1, t)
    ensures states[i].all[t].held <==> StoredForGood(states, steps, i, t)
  {
    assert StepAt(states, steps, i - 1);
    MarksStep(states[i - 1], steps[i - 1], t);
    if states[i].all[t].held {
      if StoresAt(steps, i - 1, t) {
        assert StoresForGood(states, steps, i - 1, i, t);
      } else {
        var j :| 0 <= j && StoresForGood(states, steps, j, i - 1, t);
        assert StoresForGood(states, steps, j, i, t);
      }
    }
    if j :| 0 <= j && StoresForGood(states, steps, j, i, t) && j < i - 1 {
      assert StoresForGood(states, steps, j, i - 1, t);
      assert !TakesAt(states, steps, i - 1, t) && !CleansAt(steps, i - 1, t);
    }
  }

  /** The marks are history: a task holds a projection if and only if some step stored one that no later step took or
      cleaned up. */
  lemma {:induction false} HeldIsHistory(states: seq<System>, steps: seq<Step>, i: nat, t: TaskId)
    requires Run(states, steps) && i < |states| && t in states[i].all
    ensures states[i].all[t].held <==> StoredForGood(states, steps, i, t)
  {
    if t in states[i - 1].all {
      HeldIsHistory(states, steps, i - 1, t);
      ForGoodStep(states, steps, i, t);
    } else {
      assert StepAt(states, steps, i - 1);
      NewTask(states[i - 1], steps[i - 1], t);
      NothingBefore(states, steps, i, t);
    }
  }

  lemma {:induction false} TakenIsHistory(states: seq<System>, steps: seq<Step>, i: nat, t: TaskId)
    requires Run(states, steps) && i < |states| && t in states[i].all
    ensures states[i].all[t].taken <==> exists j :: 0 <= j < i && TakesAt(states, steps, j, t)
  {
    assert StepAt(states, steps, i - 1);
    if t in states[i - 1].all {
      MarksStep(states[i - 1], steps[i - 1], t);
      TakenIsHistory(states, steps, i - 1, t);
      assert steps[i - 1].Completes? && steps[i - 1].id == t && Takes(states[i - 1].all[t].pc.disposition) ==>
          TakesAt(states, steps, i - 1, t);
    } else {
      NewTask(states[i - 1], steps[i - 1], t);
      NothingBefore(states, steps, i, t);
    }
  }

  lemma CleanedIsDone(states: seq<System>, steps: seq<Step>, l: nat, i: nat, t: TaskId)
    requires Run(states, steps) && l < i < |states| && CleansAt(steps, l, t)
    ensures t in states[i].all && states[i].all[t].pc == Done(true)
  {
    assert StepAt(states, steps, l);
    MarksStep(states[l], steps[l], t);
    TasksStay(states, steps, l + 1, i, t);
  }

  /** Step `j` stores a projection that no step before `i` takes. */
  ghost predicate StoresUntaken(states: seq<System>, steps: seq<Step>, j: int, i: int, t: TaskId) {
    j < i && StoresAt(steps, j, t) && forall l :: j < l < i ==> !TakesAt(states, steps, l, t)
  }

  /** The exact condition in terms of the run: an ended task leaves a projection behind if and only if its runner
      stored one after which the completer never asked, and its heartbeat ended by itself or its runner raised. */
  lemma LeaksByHistory(states: seq<System>, steps: seq<Step>, i: nat, t: TaskId)
    requires Run(states, steps) && i < |states| && t in states[i].all && states[i].all[t].pc.Done?
    ensures KeyOf(states[i].all[t].auth) in states[i].projections <==>
              && (exists j :: 0 <= j && StoresUntaken(states, steps, j, i, t))
              && (BeatEnded(states[i].all[t].beat) || states[i].all[t].runner.RunnerRaised?)
  {
    LeaksIff(states, steps, i, t);
    HeldIsHistory(states, steps, i, t);
    if states[i].all[t].held {
      var j :| 0 <= j && StoresForGood(states, steps, j, i, t);
      assert StoresUntaken(states, steps, j, i, t);
    }
    if BeatEnded(states[i].all[t].beat) || states[i].all[t].runner.RunnerRaised? {
      if j :| 0 <= j && StoresUntaken(states, steps, j, i, t) {
        forall l | j < l < i ensures !CleansAt(steps, l, t) {
          if CleansAt(steps, l, t) { CleanedIsDone(states, steps, l, i, t); }
        }
        assert StoresForGood(states, steps, j, i, t);
      }
    }
  }

  /** After a lost heartbeat, or an error that is no lookup error, the completer was never asked: whatever the runner
      stored at any point is left behind. */
  lemma UncompletedLeaks(states: seq<System>, steps: seq<Step>, i: nat, t: TaskId)
    requires Run(states, steps) && i < |states| && t in states[i].all && states[i].all[t].pc.Done?
    requires var x := states[i].all[t];
             || (x.beat.BeatLost? && x.runner != RunnerRaised(true)) || x.beat == BeatRaised(false)
             || (!BeatEnded(x.beat) && x.runner == RunnerRaised(false))
    ensures KeyOf(states[i].all[t].auth) in states[i].projections <==> exists j :: 0 <= j < i && StoresAt(steps, j, t)
  {
    RunInv(states, steps, i);
    assert TaskWell(states[i].all[t]);
    TakenIsHistory(states, steps, i, t);
    LeaksByHistory(states, steps, i, t);
    if j :| 0 <= j < i && StoresAt(steps, j, t) {
      assert StoresUntaken(states, steps, j, i, t);
    }
  }

  /** A task that ended otherwise leaves nothing: its heartbeat was still beating and its runner returned or was
      cancelled. */
  lemma OrderlyTasksLeaveNothing(states: seq<System>, steps: seq<Step>, i: nat, t: TaskId)
    requires Run(states, steps) && i < |states| && t in states[i].all && states[i].all[t].pc.Done?
    requires !BeatEnded(states[i].all[t].beat) && !states[i].all[t].runner.RunnerRaised?
    ensures KeyOf(states[i].all[t].auth) !in states[i].projections
  {
    LeaksIff(states, steps, i, t);
  }

  lemma Extended(states: seq<System>, steps: seq<Step>, k: Step, next: System)
    requires Run(states, steps) && Enabled(states[|steps|], k) && next == Next(states[|steps|], k)
    ensures Run(states + [next], steps + [k])
  {
    var more, longer := states + [next], steps + [k];
    forall i | 0 <= i < |longer| ensures StepAt(more, longer, i) {
      if i < |steps| {
        assert StepAt(states, steps, i);
      }
    }
  }

  lemma Played(states: seq<System>, steps: seq<Step>, k: Step) returns (more: seq<System>, longer: seq<Step>)
    requires Run(states, steps) && Enabled(states[|steps|], k)
    ensures more == states + [Next(states[|steps|], k)] && longer == steps + [k] && Run(more, longer)
  {
    Extended(states, steps, k, Next(states[|steps|], k));
    more, longer := states + [Next(states[|steps|], k)], steps + [k];
  }

  /** The leak happens, for every claim: the runner stores its projection and returns while the heartbeat finds its
      fence lost; the task ends, is observed, and the projection stays. */
  lemma LostHeartbeatLeaks(auth: Authority, p: RX.Projected) returns (states: seq<System>, steps: seq<Step>)
    ensures Run(states, steps) && |steps| == 9 && steps[8] == Observes(1)
    ensures states[9].tasks == map[] && states[9].idle
    ensures 1 in states[9].all && states[9].all[1].auth == auth && states[9].all[1].pc.Done?
    ensures KeyOf(auth) in states[9].projections
  {
    states, steps := LostHeartbeatRun(auth, p);
    states, steps := Played(states, steps, Wakes(1));
    states, steps := Played(states, steps, Drains(1));
    assert states[7].all[1].pc == AtAwaitBeat;
    states, steps := Played(states, steps, AwaitsBeat(1));
    states, steps := Played(states, steps, Observes(1));
    assert states[9].tasks == map[];
  }

  /** A task whose runner has stored and returned, with the heartbeat lost beside it. */
  function Lost(auth: Authority, p: RX.Projected): System {
    System(map[auth.attempt := 1], map[auth.memorial := 1], false, false,
           map[1 := Task(auth, AtWait, RunnerReturned(RunSucceeded), BeatLost, true, false)], map[KeyOf(auth) := p])
  }

  lemma LostHeartbeatRun(auth: Authority, p: RX.Projected) returns (states: seq<System>, steps: seq<Step>)
    ensures Run(states, steps) && |steps| == 5 && states[5] == Lost(auth, p)
  {
    states, steps := [IDLE], [];
    states, steps := Played(states, steps, Dispatches(auth.memorial, Some(auth), 1));
    states, steps := Played(states, steps, Binds(1, Bindable));
    states, steps := Played(states, steps, Stores(1, p));
    states, steps := Played(states, steps, BeatEnds(1, BeatLost));
    states, steps := Played(states, steps, RunnerEnds(1, RunnerReturned(RunSucceeded)));
  }
}
