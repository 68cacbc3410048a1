/** The dispatcher object: `application/run_dispatcher.py`, its fields and the methods that change them. */
module RunDispatcher {
  import opened Durable
  import opened RunSupervision
  import RX = RunExecution

  /** What is left of the tasks while `items` are still to be looked at. */
  ghost predicate ReapedTo(all: map<AttemptId, TaskId>, items: map<AttemptId, TaskId>, tasks: map<AttemptId, TaskId>,
                           runs: map<TaskId, Task>)
  {
    && (forall a :: a in items ==> a in all && items[a] == all[a])
    && (forall a :: a in tasks <==> a in all && (a in items || !IsDone(runs, all[a])))
    && (forall a :: a in tasks ==> tasks[a] == all[a])
  }

  /** The Memorials of tasks that were reaped are gone. */
  ghost predicate ForgottenTo(all: map<MemorialId, TaskId>, left: map<MemorialId, TaskId>, items: map<AttemptId, TaskId>,
                              runs: map<TaskId, Task>)
  {
    && (forall m :: m in left ==> m in all && left[m] == all[m])
    && (forall m :: m in all && !IsDone(runs, all[m]) ==> m in left)
    && (forall m :: m in left && IsDone(runs, left[m]) ==>
          runs[left[m]].auth.attempt in items && items[runs[left[m]].auth.attempt] == left[m])
  }

  lemma ReapOne(all: map<AttemptId, TaskId>, items: map<AttemptId, TaskId>, tasks: map<AttemptId, TaskId>,
                runs: map<TaskId, Task>, a: AttemptId)
    requires ReapedTo(all, items, tasks, runs) && a in items
    ensures a in tasks && tasks[a] == items[a] && |items - {a}| < |items|
    ensures ReapedTo(all, items - {a}, if IsDone(runs, items[a]) then tasks - {a} else tasks, runs)
  {
    assert (items - {a}).Keys == items.Keys - {a};
    assert |items - {a}| == |(items - {a}).Keys| && |items| == |items.Keys|;
  }

  function Forget(memorialTasks: map<MemorialId, TaskId>, task: TaskId): map<MemorialId, TaskId> {
    map m | m in memorialTasks && memorialTasks[m] != task :: memorialTasks[m]
  }

  lemma ForgetOne(all: map<MemorialId, TaskId>, left: map<MemorialId, TaskId>, items: map<AttemptId, TaskId>,
                  runs: map<TaskId, Task>, a: AttemptId)
    requires ForgottenTo(all, left, items, runs) && a in items && items[a] in runs && runs[items[a]].auth.attempt == a
    ensures ForgottenTo(all, if IsDone(runs, items[a]) then Forget(left, items[a]) else left, items - {a}, runs)
  {
  }

  /** Both loops of one round: the task is taken out of both maps if it is done. */
  ghost predicate ReapingTo(s: System, items: map<AttemptId, TaskId>, tasks: map<AttemptId, TaskId>,
                            memorialTasks: map<MemorialId, TaskId>)
  {
    ReapedTo(s.tasks, items, tasks, s.all) && ForgottenTo(s.memorialTasks, memorialTasks, items, s.all)
  }

  lemma ReapBegins(s: System)
    requires InStep(s)
    ensures ReapingTo(s, s.tasks, s.tasks, s.memorialTasks)
  {
  }

  lemma ReapNext(s: System, items: map<AttemptId, TaskId>, tasks: map<AttemptId, TaskId>,
                 memorialTasks: map<MemorialId, TaskId>, a: AttemptId)
    requires InStep(s) && ReapingTo(s, items, tasks, memorialTasks) && a in items
    ensures |items - {a}| < |items|
    ensures if IsDone(s.all, items[a]) then ReapingTo(s, items - {a}, tasks - {a}, Forget(memorialTasks, items[a]))
            else ReapingTo(s, items - {a}, tasks, memorialTasks)
  {
    ReapOne(s.tasks, items, tasks, s.all, a);
    ForgetOne(s.memorialTasks, memorialTasks, items, s.all, a);
  }

  lemma ReapEnds(s: System, tasks: map<AttemptId, TaskId>, memorialTasks: map<MemorialId, TaskId>)
    requires ReapingTo(s, map[], tasks, memorialTasks)
    ensures tasks == Reaped(s).tasks && memorialTasks == Reaped(s).memorialTasks
  {
  }

  /** The loop over the supervised tasks. */
  method ReapTasks(tasks: map<AttemptId, TaskId>, memorialTasks: map<MemorialId, TaskId>, runs: map<TaskId, Task>, ghost s: System)
    returns (left: map<AttemptId, TaskId>, memorialsLeft: map<MemorialId, TaskId>)
    requires InStep(s) && tasks == s.tasks && memorialTasks == s.memorialTasks && runs == s.all
    ensures left == Reaped(s).tasks && memorialsLeft == Reaped(s).memorialTasks
  {
    left, memorialsLeft := tasks, memorialTasks;
    ReapBegins(s);
    var items := tasks;
    while items != map[]
      invariant ReapingTo(s, items, left, memorialsLeft)
      decreases |items|
    {
      var attempt :| attempt in items;
      var task := items[attempt];
      ReapNext(s, items, left, memorialsLeft, attempt);
      items := items - {attempt};
      if IsDone(runs, task) {
        left := left - {attempt};
        memorialsLeft := Forget(memorialsLeft, task);
      }
    }
    ReapEnds(s, left, memorialsLeft);
  }

  class Dispatcher {
    var tasks: map<AttemptId, TaskId>
    var memorialTasks: map<MemorialId, TaskId>
    var idle: bool
    var stopRequested: bool
    /** The tasks ever started, as the event loop knows them, and the runner's projections: not the dispatcher's own. */
    var runs: map<TaskId, Task>
    var projections: map<ProjectionKey, RX.Projected>

    ghost function State(): System
      reads this
    {
      System(tasks, memorialTasks, idle, stopRequested, runs, projections)
    }

    constructor ()
      ensures State() == IDLE && Inv(State())
    {
      tasks, memorialTasks, idle, stopRequested := map[], map[], true, false;
      runs, projections := map[], map[];
    }

    /** `claim` is the ledger's answer, asked for only when the first two checks pass; `t` the new task. */
    method Dispatch(m: MemorialId, claim: Option<Authority>, t: TaskId) returns (won: bool)
      requires Inv(State()) && Enabled(State(), Dispatches(m, claim, t))
      modifies this
      ensures State() == Next(old(State()), Dispatches(m, claim, t)) && Inv(State())
      ensures won == (!old(stopRequested) && m !in old(memorialTasks) && claim.Some?)
    {
      DispatchKeeps(State(), m, claim, t);
      if stopRequested || m in memorialTasks || claim.None? { return false; }
      var authority := claim.value;
      idle := false;
      tasks := tasks[authority.attempt := t];
      memorialTasks := memorialTasks[authority.memorial := t];
      runs := runs[t := Task(authority, AtBind, NoRunner, NoBeat, false, false)];
      return true;
    }

    /** `_observe_task`, the callback of a task that ended. */
    method Observe(t: TaskId)
      requires Inv(State()) && Enabled(State(), Observes(t))
      modifies this`tasks, this`memorialTasks, this`idle
      ensures State() == Next(old(State()), Observes(t)) && Inv(State())
    {
      MapKeeps(State(), Observes(t));
      var attempt, memorial := runs[t].auth.attempt, runs[t].auth.memorial;
      if attempt in tasks && tasks[attempt] == t {
        tasks := tasks - {attempt};
      }
      if memorial in memorialTasks && memorialTasks[memorial] == t {
        memorialTasks := memorialTasks - {memorial};
      }
      if tasks == map[] {
        idle := true;
      }
    }

    /** `_reap_completed_tasks` */
    method Reap()
      requires Inv(State())
      modifies this`tasks, this`memorialTasks, this`idle
      ensures State() == Next(old(State()), Reaps) && Inv(State())
    {
      StepKeeps(State(), Reaps);
      tasks, memorialTasks := ReapTasks(tasks, memorialTasks, runs, State());
      if tasks == map[] {
        idle := true;
      }
    }

    /** The part of `stop` before its first await: no claim is made any more. */
    method RequestStop()
      requires Inv(State())
      modifies this`tasks, this`memorialTasks, this`idle, this`stopRequested
      ensures State() == Next(Next(old(State()), Stopped), Reaps) && Inv(State()) && stopRequested
    {
      StepKeeps(State(), Stopped);
      stopRequested := true;
      Reap();
    }
  }
}
