/**
 * Executor tasks of research runs (api/routes/research_runs.py): the global
 * `_running_jobs` table and the asyncio tasks it points to. Everything between
 * two awaits is one step, which is how one event loop runs this code.
 */
module RunJobs {

  /** A task executes one run; `done` is what `task.done()` answers. */
  datatype Task = Task(run: string, done: bool)

  type TaskId = nat

  datatype JobState = JobState(tasks: seq<Task>, jobs: map<string, TaskId>)

  const IDLE := JobState([], map[])

  /**
   * What can happen next. A task that stops normally or by an error inside
   * `run()` executes the `finally` that pops its run; one that is cancelled
   * before its first step, or whose executor cannot be constructed, never
   * reaches that `finally`.
   */
  datatype Event =
    | Ensure(run: string)
    | Finish(task: TaskId)
    | DieEarly(task: TaskId)

  predicate Unfinished(s: JobState, t: TaskId) {
    t < |s.tasks| && !s.tasks[t].done
  }

  /** `_ensure_research_run_job`. */
  function EnsureJob(s: JobState, run: string): JobState {
    if run in s.jobs && Unfinished(s, s.jobs[run]) then s
    else JobState(s.tasks + [Task(run, false)], s.jobs[run := |s.tasks|])
  }

  function MarkDone(tasks: seq<Task>, t: TaskId): seq<Task>
    requires t < |tasks|
  {
    tasks[t := tasks[t].(done := true)]
  }

  function Next(s: JobState, e: Event): JobState {
    match e
    case Ensure(run) => EnsureJob(s, run)
    case Finish(t) =>
      if Unfinished(s, t) then JobState(MarkDone(s.tasks, t), s.jobs - {s.tasks[t].run}) else s
    case DieEarly(t) =>
      if Unfinished(s, t) then JobState(MarkDone(s.tasks, t), s.jobs) else s
  }

  function Run(events: seq<Event>): JobState {
    if events == [] then IDLE else Next(Run(events[..|events| - 1]), events[|events| - 1])
  }

  /** The registered task of a run exists and executes that run; every unfinished task is registered. */
  ghost predicate Inv(s: JobState) {
    && (forall run | run in s.jobs :: s.jobs[run] < |s.tasks| && s.tasks[s.jobs[run]].run == run)
    && (forall t: nat | Unfinished(s, t) :: s.tasks[t].run in s.jobs && s.jobs[s.tasks[t].run] == t)
  }

  lemma {:induction false} InvAlways(events: seq<Event>)
    ensures Inv(Run(events))
  {
    if events != [] {
      InvAlways(events[..|events| - 1]);
      InvStep(Run(events[..|events| - 1]), events[|events| - 1]);
    }
  }

  lemma InvStep(s: JobState, e: Event)
    requires Inv(s)
    ensures Inv(Next(s, e))
  {
    var s' := Next(s, e);
    forall t: nat | Unfinished(s', t)
      ensures s'.tasks[t].run in s'.jobs && s'.jobs[s'.tasks[t].run] == t
    {
      if t < |s.tasks| {
        assert Unfinished(s, t);
      }
    }
  }

  /** In every interleaving each run has at most one unfinished task, and it is the registered one. */
  lemma AtMostOneExecutor(events: seq<Event>, t: TaskId, u: TaskId)
    requires var s := Run(events); Unfinished(s, t) && Unfinished(s, u) && s.tasks[t].run == s.tasks[u].run
    ensures t == u
    ensures var s := Run(events); s.tasks[t].run in s.jobs && s.jobs[s.tasks[t].run] == t
  {
    InvAlways(events);
  }

  /** The `pop` of a finishing task removes that task's own entry, never a successor's. */
  lemma PopNeverEvictsSuccessor(events: seq<Event>, t: TaskId)
    requires Unfinished(Run(events), t)
    ensures
      var s, s' := Run(events), Next(Run(events), Finish(t));
      && s.tasks[t].run in s.jobs && s.jobs[s.tasks[t].run] == t
      && (forall u: nat | u != t :: Unfinished(s', u) <==> Unfinished(s, u))
      && (forall u: nat | Unfinished(s', u) :: s'.tasks[u].run in s'.jobs && s'.jobs[s'.tasks[u].run] == u)
  {
    InvAlways(events);
    InvStep(Run(events), Finish(t));
  }

  /** A finishing task is done afterwards and its run unregistered; no other task or run changes. */
  lemma FinishEndsTask(events: seq<Event>, t: TaskId)
    requires Unfinished(Run(events), t)
    ensures
      var s, s' := Run(events), Next(Run(events), Finish(t)); var run := s.tasks[t].run;
      && |s'.tasks| == |s.tasks| && s'.tasks[t].done && s'.tasks[t].run == run
      && (forall u: nat | u < |s.tasks| && u != t :: s'.tasks[u] == s.tasks[u])
      && run !in s'.jobs
      && (forall other | other != run :: (other in s'.jobs <==> other in s.jobs)
            && (other in s.jobs ==> s'.jobs[other] == s.jobs[other]))
  {
  }

  /** After `_ensure_research_run_job` the run has an unfinished task, new exactly when it had none. */
  lemma EnsureStartsOnce(events: seq<Event>, run: string)
    ensures
      var s, s' := Run(events), EnsureJob(Run(events), run);
      && run in s'.jobs && Unfinished(s', s'.jobs[run])
      && (s' == s <==> exists t: nat :: Unfinished(s, t) && s.tasks[t].run == run)
  {
    var s := Run(events);
    InvAlways(events);
    if run in s.jobs && Unfinished(s, s.jobs[run]) {
      assert s.tasks[s.jobs[run]].run == run;
    }
  }

  /** The module's table, changed in place by the handlers and by the tasks themselves. */
  class JobTable {
    var jobs: map<string, TaskId>
    var tasks: seq<Task>

    function Snapshot(): JobState
      reads this
    {
      JobState(tasks, jobs)
    }

    constructor ()
      ensures Snapshot() == IDLE
    {
      jobs, tasks := map[], [];
    }

    method EnsureResearchRunJob(run: string)
      modifies this
      ensures Snapshot() == Next(old(Snapshot()), Ensure(run))
    {
      if run in jobs {
        var existing := jobs[run];
        if existing < |tasks| && !tasks[existing].done {
          return;
        }
      }
      var task := |tasks|;
      tasks := tasks + [Task(run, false)];
      jobs := jobs[run := task];
    }

    /** The end of `_run_research_run_job`: pop by run id, then the task is done. */
    method FinishTask(t: TaskId)
      modifies this
      ensures Snapshot() == Next(old(Snapshot()), Finish(t))
    {
      if t < |tasks| && !tasks[t].done {
        jobs := jobs - {tasks[t].run};
        tasks := tasks[t := tasks[t].(done := true)];
      }
    }
  }
}
