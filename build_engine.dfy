/** The build engine: runs one task through the store. It checks that every
    dependency is completed, records a resource entry for the task, moves it
    to Running, runs the build, releases the entry and moves it to Completed
    (or Failed). Sleeping stands for the build, and the resource check always
    passes, so the run is fully determined by the store. */
module Build {
  import opened Basics
  import opened TaskTypes
  import opened Manager

  datatype BuildError =
    | InsufficientResources
    | TaskCancelled(task: string)
    | InvalidTaskState(task: string)
    | DependenciesNotMet(task: string)
    | TaskExecutionError(task: string)
    | TimeoutError(task: string)
    | StateError(error: TaskTypes.StateError)

  /** The errors a refused execution may report: a missing dependency, or
      (with the task's own id) a stored one that is not completed. The
      dependencies are visited in an unspecified order, so either kind may
      be the one reported when both occur. */
  ghost predicate ExecRefusal(store: Store, deps: set<TaskId>, id: TaskId, e: BuildError)
  {
    || (exists d :: d in deps && d !in store && e == StateError(TaskNotFound(d.value)))
    || (e == BuildError.DependenciesNotMet(id.value) && exists d :: d in deps && d in store && store[d].status != Completed)
  }

  /** A refused execution always names a dependency that is not completed. */
  lemma RefusalOnlyWhenBlocked(store: Store, deps: set<TaskId>, id: TaskId, e: BuildError)
    ensures ExecRefusal(store, deps, id, e) ==> !AllCompleted(store, deps)
  {
  }

  /** Recording an entry and then dropping it leaves no entry for that key. */
  lemma AllocateThenRelease(resources: map<string, nat>, key: string, seconds: nat)
    ensures resources[key := seconds] - {key} == resources - {key}
  {
    var a, b := resources[key := seconds] - {key}, resources - {key};
    assert a.Keys == b.Keys;
  }

  class BuildEngine {
    const manager: StateManager
    var resources: map<string, nat>   // task id text -> estimated seconds

    ghost predicate Valid()
      reads this, manager, manager.graph
    {
      manager.Valid()
    }

    constructor (manager: StateManager)
      ensures this.manager == manager && resources == map[]
    {
      this.manager := manager;
      resources := map[];
    }

    /** `execute_task`. `startedAt` and `finishedAt` are the clock readings at
        the two status updates; `trace` lists the statuses the task is moved
        through. */
    method ExecuteTask(taskId: TaskId, startedAt: nat, finishedAt: nat)
      returns (r: Result<(), BuildError>, ghost trace: seq<TaskStatus>, ghost running: Store)
      requires Valid()
      modifies this, manager
      ensures Valid()
      ensures taskId !in old(manager.states) || taskId !in manager.graph.nodes ==>
                && r == Err(StateError(TaskNotFound(taskId.value)))
                && manager.states == old(manager.states) && resources == old(resources) && trace == []
      ensures taskId in old(manager.states) && taskId in manager.graph.nodes
              && !AllCompleted(old(manager.states), manager.graph.nodes[taskId]) ==>
                && r.Err? && ExecRefusal(old(manager.states), manager.graph.nodes[taskId], taskId, r.error)
                && manager.states == old(manager.states) && resources == old(resources) && trace == []
      ensures taskId in old(manager.states) && taskId in manager.graph.nodes
              && AllCompleted(old(manager.states), manager.graph.nodes[taskId]) ==>
                && r == Ok(())
                && manager.states == WithStatus(old(manager.states), taskId, Completed, finishedAt)
                && resources == old(resources) - {old(manager.states)[taskId].id.value}
                && trace == [Running, Completed]
                && running == WithStatus(old(manager.states), taskId, Running, startedAt)
    {
      trace, running := [], manager.states;
      var found := manager.GetTask(taskId);
      if found.Err? {
        return Err(StateError(found.error)), trace, running;
      }
      var task := found.value;
      var dependencies := manager.GetTaskDependencies(taskId);
      if dependencies.Err? {
        return Err(StateError(dependencies.error)), trace, running;
      }
      var deps := Enumerate(dependencies.value);
      for i := 0 to |deps|
        invariant forall j :: 0 <= j < i ==> deps[j] in manager.states && manager.states[deps[j]].status == Completed
      {
        var depStatus := GetTaskStatus(deps[i]);
        if depStatus.Err? {
          return Err(depStatus.error), trace, running;
        }
        if depStatus.value != Completed {
          return Err(BuildError.DependenciesNotMet(taskId.value)), trace, running;
        }
      }
      assert AllCompleted(manager.states, dependencies.value);
      var enough := CheckResources(task);
      if !enough {
        return Err(InsufficientResources), trace, running;
      }
      ghost var resourcesBefore := resources;
      var _ := AllocateResources(task);
      ghost var before := manager.states;
      GateSurvivesOwnUpdate(before, manager.graph.nodes, taskId, Running, startedAt);
      var started := manager.UpdateTaskStatus(taskId, Running, startedAt);
      // the task was found above and nothing ran in between
      assert started.Ok?;
      trace, running := trace + [Running], manager.states;
      var result := RunBuild(task);
      ReleaseResources(task);
      AllocateThenRelease(resourcesBefore, task.id.value, task.metadata.estimatedSeconds);
      var status := if result.Ok? then Completed else Failed;
      var finished := manager.UpdateTaskStatus(taskId, status, finishedAt);
      // the dependencies are still completed and the task is not one of them
      assert finished.Ok?;
      StatusTwice(before, taskId, Running, startedAt, Completed, finishedAt);
      trace := trace + [status];
      return result, trace, running;
    }

    /** `check_resources`: a stub that always grants. */
    method CheckResources(task: TaskState) returns (enough: bool)
      ensures enough
    {
      return true;
    }

    /** `allocate_resources`: records the task's estimated seconds under its id. */
    method AllocateResources(task: TaskState) returns (r: Result<(), BuildError>)
      modifies this
      ensures r == Ok(())
      ensures resources == old(resources)[task.id.value := task.metadata.estimatedSeconds]
    {
      resources := resources[task.id.value := task.metadata.estimatedSeconds];
      return Ok(());
    }

    /** `release_resources`: drops the task's entry, if any. */
    method ReleaseResources(task: TaskState)
      modifies this
      ensures resources == old(resources) - {task.id.value}
    {
      resources := resources - {task.id.value};
    }

    /** `run_build`: a task tagged "test" finishes at once; any other sleeps
        for its estimated duration (not modelled) and then succeeds. */
    method RunBuild(task: TaskState) returns (r: Result<(), BuildError>)
      ensures r == Ok(())
    {
      if "test" in task.metadata.tags {
        return Ok(());
      }
      return Ok(());
    }

    /** `cancel_task`: releases the task's entry and forces it to Failed,
        whatever its status was, even Completed. */
    method CancelTask(taskId: TaskId, now: nat) returns (r: Result<(), BuildError>)
      modifies this, manager
      ensures taskId !in old(manager.states) ==>
                && r == Err(StateError(TaskNotFound(taskId.value)))
                && manager.states == old(manager.states) && resources == old(resources)
      ensures taskId in old(manager.states) ==>
                && r == Ok(())
                && manager.states == WithStatus(old(manager.states), taskId, Failed, now)
                && resources == old(resources) - {old(manager.states)[taskId].id.value}
    {
      var found := manager.GetTask(taskId);
      if found.Err? {
        return Err(StateError(found.error));
      }
      ReleaseResources(found.value);
      var updated := manager.UpdateTaskStatus(taskId, Failed, now);
      // Failed is not gated and the task was found above
      assert updated.Ok?;
      return Ok(());
    }

    /** `get_task_status`: the stored task's status, or `TaskNotFound`. */
    function GetTaskStatus(taskId: TaskId): (r: Result<TaskStatus, BuildError>)
      reads this, manager
      ensures r.Ok? <==> taskId in manager.states
      ensures r.Ok? ==> r.value == manager.states[taskId].status
      ensures r.Err? ==> r.error == StateError(TaskNotFound(taskId.value))
    {
      match manager.GetTask(taskId)
      case Ok(task) => Ok(task.status)
      case Err(e) => Err(StateError(e))
    }

    /** `list_running_tasks`: exactly the stored tasks whose status is Running. */
    method ListRunningTasks() returns (r: Result<seq<TaskState>, BuildError>, ghost order: seq<TaskId>)
      ensures r.Ok?
      ensures Lists(manager.states, r.value, order, set k | k in manager.states && manager.states[k].status == Running)
      ensures forall t :: t in r.value ==> t.status == Running
    {
      var tasks;
      tasks, order := manager.GetTasksByStatus(Running);
      return Ok(tasks), order;
    }

    /** `get_ready_tasks`: the store's ready tasks. */
    method GetReadyTasks() returns (r: Result<seq<TaskState>, BuildError>, ghost order: seq<TaskId>)
      requires Valid()
      ensures r.Ok?
      ensures Lists(manager.states, r.value, order, manager.graph.GetReadyTasks() * manager.states.Keys)
      ensures forall k :: k in order <==> k in manager.states && k in manager.graph.nodes && manager.graph.nodes[k] == {}
    {
      var tasks;
      tasks, order := manager.GetReadyTasks();
      return Ok(tasks), order;
    }
  }
}
