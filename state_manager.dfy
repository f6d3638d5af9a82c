/** The task store: a map from identifiers to task records kept beside a
    dependency graph. Creation checks that every declared dependency is
    stored, then that the id is new, stores the record and registers it in
    the graph; completion is gated on the dependencies being completed. */
module Manager {
  import opened Basics
  import opened TaskTypes
  import opened Reachability
  import opened Dependency

  type Store = map<TaskId, TaskState>

  /** The first declared dependency, in list order, that is not stored. */
  function FirstMissing(deps: seq<TaskId>, store: Store): (r: Option<TaskId>)
    ensures r.None? <==> forall d :: d in deps ==> d in store
    ensures r.Some? ==> exists i :: 0 <= i < |deps| && deps[i] == r.value && r.value !in store
                                    && forall j :: 0 <= j < i ==> deps[j] in store
  {
    if |deps| == 0 then None
    else if deps[0] !in store then Some(deps[0])
    else
      var rest := FirstMissing(deps[1..], store);
      assert forall d :: d in deps[1..] ==> d in deps;
      assert forall d :: d in deps ==> d == deps[0] || d in deps[1..];
      if rest.Some? then
        ghost var i :| 0 <= i < |deps[1..]| && deps[1..][i] == rest.value && rest.value !in store
                       && forall j :: 0 <= j < i ==> deps[1..][j] in store;
        assert deps[i + 1] == rest.value;
        assert forall j :: 0 <= j < i + 1 ==> deps[j] in store by {
          forall j | 0 <= j < i + 1
            ensures deps[j] in store
          {
            if j > 0 { assert deps[j] == deps[1..][j - 1]; }
          }
        }
        rest
      else
        rest
  }

  /** Every member of `deps` is stored and completed. */
  ghost predicate AllCompleted(store: Store, deps: set<TaskId>)
  {
    forall d :: d in deps ==> d in store && store[d].status == Completed
  }

  /** When `update_task_status(id, status)` succeeds: the task is stored and,
      for `Completed`, it has a graph entry whose every dependency is stored
      and completed. Any other status is applied unconditionally. */
  ghost predicate Settable(store: Store, nodes: Graph, id: TaskId, status: TaskStatus)
  {
    id in store && (status == Completed ==> id in nodes && AllCompleted(store, nodes[id]))
  }

  /** The errors a refused status update may report. The dependencies are
      visited in an unspecified order, so when several of them fail the gate,
      any one of them may be the one reported. */
  ghost predicate StatusRefusal(store: Store, nodes: Graph, id: TaskId, status: TaskStatus, e: StateError)
  {
    if id !in store then e == TaskNotFound(id.value)
    else if status != Completed then false
    else if id !in nodes then e == TaskNotFound(id.value)
    else
      || (exists d :: d in nodes[id] && d !in store && e == TaskNotFound(d.value))
      || (e == DependenciesNotMet(id.value) && exists d :: d in nodes[id] && d in store && store[d].status != Completed)
  }

  /** The record of `id` after its status is set at instant `now`. */
  function WithStatus(store: Store, id: TaskId, status: TaskStatus, now: nat): (s: Store)
    requires id in store
    ensures s.Keys == store.Keys
    ensures s[id].status == status && s[id].updatedAt == now
    ensures s[id].id == store[id].id && s[id].metadata == store[id].metadata
    ensures s[id].createdAt == store[id].createdAt
    ensures forall k :: k in store && k != id ==> s[k] == store[k]
  {
    store[id := store[id].(status := status, updatedAt := now)]
  }

  /** A second status update of the same record overrides the first. */
  lemma StatusTwice(store: Store, id: TaskId, first: TaskStatus, t1: nat, second: TaskStatus, t2: nat)
    requires id in store
    ensures WithStatus(WithStatus(store, id, first, t1), id, second, t2) == WithStatus(store, id, second, t2)
  {
    var a := WithStatus(WithStatus(store, id, first, t1), id, second, t2);
    var b := WithStatus(store, id, second, t2);
    assert a.Keys == b.Keys;
    assert a[id] == b[id];
  }

  /** A task is never its own dependency, so changing its own status keeps
      the completion gate open once it is open: what lets a build move a task
      to Running and then to Completed. */
  lemma GateSurvivesOwnUpdate(store: Store, nodes: Graph, id: TaskId, status: TaskStatus, now: nat)
    requires Acyclic(nodes) && id in store
    ensures Settable(store, nodes, id, Completed) ==>
              Settable(WithStatus(store, id, status, now), nodes, id, Completed)
  {
    if Settable(store, nodes, id, Completed) {
      NoSelfDependency(nodes, id);
      assert id !in nodes[id];
    }
  }

  /** A refused update always names a reason the gate does not hold. */
  lemma RefusalOnlyWhenUnsettable(store: Store, nodes: Graph, id: TaskId, status: TaskStatus, e: StateError)
    ensures StatusRefusal(store, nodes, id, status, e) ==> !Settable(store, nodes, id, status)
  {
  }

  /** The listing `tasks` holds the record of every key in `keys` exactly once,
      `order` saying which key each entry came from. */
  ghost predicate Lists(store: Store, tasks: seq<TaskState>, order: seq<TaskId>, keys: set<TaskId>)
  {
    && |tasks| == |order|
    && Distinct(order)
    && (forall k :: k in order <==> k in keys)
    && (forall i :: 0 <= i < |order| ==> order[i] in store && tasks[i] == store[order[i]])
  }

  /** The records of the members of `keys` that are stored and satisfy `keep`,
      in an unspecified order (a filtered walk over a hash map). */
  method Collect(store: Store, keys: set<TaskId>, keep: TaskState -> bool)
    returns (tasks: seq<TaskState>, ghost order: seq<TaskId>)
    ensures Lists(store, tasks, order, set k | k in keys && k in store && keep(store[k]))
    ensures forall t :: t in tasks ==> keep(t)
  {
    var ks := Enumerate(keys);
    tasks, order := [], [];
    for n := 0 to |ks|
      invariant |tasks| == |order| && Distinct(order)
      invariant forall k :: k in order <==> k in ks[..n] && k in store && keep(store[k])
      invariant forall i :: 0 <= i < |order| ==> order[i] in store && tasks[i] == store[order[i]]
      invariant forall t :: t in tasks ==> keep(t)
    {
      var k := ks[n];
      assert ks[..n + 1] == ks[..n] + [k];
      assert k !in ks[..n];
      if k in store && keep(store[k]) {
        tasks, order := tasks + [store[k]], order + [k];
      }
    }
    assert ks[..|ks|] == ks;
  }

  class StateManager {
    var states: Store
    const graph: DependencyGraph

    /** The graph is acyclic, and every forward edge is mirrored in the
        reverse map (the store only ever adds to the graph). */
    ghost predicate Valid()
      reads this, graph
    {
      graph.Valid() && ReverseCovers(graph.nodes, graph.reverse)
    }

    constructor ()
      ensures Valid() && fresh(graph)
      ensures states == map[] && graph.nodes == map[] && graph.reverse == map[]
    {
      states := map[];
      graph := new DependencyGraph();
    }

    /** `create_task`: the first declared dependency that is not stored is
        reported; otherwise an existing id is reported; otherwise the record
        is stored and then registered in the graph. A graph refusal (a cycle)
        is returned but leaves the record stored. */
    method CreateTask(task: TaskState) returns (r: Result<(), StateError>)
      requires Valid()
      modifies this, graph
      ensures Valid()
      ensures FirstMissing(task.metadata.dependencies, old(states)).Some? ==>
                && r == Err(TaskNotFound(FirstMissing(task.metadata.dependencies, old(states)).value.value))
                && states == old(states) && unchanged(graph)
      ensures FirstMissing(task.metadata.dependencies, old(states)).None? && task.id in old(states) ==>
                && r == Err(TaskAlreadyExists(task.id.value))
                && states == old(states) && unchanged(graph)
      ensures FirstMissing(task.metadata.dependencies, old(states)).None? && task.id !in old(states) ==>
                && states == old(states)[task.id := task]
                && AddOutcome(old(graph.nodes), old(graph.reverse), task.id, task.metadata.dependencies,
                              r, graph.nodes, graph.reverse)
      ensures r.Ok? ==> GetTask(task.id) == Ok(task)
    {
      var deps := task.metadata.dependencies;
      for i := 0 to |deps|
        invariant FirstMissing(deps, states) == FirstMissing(deps[i..], states)
      {
        assert deps[i..][1..] == deps[i + 1..];
        if deps[i] !in states {
          return Err(TaskNotFound(deps[i].value));
        }
      }
      if task.id in states {
        return Err(TaskAlreadyExists(task.id.value));
      }
      states := states[task.id := task];
      r := graph.AddTask(task.id, deps);
    }

    /** `get_task`: the stored record, or `TaskNotFound`. */
    function GetTask(id: TaskId): (r: Result<TaskState, StateError>)
      reads this
      ensures r.Ok? <==> id in states
      ensures r.Ok? ==> r.value == states[id]
      ensures r.Err? ==> r.error == TaskNotFound(id.value)
    {
      if id in states then Ok(states[id]) else Err(TaskNotFound(id.value))
    }

    /** `update_task_status`: succeeds exactly when the gate holds, and then
        changes only the status and update instant of that one record. */
    method UpdateTaskStatus(id: TaskId, status: TaskStatus, now: nat) returns (r: Result<(), StateError>)
      modifies this
      ensures r.Ok? <==> Settable(old(states), graph.nodes, id, status)
      ensures r.Ok? ==> states == WithStatus(old(states), id, status, now)
      ensures r.Err? ==> states == old(states) && StatusRefusal(states, graph.nodes, id, status, r.error)
    {
      if id !in states {
        return Err(TaskNotFound(id.value));
      }
      if status == Completed {
        var found := GetTaskDependencies(id);
        if found.Err? {
          return Err(found.error);
        }
        var deps := Enumerate(found.value);
        for i := 0 to |deps|
          invariant forall j :: 0 <= j < i ==> deps[j] in states && states[deps[j]].status == Completed
        {
          var d := deps[i];
          if d !in states {
            return Err(TaskNotFound(d.value));
          }
          if states[d].status != Completed {
            return Err(DependenciesNotMet(id.value));
          }
        }
      }
      states := WithStatus(states, id, status, now);
      return Ok(());
    }

    /** `delete_task`: drops the record; the graph keeps its entries. */
    method DeleteTask(id: TaskId) returns (r: Result<(), StateError>)
      modifies this
      ensures id in old(states) ==> r == Ok(()) && states == old(states) - {id}
      ensures id !in old(states) ==> r == Err(TaskNotFound(id.value)) && states == old(states)
      ensures GetTask(id).Err?
    {
      if id in states {
        states := states - {id};
        return Ok(());
      }
      return Err(TaskNotFound(id.value));
    }

    /** `list_tasks`: one entry per stored task. */
    method ListTasks() returns (tasks: seq<TaskState>, ghost order: seq<TaskId>)
      ensures Lists(states, tasks, order, states.Keys)
      ensures |tasks| == |states|
    {
      tasks, order := Collect(states, states.Keys, (t: TaskState) => true);
      assert (set k | k in states.Keys && k in states && true) == states.Keys;
      DistinctLength(order, states.Keys);
    }

    /** `get_tasks_by_status`: exactly the stored tasks with that status. */
    method GetTasksByStatus(status: TaskStatus) returns (tasks: seq<TaskState>, ghost order: seq<TaskId>)
      ensures Lists(states, tasks, order, set k | k in states && states[k].status == status)
      ensures forall t :: t in tasks ==> t.status == status
    {
      tasks, order := Collect(states, states.Keys, (t: TaskState) => t.status == status);
      assert (set k | k in states.Keys && k in states && states[k].status == status)
          == (set k | k in states && states[k].status == status);
    }

    /** `get_ready_tasks`: the stored tasks the graph reports ready. Since
        the store only adds to the graph, these are exactly the stored tasks
        with a graph entry and no dependencies. */
    method GetReadyTasks() returns (tasks: seq<TaskState>, ghost order: seq<TaskId>)
      requires Valid()
      ensures Lists(states, tasks, order, graph.GetReadyTasks() * states.Keys)
      ensures forall k :: k in order <==> k in states && k in graph.nodes && graph.nodes[k] == {}
    {
      var ready := graph.GetReadyTasks();
      tasks, order := Collect(states, ready, (t: TaskState) => true);
      assert (set k | k in ready && k in states && true) == ready * states.Keys;
    }

    /** `get_task_dependencies`: the task's graph entry, or `TaskNotFound`. */
    function GetTaskDependencies(id: TaskId): (r: Result<set<TaskId>, StateError>)
      reads this, graph
      ensures r.Ok? <==> id in graph.nodes
      ensures r.Ok? ==> r.value == graph.nodes[id]
      ensures r.Err? ==> r.error == TaskNotFound(id.value)
    {
      graph.GetDependencies(id)
    }

    /** `get_task_dependents`: never fails; empty for a task nobody depends on. */
    function GetTaskDependents(id: TaskId): (r: Result<set<TaskId>, StateError>)
      reads this, graph
      ensures r.Ok? && r.value == EdgesOf(graph.reverse, id)
    {
      graph.GetDependents(id)
    }

    /** `take_snapshot`: a copy of the whole task map, stamped with `now`. */
    function TakeSnapshot(now: nat): (s: StateSnapshot)
      reads this
      ensures s.tasks == states && s.timestamp == now
    {
      StateSnapshot(states, now)
    }

    /** `restore_snapshot`: replaces the task map wholesale; the graph is
        left as it is. */
    method RestoreSnapshot(snapshot: StateSnapshot) returns (r: Result<(), StateError>)
      modifies this
      ensures r == Ok(()) && states == snapshot.tasks
    {
      states := snapshot.tasks;
      return Ok(());
    }

    /** Restoring a snapshot taken before a deletion brings the deleted task
        back: the store ends as it began. */
    method DeleteThenRestore(id: TaskId, now: nat)
      modifies this
      ensures states == old(states)
    {
      var snapshot := TakeSnapshot(now);
      var _ := DeleteTask(id);
      var _ := RestoreSnapshot(snapshot);
    }
  }
}
