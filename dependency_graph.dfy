/** The dependency graph: a forward map (task -> the tasks it depends on) and a
    reverse map (task -> the tasks that depend on it), updated in place. */
module Dependency {
  import opened Basics
  import opened TaskTypes
  import opened Reachability

  /** The members of a dependency list, duplicates collapsed. */
  function SetOf(s: seq<TaskId>): (r: set<TaskId>)
    ensures forall x :: x in r <==> x in s
  {
    set x | x in s
  }

  /** Every forward edge a -> b is mirrored by `a` among the dependents of `b`. */
  ghost predicate ReverseCovers(nodes: Graph, reverse: Graph)
  {
    forall a, b :: a in nodes && b in nodes[a] ==> a in EdgesOf(reverse, b)
  }

  /** The reverse map after `t` is recorded as a dependent of every member of
      `deps`, creating entries that did not exist. */
  ghost function WithDependent(reverse: Graph, deps: set<TaskId>, t: TaskId): Graph
  {
    map k | k in reverse.Keys + deps :: EdgesOf(reverse, k) + (if k in deps then {t} else {})
  }

  /** The reverse map after `t` is struck from the dependents of every member
      of `deps` that has an entry (entries are kept, possibly empty). */
  ghost function WithoutDependent(reverse: Graph, deps: set<TaskId>, t: TaskId): Graph
  {
    map k | k in reverse :: if k in deps then reverse[k] - {t} else reverse[k]
  }

  /** What `add_task(t, deps)` does to the two maps and what it returns. */
  ghost predicate AddOutcome(nodes0: Graph, reverse0: Graph, t: TaskId, deps: seq<TaskId>,
                             r: Result<(), StateError>, nodes1: Graph, reverse1: Graph)
  {
    if Reachable(nodes0, SetOf(deps), t) then
      r == Err(CircularDependency(t.value)) && nodes1 == nodes0 && reverse1 == reverse0
    else
      r == Ok(()) && nodes1 == nodes0[t := SetOf(deps)] && reverse1 == WithDependent(reverse0, SetOf(deps), t)
  }

  lemma WithDependentNone(reverse: Graph, t: TaskId)
    ensures WithDependent(reverse, {}, t) == reverse
  {
    var a := WithDependent(reverse, {}, t);
    assert a.Keys == reverse.Keys;
    forall k | k in a.Keys
      ensures a[k] == reverse[k]
    {
    }
  }

  lemma WithDependentStep(reverse: Graph, done: set<TaskId>, t: TaskId, d: TaskId)
    ensures WithDependent(reverse, done + {d}, t)
         == WithDependent(reverse, done, t)[d := EdgesOf(WithDependent(reverse, done, t), d) + {t}]
  {
    var w := WithDependent(reverse, done, t);
    var a := WithDependent(reverse, done + {d}, t);
    var b := w[d := EdgesOf(w, d) + {t}];
    assert a.Keys == b.Keys;
    forall k | k in a.Keys
      ensures a[k] == b[k]
    {
    }
  }

  lemma WithoutDependentNone(reverse: Graph, t: TaskId)
    ensures WithoutDependent(reverse, {}, t) == reverse
  {
    var a := WithoutDependent(reverse, {}, t);
    assert a.Keys == reverse.Keys;
    forall k | k in a.Keys
      ensures a[k] == reverse[k]
    {
    }
  }

  lemma WithoutDependentStep(reverse: Graph, done: set<TaskId>, t: TaskId, d: TaskId)
    ensures d in reverse ==>
      WithoutDependent(reverse, done + {d}, t) == WithoutDependent(reverse, done, t)[d := WithoutDependent(reverse, done, t)[d] - {t}]
    ensures d !in reverse ==>
      WithoutDependent(reverse, done + {d}, t) == WithoutDependent(reverse, done, t)
  {
    var w := WithoutDependent(reverse, done, t);
    var a := WithoutDependent(reverse, done + {d}, t);
    assert a.Keys == w.Keys;
    if d in reverse {
      var b := w[d := w[d] - {t}];
      forall k | k in a.Keys
        ensures a[k] == b[k]
      {
      }
    } else {
      forall k | k in a.Keys
        ensures a[k] == w[k]
      {
      }
    }
  }

  /** A successful add keeps every forward edge mirrored in the reverse map. */
  lemma AddKeepsReverseCovers(nodes: Graph, reverse: Graph, t: TaskId, deps: set<TaskId>)
    ensures ReverseCovers(nodes, reverse) ==> ReverseCovers(nodes[t := deps], WithDependent(reverse, deps, t))
  {
    if ReverseCovers(nodes, reverse) {
      var nodes', reverse' := nodes[t := deps], WithDependent(reverse, deps, t);
      forall a, b | a in nodes' && b in nodes'[a]
        ensures a in EdgesOf(reverse', b)
      {
        assert EdgesOf(reverse, b) <= EdgesOf(reverse', b);
      }
    }
  }

  class DependencyGraph {
    var nodes: Graph    // task -> dependencies
    var reverse: Graph  // task -> dependents

    /** The forward graph never has a cycle. */
    ghost predicate Valid()
      reads this
    {
      Acyclic(nodes)
    }

    constructor ()
      ensures Valid()
      ensures nodes == map[] && reverse == map[]
    {
      nodes := map[];
      reverse := map[];
      EmptyAcyclic();
    }

    /** `add_task`: rejects the dependencies when the task can be reached from
        them (self-dependency included), otherwise replaces the task's entry
        and records it as a dependent of each dependency. */
    method AddTask(taskId: TaskId, dependencies: seq<TaskId>) returns (r: Result<(), StateError>)
      requires Valid()
      modifies this
      ensures Valid()
      ensures AddOutcome(old(nodes), old(reverse), taskId, dependencies, r, nodes, reverse)
      ensures r.Ok? ==> GetDependencies(taskId) == Ok(SetOf(dependencies))
      ensures r.Ok? ==> forall d :: d in dependencies ==> taskId in GetDependents(d).value
      ensures ReverseCovers(old(nodes), old(reverse)) ==> ReverseCovers(nodes, reverse)
    {
      var depsSet := SetOf(dependencies);
      if depsSet != {} {
        var cyclic := WouldCreateCycle(taskId, depsSet);
        if cyclic {
          return Err(CircularDependency(taskId.value));
        }
      }
      AddKeepsAcyclic(nodes, taskId, depsSet);
      AddKeepsReverseCovers(nodes, reverse, taskId, depsSet);
      nodes := nodes[taskId := depsSet];
      WithDependentNone(reverse, taskId);
      var rest := depsSet;
      while rest != {}
        invariant rest <= depsSet
        invariant nodes == old(nodes)[taskId := depsSet]
        invariant reverse == WithDependent(old(reverse), depsSet - rest, taskId)
        decreases rest
      {
        var dep :| dep in rest;
        WithDependentStep(old(reverse), depsSet - rest, taskId, dep);
        assert depsSet - (rest - {dep}) == (depsSet - rest) + {dep};
        reverse := reverse[dep := EdgesOf(reverse, dep) + {taskId}];
        rest := rest - {dep};
      }
      return Ok(());
    }

    /** `remove_task`: drops the task's entry from both maps and strikes it
        from the dependents of its former dependencies. Tasks that depend on
        it keep their forward edge to it. Never fails. */
    method RemoveTask(taskId: TaskId) returns (r: Result<(), StateError>)
      requires Valid()
      modifies this
      ensures Valid() && r == Ok(())
      ensures nodes == old(nodes) - {taskId}
      ensures reverse == WithoutDependent(old(reverse), EdgesOf(old(nodes), taskId), taskId) - {taskId}
      ensures GetDependencies(taskId) == Err(TaskNotFound(taskId.value)) && taskId !in reverse
      ensures forall d :: d in EdgesOf(old(nodes), taskId) ==> taskId !in GetDependents(d).value
    {
      RemoveKeepsAcyclic(nodes, taskId);
      if taskId in nodes {
        var deps := nodes[taskId];
        nodes := nodes - {taskId};
        WithoutDependentNone(reverse, taskId);
        var rest := deps;
        while rest != {}
          invariant rest <= deps
          invariant nodes == old(nodes) - {taskId}
          invariant reverse == WithoutDependent(old(reverse), deps - rest, taskId)
          decreases rest
        {
          var dep :| dep in rest;
          WithoutDependentStep(old(reverse), deps - rest, taskId, dep);
          assert deps - (rest - {dep}) == (deps - rest) + {dep};
          if dep in reverse {
            reverse := reverse[dep := reverse[dep] - {taskId}];
          }
          rest := rest - {dep};
        }
      } else {
        WithoutDependentNone(reverse, taskId);
      }
      reverse := reverse - {taskId};
      return Ok(());
    }

    /** `get_dependencies`: the task's dependency set; a task without an entry
        is reported as not found. */
    function GetDependencies(taskId: TaskId): (r: Result<set<TaskId>, StateError>)
      reads this
      ensures r.Ok? <==> taskId in nodes
      ensures r.Ok? ==> r.value == nodes[taskId]
      ensures r.Err? ==> r.error == TaskNotFound(taskId.value)
    {
      if taskId in nodes then Ok(nodes[taskId]) else Err(TaskNotFound(taskId.value))
    }

    /** `get_dependents`: never fails; an unknown task has no dependents. */
    function GetDependents(taskId: TaskId): (r: Result<set<TaskId>, StateError>)
      reads this
      ensures r.Ok? && r.value == EdgesOf(reverse, taskId)
      ensures taskId !in reverse ==> r.value == {}
    {
      Ok(EdgesOf(reverse, taskId))
    }

    /** `get_ready_tasks`: the tasks with an entry whose every dependency has no
        dependents recorded. Every task without dependencies is ready; while
        the reverse map mirrors the forward edges, no task with a dependency is. */
    function GetReadyTasks(): (ready: set<TaskId>)
      reads this
      ensures ready <= nodes.Keys
      ensures forall k :: k in nodes && nodes[k] == {} ==> k in ready
      ensures forall k :: k in ready <==>
                k in nodes && forall d :: d in nodes[k] ==> EdgesOf(reverse, d) == {}
      ensures ReverseCovers(nodes, reverse) ==> forall k :: k in ready ==> nodes[k] == {}
    {
      set k | k in nodes && forall d :: d in nodes[k] ==> d !in reverse || reverse[d] == {}
    }

    /** `would_create_cycle`: a breadth-first search from `newDeps` along the
        forward edges; true exactly when it meets `taskId`. Each task is
        expanded at most once, which is why the search ends. */
    method WouldCreateCycle(taskId: TaskId, newDeps: set<TaskId>) returns (cyclic: bool)
      ensures cyclic == Reachable(nodes, newDeps, taskId)
    {
      var g := nodes;
      ghost var seen := newDeps + Targets(g);
      var visited: set<TaskId> := {};
      var queue := Enumerate(newDeps);
      MembersExactly(queue, newDeps);
      SearchStart(g, newDeps, taskId);
      while |queue| > 0
        invariant SearchState(g, newDeps, taskId, visited, Members(queue))
        decreases |seen - visited|, |queue|
      {
        var current := queue[0];
        if current == taskId {
          QueueFound(g, newDeps, taskId, visited, queue);
          return true;
        }
        if current !in visited {
          var more := Enumerate(EdgesOf(g, current));
          QueueExpand(g, newDeps, taskId, visited, queue, more);
          visited := visited + {current};
          queue := queue[1..] + more;
        } else {
          QueueSkip(g, newDeps, taskId, visited, queue);
          queue := queue[1..];
        }
      }
      SearchDone(g, newDeps, taskId, visited);
      return false;
    }
  }
}
