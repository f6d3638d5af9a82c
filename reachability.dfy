/** Paths, reachability and acyclicity in a forward dependency map
    (task -> the tasks it depends on), with the facts the dependency graph's
    cycle check and its acyclicity invariant rest on. */
module Reachability {
  import opened TaskTypes

  type Graph = map<TaskId, set<TaskId>>

  /** The edges leaving `v`, empty when `v` has no entry (a lookup that
      falls back to the empty set). */
  function EdgesOf(g: Graph, v: TaskId): set<TaskId>
  {
    if v in g then g[v] else {}
  }

  /** `p` follows edges of `g` from its first to its last element. */
  ghost predicate IsPath(g: Graph, p: seq<TaskId>)
  {
    |p| > 0 && forall i :: 0 <= i < |p| - 1 ==> p[i + 1] in EdgesOf(g, p[i])
  }

  /** `x` can be reached from some member of `from` (a member reaches itself). */
  ghost predicate Reachable(g: Graph, from: set<TaskId>, x: TaskId)
  {
    exists p :: IsPath(g, p) && p[0] in from && p[|p| - 1] == x
  }

  /** No path of one or more edges returns to where it started. */
  ghost predicate Acyclic(g: Graph)
  {
    forall p :: IsPath(g, p) && |p| >= 2 ==> p[0] != p[|p| - 1]
  }

  /** Every edge leaving a member of `s` stays in `s`. */
  ghost predicate ClosedUnderEdges(g: Graph, s: set<TaskId>)
  {
    forall v :: v in s ==> EdgesOf(g, v) <= s
  }

  /** Every task that is the dependency of some task. */
  ghost function Targets(g: Graph): set<TaskId>
  {
    set k, x | k in g && x in g[k] :: x
  }

  lemma TargetsHold(g: Graph, v: TaskId)
    ensures EdgesOf(g, v) <= Targets(g)
  {
  }

  /** The members of a sequence, as a set. */
  ghost function Members(q: seq<TaskId>): set<TaskId>
  {
    set x | x in q
  }

  lemma MembersSplit(q: seq<TaskId>)
    requires |q| > 0
    ensures Members(q) == Members(q[1..]) + {q[0]}
  {
    forall x | x in Members(q)
      ensures x in Members(q[1..]) + {q[0]}
    {
      var i :| 0 <= i < |q| && q[i] == x;
      if i > 0 {
        assert q[1..][i - 1] == x;
      }
    }
  }

  lemma MembersAppend(a: seq<TaskId>, b: seq<TaskId>)
    ensures Members(a + b) == Members(a) + Members(b)
  {
    forall x | x in Members(a + b)
      ensures x in Members(a) + Members(b)
    {
      var i :| 0 <= i < |a + b| && (a + b)[i] == x;
      if i >= |a| {
        assert b[i - |a|] == x;
      }
    }
    forall x | x in Members(a) + Members(b)
      ensures x in Members(a + b)
    {
      if x in a {
        var i :| 0 <= i < |a| && a[i] == x;
        assert (a + b)[i] == x;
      } else {
        var i :| 0 <= i < |b| && b[i] == x;
        assert (a + b)[|a| + i] == x;
      }
    }
  }

  lemma MembersExactly(q: seq<TaskId>, s: set<TaskId>)
    requires forall x :: x in q <==> x in s
    ensures Members(q) == s
  {
  }

  /** The graph with no entries has no cycle. */
  lemma EmptyAcyclic()
    ensures Acyclic(map[])
  {
    forall p: seq<TaskId> | |p| >= 2
      ensures !IsPath(map[], p)
    {
      assert p[1] !in EdgesOf(map[], p[0]);
    }
  }

  /** Every member of `s` is reachable from `from`. */
  ghost predicate AllReachable(g: Graph, from: set<TaskId>, s: set<TaskId>)
  {
    forall x :: x in s ==> Reachable(g, from, x)
  }

  /** The state of a search: everything in `from` is either expanded
      (`visited`) or waiting (`pending`), and every edge out of an expanded
      task leads to an expanded or a waiting one. */
  ghost predicate Frontier(g: Graph, from: set<TaskId>, visited: set<TaskId>, pending: set<TaskId>)
  {
    from <= visited + pending && forall v :: v in visited ==> EdgesOf(g, v) <= visited + pending
  }

  /** Expanding a waiting task keeps the search state. */
  lemma ExpandKeepsFrontier(g: Graph, from: set<TaskId>, visited: set<TaskId>, rest: set<TaskId>, v: TaskId)
    requires Frontier(g, from, visited, rest + {v})
    ensures Frontier(g, from, visited + {v}, rest + EdgesOf(g, v))
  {
  }

  /** Dropping a waiting task that is already expanded keeps the search state. */
  lemma SkipKeepsFrontier(g: Graph, from: set<TaskId>, visited: set<TaskId>, rest: set<TaskId>, v: TaskId)
    requires Frontier(g, from, visited, rest + {v}) && v in visited
    ensures Frontier(g, from, visited, rest)
  {
  }

  /** What an expanded task points to is reachable when the task is. */
  lemma ExpandKeepsReachable(g: Graph, from: set<TaskId>, visited: set<TaskId>, rest: set<TaskId>, v: TaskId)
    requires AllReachable(g, from, visited + (rest + {v}))
    ensures AllReachable(g, from, (visited + {v}) + (rest + EdgesOf(g, v)))
  {
    forall x | x in EdgesOf(g, v)
      ensures Reachable(g, from, x)
    {
      ReachableStep(g, from, v, x);
    }
  }

  /** A finished search (nothing waiting) has found everything reachable. */
  lemma FinishedSearch(g: Graph, from: set<TaskId>, visited: set<TaskId>, x: TaskId)
    requires Frontier(g, from, visited, {})
    ensures Reachable(g, from, x) ==> x in visited
  {
    assert ClosedUnderEdges(g, visited);
    ClosedSetHoldsReachable(g, visited, from, x);
  }

  /** The invariant of a search from `from` for `target`: whatever it has
      seen is reachable and lies among the start tasks and the edge targets,
      `target` has not been expanded, and the frontier holds. */
  ghost predicate SearchState(g: Graph, from: set<TaskId>, target: TaskId,
                              visited: set<TaskId>, pending: set<TaskId>)
  {
    && visited + pending <= from + Targets(g)
    && AllReachable(g, from, visited + pending)
    && target !in visited
    && Frontier(g, from, visited, pending)
  }

  lemma SearchStart(g: Graph, from: set<TaskId>, target: TaskId)
    ensures SearchState(g, from, target, {}, from)
  {
    forall x | x in from
      ensures Reachable(g, from, x)
    {
      ReachableStart(g, from, x);
    }
  }

  /** Expanding a waiting task other than `target` keeps the invariant and
      leaves fewer tasks to expand. */
  lemma SearchExpand(g: Graph, from: set<TaskId>, target: TaskId,
                     visited: set<TaskId>, rest: set<TaskId>, v: TaskId)
    requires SearchState(g, from, target, visited, rest + {v})
    requires v != target && v !in visited
    ensures SearchState(g, from, target, visited + {v}, rest + EdgesOf(g, v))
    ensures |from + Targets(g) - (visited + {v})| < |from + Targets(g) - visited|
  {
    var u := from + Targets(g);
    TargetsHold(g, v);
    ExpandStaysWithin(u, visited, rest, v, EdgesOf(g, v));
    ExpandKeepsFrontier(g, from, visited, rest, v);
    ExpandKeepsReachable(g, from, visited, rest, v);
    FewerLeft(u, visited, v);
  }

  /** Expanding a task whose targets lie in `u` keeps the search inside `u`. */
  lemma ExpandStaysWithin(u: set<TaskId>, visited: set<TaskId>, rest: set<TaskId>, v: TaskId, edges: set<TaskId>)
    requires visited + (rest + {v}) <= u && edges <= u
    ensures v in u && (visited + {v}) + (rest + edges) <= u
  {
  }

  /** Adding a new member of `u` to `visited` shrinks what is left of `u`. */
  lemma FewerLeft(u: set<TaskId>, visited: set<TaskId>, v: TaskId)
    requires v in u && v !in visited
    ensures |u - (visited + {v})| < |u - visited|
  {
    assert u - (visited + {v}) == (u - visited) - {v};
  }

  /** Dropping a waiting task that is already expanded keeps the invariant. */
  lemma SearchSkip(g: Graph, from: set<TaskId>, target: TaskId,
                   visited: set<TaskId>, rest: set<TaskId>, v: TaskId)
    requires SearchState(g, from, target, visited, rest + {v}) && v in visited
    ensures SearchState(g, from, target, visited, rest)
  {
    SkipKeepsFrontier(g, from, visited, rest, v);
    assert visited + rest == visited + (rest + {v});
  }

  /** Meeting `target` among the waiting tasks proves it reachable. */
  lemma SearchFound(g: Graph, from: set<TaskId>, target: TaskId,
                    visited: set<TaskId>, rest: set<TaskId>)
    requires SearchState(g, from, target, visited, rest + {target})
    ensures Reachable(g, from, target)
  {
  }

  /** A search with nothing left waiting proves `target` unreachable. */
  lemma SearchDone(g: Graph, from: set<TaskId>, target: TaskId, visited: set<TaskId>)
    requires SearchState(g, from, target, visited, {})
    ensures !Reachable(g, from, target)
  {
    FinishedSearch(g, from, visited, target);
  }

  /** A queue whose head is `target`: the search has found it. */
  lemma QueueFound(g: Graph, from: set<TaskId>, target: TaskId, visited: set<TaskId>, queue: seq<TaskId>)
    requires |queue| > 0 && queue[0] == target
    requires SearchState(g, from, target, visited, Members(queue))
    ensures Reachable(g, from, target)
  {
    MembersSplit(queue);
    SearchFound(g, from, target, visited, Members(queue[1..]));
  }

  /** Expanding the head of the queue: it joins `visited` and its edge
      targets `more` join the back of the queue. */
  lemma QueueExpand(g: Graph, from: set<TaskId>, target: TaskId, visited: set<TaskId>,
                    queue: seq<TaskId>, more: seq<TaskId>)
    requires |queue| > 0 && queue[0] != target && queue[0] !in visited
    requires SearchState(g, from, target, visited, Members(queue))
    requires forall x :: x in more <==> x in EdgesOf(g, queue[0])
    ensures SearchState(g, from, target, visited + {queue[0]}, Members(queue[1..] + more))
    ensures |from + Targets(g) - (visited + {queue[0]})| < |from + Targets(g) - visited|
  {
    MembersSplit(queue);
    SearchExpand(g, from, target, visited, Members(queue[1..]), queue[0]);
    MembersExactly(more, EdgesOf(g, queue[0]));
    MembersAppend(queue[1..], more);
  }

  /** Dropping a head of the queue that was already expanded. */
  lemma QueueSkip(g: Graph, from: set<TaskId>, target: TaskId, visited: set<TaskId>, queue: seq<TaskId>)
    requires |queue| > 0 && queue[0] in visited
    requires SearchState(g, from, target, visited, Members(queue))
    ensures SearchState(g, from, target, visited, Members(queue[1..]))
  {
    MembersSplit(queue);
    SearchSkip(g, from, target, visited, Members(queue[1..]), queue[0]);
  }

  lemma PathSlice(g: Graph, p: seq<TaskId>, a: nat, b: nat)
    requires IsPath(g, p) && a < b <= |p|
    ensures IsPath(g, p[a..b])
  {
    var q := p[a..b];
    forall i | 0 <= i < |q| - 1
      ensures q[i + 1] in EdgesOf(g, q[i])
    {
      assert q[i] == p[a + i] && q[i + 1] == p[a + i + 1];
    }
  }

  lemma PathConcat(g: Graph, p: seq<TaskId>, q: seq<TaskId>)
    requires IsPath(g, p) && IsPath(g, q)
    requires q[0] in EdgesOf(g, p[|p| - 1])
    ensures IsPath(g, p + q)
  {
    var pq := p + q;
    forall i | 0 <= i < |pq| - 1
      ensures pq[i + 1] in EdgesOf(g, pq[i])
    {
      if i < |p| - 1 {
        assert pq[i] == p[i] && pq[i + 1] == p[i + 1];
      } else if i == |p| - 1 {
        assert pq[i] == p[|p| - 1] && pq[i + 1] == q[0];
      } else {
        assert pq[i] == q[i - |p|] && pq[i + 1] == q[i - |p| + 1];
      }
    }
  }

  /** Every member of `from` is reachable from `from`. */
  lemma ReachableStart(g: Graph, from: set<TaskId>, x: TaskId)
    requires x in from
    ensures Reachable(g, from, x)
  {
    assert IsPath(g, [x]);
  }

  /** Reachability extends along one more edge. */
  lemma ReachableStep(g: Graph, from: set<TaskId>, x: TaskId, y: TaskId)
    requires Reachable(g, from, x) && y in EdgesOf(g, x)
    ensures Reachable(g, from, y)
  {
    var p :| IsPath(g, p) && p[0] in from && p[|p| - 1] == x;
    assert IsPath(g, [y]);
    PathConcat(g, p, [y]);
    var q := p + [y];
    assert q[0] == p[0] && q[|q| - 1] == y;
  }

  lemma {:induction false} ClosedSetHoldsPath(g: Graph, s: set<TaskId>, p: seq<TaskId>, k: nat)
    requires IsPath(g, p) && p[0] in s && ClosedUnderEdges(g, s)
    requires k < |p|
    ensures p[k] in s
    decreases k
  {
    if k > 0 {
      ClosedSetHoldsPath(g, s, p, k - 1);
      assert p[k] in EdgesOf(g, p[k - 1]);
    }
  }

  /** A set closed under edges that holds the start set holds everything
      reachable from it: the completeness half of a breadth-first search. */
  lemma ClosedSetHoldsReachable(g: Graph, s: set<TaskId>, from: set<TaskId>, x: TaskId)
    requires from <= s && ClosedUnderEdges(g, s)
    ensures Reachable(g, from, x) ==> x in s
  {
    if Reachable(g, from, x) {
      var p :| IsPath(g, p) && p[0] in from && p[|p| - 1] == x;
      ClosedSetHoldsPath(g, s, p, |p| - 1);
    }
  }

  /** In an acyclic graph no task depends on itself. */
  lemma NoSelfDependency(g: Graph, t: TaskId)
    requires Acyclic(g)
    ensures t !in EdgesOf(g, t)
  {
    assert IsPath(g, [t, t]) <==> t in EdgesOf(g, t);
  }

  /** A path of `g[t := deps]` that never leaves `t` is a path of `g`. */
  lemma PathAvoidingReplaced(g: Graph, t: TaskId, deps: set<TaskId>, p: seq<TaskId>)
    requires IsPath(g[t := deps], p)
    requires forall i :: 0 <= i < |p| - 1 ==> p[i] != t
    ensures IsPath(g, p)
  {
    forall i | 0 <= i < |p| - 1
      ensures p[i + 1] in EdgesOf(g, p[i])
    {
      assert EdgesOf(g[t := deps], p[i]) == EdgesOf(g, p[i]);
    }
  }

  /** After replacing the edges of `t` by `deps`, whatever a path starting in
      `deps` reaches was already reachable from `deps` in the old graph. */
  lemma {:induction false} ReachableFromNewDeps(g: Graph, t: TaskId, deps: set<TaskId>, q: seq<TaskId>)
    requires IsPath(g[t := deps], q) && q[0] in deps
    ensures Reachable(g, deps, q[|q| - 1])
    decreases |q|
  {
    if exists k :: 0 <= k < |q| - 1 && q[k] == t {
      var k :| 0 <= k < |q| - 1 && q[k] == t;
      PathSlice(g[t := deps], q, k + 1, |q|);
      assert q[k + 1] in EdgesOf(g[t := deps], q[k]);
      ReachableFromNewDeps(g, t, deps, q[k + 1..]);
    } else {
      PathAvoidingReplaced(g, t, deps, q);
    }
  }

  /** After replacing the edges of `t`, a path that ends at `t` shortens to an
      old-graph path from the same start to `t`. */
  lemma {:induction false} OldPathToReplaced(g: Graph, t: TaskId, deps: set<TaskId>, p: seq<TaskId>)
    requires IsPath(g[t := deps], p) && p[|p| - 1] == t
    ensures exists w :: IsPath(g, w) && w[0] == p[0] && w[|w| - 1] == t
    decreases |p|
  {
    if exists k :: 0 <= k < |p| - 1 && p[k] == t {
      var k :| 0 <= k < |p| - 1 && p[k] == t;
      PathSlice(g[t := deps], p, 0, k + 1);
      OldPathToReplaced(g, t, deps, p[0..k + 1]);
    } else {
      PathAvoidingReplaced(g, t, deps, p);
    }
  }

  /** A cycle after replacing the edges of `t` by `deps` that passes through
      `t` means `t` was already reachable from `deps`. */
  lemma CycleThroughReplaced(g: Graph, t: TaskId, deps: set<TaskId>, p: seq<TaskId>, i: nat)
    requires IsPath(g[t := deps], p) && |p| >= 2 && p[0] == p[|p| - 1]
    requires i < |p| - 1 && p[i] == t
    ensures Reachable(g, deps, t)
  {
    var g' := g[t := deps];
    // from the cycle's start to t, in the old graph
    PathSlice(g', p, 0, i + 1);
    OldPathToReplaced(g, t, deps, p[0..i + 1]);
    var w1 :| IsPath(g, w1) && w1[0] == p[0] && w1[|w1| - 1] == t;
    // from a new dependency round to the cycle's start, in the old graph
    assert p[i + 1] in EdgesOf(g', p[i]);
    PathSlice(g', p, i + 1, |p|);
    ReachableFromNewDeps(g, t, deps, p[i + 1..]);
    var w2 :| IsPath(g, w2) && w2[0] in deps && w2[|w2| - 1] == p[0];
    if |w1| > 1 {
      PathSlice(g, w1, 1, |w1|);
      assert w1[1] in EdgesOf(g, w1[0]);
      PathConcat(g, w2, w1[1..]);
      var w := w2 + w1[1..];
      assert w[0] in deps && w[|w| - 1] == t;
    }
  }

  /** A cycle after replacing the edges of `t` by `deps` is either an old cycle
      or closes through `t`, in which case `t` was reachable from `deps`. */
  lemma CycleAfterReplace(g: Graph, t: TaskId, deps: set<TaskId>, p: seq<TaskId>)
    requires IsPath(g[t := deps], p) && |p| >= 2
    ensures p[0] == p[|p| - 1] ==> !Acyclic(g) || Reachable(g, deps, t)
  {
    if p[0] == p[|p| - 1] {
      if exists i :: 0 <= i < |p| - 1 && p[i] == t {
        var i :| 0 <= i < |p| - 1 && p[i] == t;
        CycleThroughReplaced(g, t, deps, p, i);
      } else {
        PathAvoidingReplaced(g, t, deps, p);
      }
    }
  }

  /** Headline: replacing the dependencies of `t` by `deps`, when `t` cannot be
      reached from `deps`, keeps an acyclic graph acyclic. */
  lemma AddKeepsAcyclic(g: Graph, t: TaskId, deps: set<TaskId>)
    requires Acyclic(g) && !Reachable(g, deps, t)
    ensures Acyclic(g[t := deps])
  {
    forall p | IsPath(g[t := deps], p) && |p| >= 2
      ensures p[0] != p[|p| - 1]
    {
      CycleAfterReplace(g, t, deps, p);
    }
  }

  /** Dropping a task's entry keeps an acyclic graph acyclic. */
  lemma RemoveKeepsAcyclic(g: Graph, t: TaskId)
    requires Acyclic(g)
    ensures Acyclic(g - {t})
  {
    forall p | IsPath(g - {t}, p) && |p| >= 2
      ensures p[0] != p[|p| - 1]
    {
      forall i | 0 <= i < |p| - 1
        ensures p[i + 1] in EdgesOf(g, p[i])
      {
        assert EdgesOf(g - {t}, p[i]) <= EdgesOf(g, p[i]);
      }
      assert IsPath(g, p);
    }
  }
}
