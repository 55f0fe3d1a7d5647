/**
 * The mutable `Flow` object: tasks are added one at a time, edges are added with an
 * eager cycle check, and the topological sort walks the graph with two loops.
 * Each method is specified against the graph value of module FlowGraph.
 */
module Flows {
  import opened Common
  import opened FlowGraph

  /** What `add_task` may be handed: a Task, or some other Python object. */
  datatype Candidate = IsTask(task: Task) | NotTask(typeName: string)

  /** No two distinct tasks of `s` share an id. */
  ghost predicate UniqueIds(s: set<Task>) {
    forall a, b :: a in s && b in s && a.id == b.id ==> a == b
  }

  /** No task after position `k` of `order` has the id of `order[k]`. */
  predicate LastWithId(order: seq<Task>, k: nat)
    requires k < |order|
  {
    forall j :: k < j < |order| ==> order[j].id != order[k].id
  }

  /** The task map left by calling `add_task` on each task of `order` in turn, starting from none. */
  function Stored(order: seq<Task>): map<Id, Task>
    decreases |order|
  {
    if order == [] then map[]
    else
      var last := order[|order| - 1];
      Stored(order[..|order| - 1])[last.id := last]
  }

  /** Every id of `order` is stored, each under a task of `order` with that id, and the last task with an id wins. */
  lemma {:induction false} StoredSpec(order: seq<Task>)
    ensures Stored(order).Keys == (set t | t in order :: t.id)
    ensures forall id :: id in Stored(order) ==> Stored(order)[id] in order && Stored(order)[id].id == id
    ensures forall k :: 0 <= k < |order| && LastWithId(order, k) ==> Stored(order)[order[k].id] == order[k]
    decreases |order|
  {
    if order != [] {
      var n := |order| - 1;
      var front := order[..n];
      StoredSpec(front);
      assert order == front + [order[n]];
      forall k | 0 <= k < |order| && LastWithId(order, k)
        ensures Stored(order)[order[k].id] == order[k]
      {
        if k < n {
          assert LastWithId(front, k);
          assert order[n].id != order[k].id;
        }
      }
    }
  }

  /** The closure loop of `sorted_tasks`: expand the roots by downstream tasks until nothing new is seen. */
  method CollectDownstream(g: Graph, roots: set<Task>) returns (found: set<Task>)
    requires Valid(g)
    ensures found == Closure(g, roots)
  {
    ghost var target := Closure(g, roots);
    found := roots;
    var seen: set<Task> := {};
    while seen != found
      invariant seen <= found <= target
      invariant roots <= found
      invariant forall t {:trigger DownstreamTasks(g, ByTask(t))} :: t in seen ==> DownstreamTasks(g, ByTask(t)) <= found
      decreases |target - seen|
    {
      ghost var seenBefore := seen;
      var todo := found - seen;
      while todo != {}
        invariant todo <= found && todo !! seen
        invariant seenBefore <= seen <= found <= target
        invariant roots <= found
        invariant forall t {:trigger DownstreamTasks(g, ByTask(t))} :: t in seen ==> DownstreamTasks(g, ByTask(t)) <= found
        invariant seen == seenBefore ==> todo != {}
        decreases |todo|
      {
        var t :| t in todo;
        todo := todo - {t};
        found := found + DownstreamTasks(g, ByTask(t));
        seen := seen + {t};
      }
      FewerOutside(target, seenBefore, seen);
    }
    ClosureLeast(g, roots, found);
  }

  /** The state of the sort loop: `sorted` lists, in order, the tasks of `scope` no longer `remaining`. */
  ghost predicate SortedSoFar(g: Graph, scope: set<Task>, remaining: set<Task>, sorted: seq<Task>)
    requires Valid(g)
  {
    && remaining <= scope
    && (forall t :: t in sorted <==> t in scope && t !in remaining)
    && (forall i, j :: 0 <= i < j < |sorted| ==> sorted[i] != sorted[j])
    && RespectsEdges(g, sorted)
    && (forall j :: 0 <= j < |sorted| ==> UpstreamTasks(g, ByTask(sorted[j])) !! remaining)
  }

  /** Emitting a remaining task none of whose upstream tasks remains keeps the sort loop's state. */
  lemma EmitKeepsOrder(g: Graph, scope: set<Task>, remaining: set<Task>, sorted: seq<Task>, t: Task)
    requires Valid(g) && SortedSoFar(g, scope, remaining, sorted)
    requires t in remaining && UpstreamTasks(g, ByTask(t)) * remaining == {}
    ensures SortedSoFar(g, scope, remaining - {t}, sorted + [t])
  {
    var sorted', remaining' := sorted + [t], remaining - {t};
    assert t !in UpstreamTasks(g, ByTask(t)) by {
      assert t !in UpstreamTasks(g, ByTask(t)) * remaining;
    }
    forall i, j | 0 <= i < |sorted'| && 0 <= j < |sorted'| && sorted'[i] in UpstreamTasks(g, ByTask(sorted'[j]))
      ensures i < j
    {
      if j < |sorted| {
        assert sorted'[j] == sorted[j];
        if i == |sorted| {
          assert false;
        } else {
          assert sorted'[i] == sorted[i];
        }
      } else {
        assert sorted'[j] == t;
        if i == |sorted| {
          assert false;
        }
      }
    }
    forall j | 0 <= j < |sorted'| ensures UpstreamTasks(g, ByTask(sorted'[j])) !! remaining' {
      if j < |sorted| {
        assert sorted'[j] == sorted[j];
      }
    }
  }

  /** Once nothing remains, the sort loop's list is a topological order of its scope. */
  lemma SortedSoFarDone(g: Graph, scope: set<Task>, sorted: seq<Task>)
    requires Valid(g) && SortedSoFar(g, scope, {}, sorted)
    ensures IsTopoOrder(g, sorted, scope)
  {
  }

  /**
   * The sort loop of `sorted_tasks`: each pass over a snapshot of the remaining tasks
   * emits every task none of whose upstream tasks is still remaining; a pass that
   * emits nothing means the remaining tasks hold a cycle.
   */
  method TopoSort(g: Graph, scope: set<Task>) returns (r: Result<seq<Task>, Error>)
    requires Valid(g)
    ensures r.Success? <==> Acyclic(g, scope)
    ensures r.Success? ==> IsTopoOrder(g, r.value, scope)
    ensures r.Failure? ==> r.error == Cyclic
  {
    var remaining := scope;
    var sorted: seq<Task> := [];
    while remaining != {}
      invariant SortedSoFar(g, scope, remaining, sorted)
      decreases |remaining|
    {
      var progressed := false;
      var pass := remaining;
      ghost var before := remaining;
      while pass != {}
        invariant pass <= remaining <= before
        invariant SortedSoFar(g, scope, remaining, sorted)
        invariant progressed ==> |remaining| < |before|
        invariant !progressed ==> remaining == before
        invariant !progressed ==> forall t :: t in before - pass ==> UpstreamTasks(g, ByTask(t)) * remaining != {}
        decreases |pass|
      {
        var t :| t in pass;
        pass := pass - {t};
        if UpstreamTasks(g, ByTask(t)) * remaining == {} {
          EmitKeepsOrder(g, scope, remaining, sorted, t);
          remaining := remaining - {t};
          sorted := sorted + [t];
          progressed := true;
        }
      }
      if !progressed {
        assert Stuck(g, remaining);
        return Failure(Cyclic);
      }
    }
    SortedSoFarDone(g, scope, sorted);
    TopoOrderIsAcyclic(g, sorted, scope);
    return Success(sorted);
  }

  class Flow {
    var tasks: map<Id, Task>
    var edges: set<Edge>

    function View(): Graph
      reads this
    {
      Graph(tasks, edges)
    }

    ghost predicate Valid()
      reads this
    {
      FlowGraph.Valid(View())
    }

    /** A new flow has no tasks and no edges. */
    constructor()
      ensures Valid() && tasks == map[] && edges == {}
    {
      tasks := map[];
      edges := {};
    }

    /** `add_task`: a Task is stored under its id (replacing any entry there); anything else is a TypeError. */
    method AddTask(c: Candidate) returns (r: Result<(), Error>)
      requires Valid()
      modifies this
      ensures Valid() && edges == old(edges)
      ensures c.NotTask? ==> r == Failure(NotATask(c.typeName)) && tasks == old(tasks)
      ensures c.IsTask? ==> r == Success(()) && tasks == old(tasks)[c.task.id := c.task]
    {
      if c.NotTask? {
        return Failure(NotATask(c.typeName));
      }
      tasks := tasks[c.task.id := c.task];
      return Success(());
    }

    /** `add_edge(u, d, key)`, with the state it leaves behind on every path (see AddEdgeStep). */
    method AddEdge(u: Task, d: Task, key: Option<string>) returns (r: Result<(), Error>)
      requires Valid()
      modifies this
      ensures Valid()
      ensures (r, View()) == AddEdgeStep(old(View()), u, d, key)
    {
      ghost var g0 := View();
      WithTaskSpec(g0, u);
      WithTaskSpec(WithTask(g0, u), d);
      var edge := Edge(u.id, d.id, key);
      var added: Result<(), Error>;
      if u !in tasks.Values {
        added := AddTask(IsTask(u));
      }
      if d !in tasks.Values {
        added := AddTask(IsTask(d));
      }
      ghost var g1 := View();
      assert g1 == WithTask(WithTask(g0, u), d);
      if key.Some? && HasKeyedEdge(View(), d.id, key.value) {
        return Failure(DuplicateKey(d.id, key.value));
      }
      assert !IsDuplicate(g1, d, key);
      edges := edges + {edge};
      ghost var g2 := View();
      assert Valid();
      var sorted := SortedTasks(None);
      assert SortScope(g2, None) == Success(g2.tasks.Values);
      assert sorted.Success? <==> Acyclic(g2, g2.tasks.Values);
      if sorted.Failure? {
        return Failure(sorted.error);
      }
      return Success(());
    }

    /** The `add_edge` calls of `set_dependencies`, one per request, stopping at the first that raises. */
    method AddEach(reqs: seq<EdgeRequest>) returns (r: Result<(), Error>)
      requires Valid()
      modifies this
      ensures Valid()
      ensures (r, View()) == AddEdges(old(View()), reqs)
    {
      var i := 0;
      while i < |reqs|
        invariant 0 <= i <= |reqs| && Valid()
        invariant AddEdges(old(View()), reqs) == AddEdges(View(), reqs[i..])
      {
        AddEdgesFirst(View(), reqs[i..]);
        assert reqs[i..][0] == reqs[i] && reqs[i..][1..] == reqs[i + 1..];
        r := AddEdge(reqs[i].up, reqs[i].down, reqs[i].key);
        if r.Failure? {
          return;
        }
        i := i + 1;
      }
      r := Success(());
    }

    /**
     * `set_dependencies`: adds `task` if absent, then the edges from each upstream task,
     * to each downstream task and, keyed, from each upstream result, in that order,
     * stopping at the first `add_edge` that raises.
     */
    method SetDependencies(task: Task, upstream: seq<Task>, downstream: seq<Task>, keyed: seq<(string, Task)>)
      returns (r: Result<(), Error>)
      requires Valid()
      modifies this
      ensures Valid()
      ensures (r, View()) == AddEdges(WithTask(old(View()), task), DependencyRequests(task, upstream, downstream, keyed))
    {
      if task !in tasks.Values {
        r := AddTask(IsTask(task));
      }
      assert View() == WithTask(old(View()), task);
      r := AddEach(DependencyRequests(task, upstream, downstream, keyed));
    }

    /**
     * `sorted_tasks(roots)`: the tasks in scope (all of them, or the downstream closure of
     * the roots) in topological order, or ValueError('Flows must be acyclic!') when the
     * scope holds a cycle. Ties between tasks ready at the same time are broken arbitrarily.
     */
    method SortedTasks(roots: Option<seq<TaskRef>>) returns (r: Result<seq<Task>, Error>)
      requires Valid()
      ensures SortScope(View(), roots).Failure? ==> r == Failure(SortScope(View(), roots).error)
      ensures SortScope(View(), roots).Success? ==>
        var scope := SortScope(View(), roots).value;
        && (r.Success? <==> Acyclic(View(), scope))
        && (r.Success? ==> IsTopoOrder(View(), r.value, scope))
        && (r.Failure? ==> r.error == Cyclic)
    {
      var scope: set<Task>;
      if roots.Some? {
        var resolved := ResolveRoots(View(), roots.value);
        if resolved.Failure? {
          return Failure(resolved.error);
        }
        scope := CollectDownstream(View(), resolved.value);
      } else {
        scope := tasks.Values;
      }
      r := TopoSort(View(), scope);
    }

    /** The first loop of `sub_flow`: `add_task` for every task of `order`, into a flow with no edges. */
    method AddAll(order: seq<Task>)
      requires Valid() && tasks == map[] && edges == {}
      modifies this
      ensures Valid() && edges == {}
      ensures tasks == Stored(order)
    {
      for i := 0 to |order|
        invariant Valid() && edges == {}
        invariant tasks == Stored(order[..i])
      {
        assert order[..i + 1][..i] == order[..i];
        var added := AddTask(IsTask(order[i]));
      }
      assert order[..|order|] == order;
    }

    /** The second loop of `sub_flow`: keep exactly the edges of `es` whose two endpoints this flow holds. */
    method KeepEdgesWithin(es: set<Edge>)
      requires Valid() && edges == {}
      modifies this
      ensures Valid() && tasks == old(tasks)
      ensures edges == set e | e in es && e.upstream in tasks && e.downstream in tasks
    {
      var pending := es;
      while pending != {}
        invariant pending <= es && tasks == old(tasks) && Valid()
        invariant edges == set e | e in es - pending && e.upstream in tasks && e.downstream in tasks
        decreases |pending|
      {
        var e :| e in pending;
        pending := pending - {e};
        if e.upstream in tasks && e.downstream in tasks {
          edges := edges + {e};
        }
      }
      assert es - pending == es;
    }

    /**
     * `sub_flow(roots)`: a new flow holding the sorted tasks in scope and exactly the
     * edges of this flow whose two endpoints it holds. This flow is not changed.
     */
    method SubFlow(roots: Option<seq<TaskRef>>) returns (r: Result<Flow, Error>)
      requires Valid()
      ensures SortScope(View(), roots).Failure? ==> r == Failure(SortScope(View(), roots).error)
      ensures SortScope(View(), roots).Success? ==>
        var scope := SortScope(View(), roots).value;
        && (r.Success? <==> Acyclic(View(), scope))
        && (r.Failure? ==> r.error == Cyclic)
        && (r.Success? ==>
              && fresh(r.value) && r.value.Valid()
              && r.value.tasks.Keys == (set t | t in scope :: t.id)
              && (forall id :: id in r.value.tasks ==> r.value.tasks[id] in scope)
              && (UniqueIds(scope) ==> r.value.tasks.Values == scope)
              && r.value.edges == (set e | e in edges && e.upstream in r.value.tasks && e.downstream in r.value.tasks))
    {
      var sorted := SortedTasks(roots);
      if sorted.Failure? {
        return Failure(sorted.error);
      }
      ghost var scope := SortScope(View(), roots).value;
      var sub := new Flow();
      sub.AddAll(sorted.value);
      StoredSpec(sorted.value);
      sub.KeepEdgesWithin(edges);
      if UniqueIds(scope) {
        forall t | t in scope ensures t in sub.tasks.Values {
          assert sub.tasks[t.id] in scope;
        }
      }
      return Success(sub);
    }
  }
}
