/**
 * Two small flows worked through the model: a three-task chain, whose only topological
 * order is the chain itself, and a pair of opposite edges, the second of which is
 * rejected as a cycle but stays in the flow.
 */
module Scenarios {
  import opened Common
  import opened FlowGraph

  /** No edge ends at `t`: nothing is upstream of it. */
  lemma NoneUpstream(g: Graph, t: Task)
    requires Valid(g) && forall e :: e in g.edges ==> e.downstream != t.id
    ensures UpstreamTasks(g, ByTask(t)) == {}
  {
  }

  /** Every edge into `t` starts at `u`, and one does: `u` alone is upstream of `t`. */
  lemma OnlyUpstream(g: Graph, t: Task, u: Task, key: Option<string>)
    requires Valid(g) && u.id in g.tasks && g.tasks[u.id] == u
    requires Edge(u.id, t.id, key) in g.edges
    requires forall e :: e in g.edges && e.downstream == t.id ==> e.upstream == u.id
    ensures UpstreamTasks(g, ByTask(t)) == {u}
  {
  }

  function Chain(a: Task, b: Task, c: Task): Graph {
    Graph(map[a.id := a, b.id := b, c.id := c], {Edge(a.id, b.id, None), Edge(b.id, c.id, None)})
  }

  lemma ChainValid(a: Task, b: Task, c: Task)
    requires a.id != b.id && b.id != c.id && a.id != c.id
    ensures Valid(Chain(a, b, c)) && Chain(a, b, c).tasks.Values == {a, b, c}
  {
  }

  /** In the chain a -> b -> c, upstream of a is nothing, upstream of b is a, upstream of c is b. */
  lemma ChainUpstream(a: Task, b: Task, c: Task)
    requires a.id != b.id && b.id != c.id && a.id != c.id
    ensures Valid(Chain(a, b, c))
    ensures UpstreamTasks(Chain(a, b, c), ByTask(a)) == {}
    ensures UpstreamTasks(Chain(a, b, c), ByTask(b)) == {a}
    ensures UpstreamTasks(Chain(a, b, c), ByTask(c)) == {b}
  {
  }

  /** A list of three distinct values, each listed once, with a before b before c, is [a, b, c]. */
  lemma ThreeInOrder<T>(order: seq<T>, a: T, b: T, c: T)
    requires a != b && b != c && a != c
    requires forall i, j :: 0 <= i < j < |order| ==> order[i] != order[j]
    requires forall t :: t in order <==> t == a || t == b || t == c
    requires forall i, j :: 0 <= i < |order| && 0 <= j < |order| && order[i] == a && order[j] == b ==> i < j
    requires forall i, j :: 0 <= i < |order| && 0 <= j < |order| && order[i] == b && order[j] == c ==> i < j
    ensures order == [a, b, c]
  {
    assert a in order && b in order && c in order;
    var ia :| 0 <= ia < |order| && order[ia] == a;
    var ib :| 0 <= ib < |order| && order[ib] == b;
    var ic :| 0 <= ic < |order| && order[ic] == c;
    assert order[0] in order;
    assert ia == 0;
    assert order[1] in order;
    assert ib == 1;
    assert order[2] in order;
    assert ic == 2;
    assert order[|order| - 1] in order;
  }

  /** The chain a -> b -> c is acyclic, and [a, b, c] is its only topological order. */
  lemma ChainSortsInOrder(a: Task, b: Task, c: Task, order: seq<Task>)
    requires a.id != b.id && b.id != c.id && a.id != c.id
    ensures Valid(Chain(a, b, c))
    ensures Acyclic(Chain(a, b, c), Chain(a, b, c).tasks.Values)
    ensures IsTopoOrder(Chain(a, b, c), order, Chain(a, b, c).tasks.Values) <==> order == [a, b, c]
  {
    var g := Chain(a, b, c);
    ChainValid(a, b, c);
    ChainUpstream(a, b, c);
    var abc := [a, b, c];
    assert RespectsEdges(g, abc) by {
      forall i, j | 0 <= i < 3 && 0 <= j < 3 && abc[i] in UpstreamTasks(g, ByTask(abc[j])) ensures i < j {
        if j == 0 {
          assert false;
        }
      }
    }
    assert IsTopoOrder(g, abc, g.tasks.Values);
    TopoOrderIsAcyclic(g, abc, g.tasks.Values);
    if IsTopoOrder(g, order, g.tasks.Values) {
      ThreeInOrder(order, a, b, c);
    }
  }

  function Pair(x: Task, y: Task, edges: set<Edge>): Graph {
    Graph(map[x.id := x, y.id := y], edges)
  }

  lemma PairValues(x: Task, y: Task, edges: set<Edge>)
    requires x.id != y.id
    ensures Pair(x, y, edges).tasks.Values == {x, y}
  {
    var g := Pair(x, y, edges);
    assert g.tasks[x.id] == x && g.tasks[y.id] == y;
    forall t | t in g.tasks.Values ensures t in {x, y} {
      var id :| id in g.tasks && g.tasks[id] == t;
    }
  }

  /** The first `add_edge(x, y)` on an empty flow succeeds. */
  lemma FirstEdgeAccepted(x: Task, y: Task)
    requires x.id != y.id
    ensures AddEdgeStep(Graph(map[], {}), x, y, None) == (Success(()), Pair(x, y, {Edge(x.id, y.id, None)}))
  {
    var g := Pair(x, y, {Edge(x.id, y.id, None)});
    PairValues(x, y, {Edge(x.id, y.id, None)});
    assert Valid(g);
    assert WithTask(Graph(map[], {}), x) == Graph(map[x.id := x], {});
    assert x in Graph(map[x.id := x], {}).tasks.Values;
    assert y !in Graph(map[x.id := x], {}).tasks.Values;
    assert WithTask(Graph(map[x.id := x], {}), y) == Pair(x, y, {});
    NoneUpstream(g, x);
    OnlyUpstream(g, y, x, None);
    var xy := [x, y];
    assert RespectsEdges(g, xy) by {
      forall i, j | 0 <= i < 2 && 0 <= j < 2 && xy[i] in UpstreamTasks(g, ByTask(xy[j])) ensures i < j {
        if j == 0 {
          assert false;
        } else if i == 1 {
          assert false;
        }
      }
    }
    assert forall t :: t in xy <==> t in g.tasks.Values;
    assert IsTopoOrder(g, xy, g.tasks.Values);
    TopoOrderIsAcyclic(g, xy, g.tasks.Values);
    assert !IsDuplicate(Pair(x, y, {}), y, None);
    assert Graph(Pair(x, y, {}).tasks, Pair(x, y, {}).edges + {Edge(x.id, y.id, None)}) == g;
    assert AddEdgeStep(Graph(map[], {}), x, y, None).1 == g;
  }

  /** The opposite `add_edge(y, x)` then raises Cyclic, and its edge stays. */
  lemma OppositeEdgeRejected(x: Task, y: Task)
    requires x.id != y.id
    ensures Valid(Pair(x, y, {Edge(x.id, y.id, None)}))
    ensures AddEdgeStep(Pair(x, y, {Edge(x.id, y.id, None)}), y, x, None)
      == (Failure(Cyclic), Pair(x, y, {Edge(x.id, y.id, None), Edge(y.id, x.id, None)}))
  {
    var g := Pair(x, y, {Edge(x.id, y.id, None), Edge(y.id, x.id, None)});
    PairValues(x, y, {Edge(x.id, y.id, None)});
    PairValues(x, y, g.edges);
    assert Valid(g);
    var g1 := Pair(x, y, {Edge(x.id, y.id, None)});
    assert WithTask(WithTask(g1, y), x) == g1;
    assert !IsDuplicate(g1, x, None);
    OnlyUpstream(g, x, y, None);
    OnlyUpstream(g, y, x, None);
    assert y in UpstreamTasks(g, ByTask(x)) * {x, y};
    assert x in UpstreamTasks(g, ByTask(y)) * {x, y};
    assert Stuck(g, {x, y});
    assert !Acyclic(g, g.tasks.Values);
    assert Graph(g1.tasks, g1.edges + {Edge(y.id, x.id, None)}) == g;
    assert AddEdgeStep(g1, y, x, None).1 == g;
  }

  /**
   * `add_edge(x, y)` then `add_edge(y, x)` on an empty flow: the first succeeds, the
   * second raises Cyclic, and its edge is left in the flow, which now holds a cycle.
   */
  lemma OppositeEdgeIsKept(x: Task, y: Task)
    requires x.id != y.id
    ensures var (r1, g1) := AddEdgeStep(Graph(map[], {}), x, y, None);
      && r1 == Success(())
      && Valid(g1)
      && var (r2, g2) := AddEdgeStep(g1, y, x, None);
      && r2 == Failure(Cyclic)
      && g2.edges == {Edge(x.id, y.id, None), Edge(y.id, x.id, None)}
      && Valid(g2) && !Acyclic(g2, g2.tasks.Values)
  {
    FirstEdgeAccepted(x, y);
    OppositeEdgeRejected(x, y);
    var g1 := Pair(x, y, {Edge(x.id, y.id, None)});
    AddEdgeCycle(g1, y, x, None);
  }
}
