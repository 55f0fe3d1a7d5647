/**
 * The task dependency graph of a flow, as a value: a map from task id to task and a
 * set of edges. This module holds the read-only queries of `Flow` (which are set and
 * dict comprehensions in the source) and the predicates that specify the mutating
 * operations and the topological sort implemented in module Flows.
 */
module FlowGraph {
  import opened Common

  type Id = string

  /** A plain task, or a Parameter with its `required` flag and `default` value. */
  datatype Kind = Plain | Parameter(required: bool, default: Value)

  datatype Task = Task(id: Id, name: string, kind: Kind)

  /** An edge from `upstream` to `downstream`; `key` names the input it feeds, if any. */
  datatype Edge = Edge(upstream: Id, downstream: Id, key: Option<string>)

  /** The queries accept a task or its id. */
  datatype TaskRef = ById(id: Id) | ByTask(task: Task)
  {
    function RefId(): Id {
      match this
      case ById(i) => i
      case ByTask(t) => t.id
    }
  }

  /** The errors the flow operations raise. */
  datatype Error =
    | NotATask(typeName: string)                // TypeError('Expected a Task; ...')
    | TaskNotFound(id: Id)                      // ValueError('Task ... was not found in the Flow')
    | DuplicateKey(downstream: Id, key: string) // ValueError('An edge to task ... already exists!')
    | Cyclic                                    // ValueError('Flows must be acyclic!')

  datatype ParamInfo = ParamInfo(required: bool, default: Value)

  datatype Graph = Graph(tasks: map<Id, Task>, edges: set<Edge>)

  /** Every task is stored under its own id, and every edge joins two tasks of the graph. */
  ghost predicate Valid(g: Graph) {
    && (forall id :: id in g.tasks ==> g.tasks[id].id == id)
    && (forall e :: e in g.edges ==> e.upstream in g.tasks && e.downstream in g.tasks)
  }

  function GetTask(g: Graph, id: Id): (r: Result<Task, Error>)
    ensures r.Success? <==> id in g.tasks
    ensures r.Success? ==> r.value == g.tasks[id]
    ensures r.Failure? ==> r.error == TaskNotFound(id)
  {
    if id in g.tasks then Success(g.tasks[id]) else Failure(TaskNotFound(id))
  }

  /** `edges_to`: the edges of the graph that end at `t`. */
  function EdgesTo(g: Graph, t: TaskRef): (r: set<Edge>)
    ensures r <= g.edges
    ensures forall e :: e in r ==> e.downstream == t.RefId()
  {
    set e | e in g.edges && e.downstream == t.RefId()
  }

  /** `edges_from`: the edges of the graph that start at `t`. */
  function EdgesFrom(g: Graph, t: TaskRef): (r: set<Edge>)
    ensures r <= g.edges
    ensures forall e :: e in r ==> e.upstream == t.RefId()
  {
    set e | e in g.edges && e.upstream == t.RefId()
  }

  /** Every edge of a well-formed graph is listed both into the task at its end and out of the task at its start. */
  lemma EveryEdgeListed(g: Graph, e: Edge)
    requires Valid(g) && e in g.edges
    ensures e in EdgesTo(g, ByTask(g.tasks[e.downstream])) && e in EdgesFrom(g, ByTask(g.tasks[e.upstream]))
    ensures e in EdgesTo(g, ById(e.downstream)) && e in EdgesFrom(g, ById(e.upstream))
  {
  }

  /** The queries give the same answer for a task and for its id. */
  lemma TaskOrIdAlike(g: Graph, t: Task)
    requires Valid(g)
    ensures EdgesTo(g, ById(t.id)) == EdgesTo(g, ByTask(t))
    ensures EdgesFrom(g, ById(t.id)) == EdgesFrom(g, ByTask(t))
    ensures UpstreamTasks(g, ById(t.id)) == UpstreamTasks(g, ByTask(t))
    ensures DownstreamTasks(g, ById(t.id)) == DownstreamTasks(g, ByTask(t))
  {
  }

  /** The tasks at the far end of the edges into `t`. */
  function UpstreamTasks(g: Graph, t: TaskRef): (r: set<Task>)
    requires Valid(g)
    ensures r <= g.tasks.Values
  {
    set e | e in g.edges && e.downstream == t.RefId() :: g.tasks[e.upstream]
  }

  /** The tasks at the far end of the edges out of `t`. */
  function DownstreamTasks(g: Graph, t: TaskRef): (r: set<Task>)
    requires Valid(g)
    ensures r <= g.tasks.Values
  {
    set e | e in g.edges && e.upstream == t.RefId() :: g.tasks[e.downstream]
  }

  /** A task is upstream of `t` exactly when an edge into `t` starts at its id. */
  lemma UpstreamTasksSpec(g: Graph, t: TaskRef)
    requires Valid(g)
    ensures UpstreamTasks(g, t) == {} <==> EdgesTo(g, t) == {}
    ensures forall u :: u in UpstreamTasks(g, t) <==>
      u in g.tasks.Values && exists e :: e in EdgesTo(g, t) && e.upstream == u.id
  {
    var r := UpstreamTasks(g, t);
    assert forall e :: e in EdgesTo(g, t) ==> g.tasks[e.upstream] in r;
    assert forall u :: u in r ==> exists e :: e in EdgesTo(g, t) && g.tasks[e.upstream] == u;
  }

  /** A task is downstream of `t` exactly when an edge out of `t` ends at its id. */
  lemma DownstreamTasksSpec(g: Graph, t: TaskRef)
    requires Valid(g)
    ensures DownstreamTasks(g, t) == {} <==> EdgesFrom(g, t) == {}
    ensures forall d :: d in DownstreamTasks(g, t) <==>
      d in g.tasks.Values && exists e :: e in EdgesFrom(g, t) && e.downstream == d.id
  {
    var r := DownstreamTasks(g, t);
    assert forall e :: e in EdgesFrom(g, t) ==> g.tasks[e.downstream] in r;
    assert forall d :: d in r ==> exists e :: e in EdgesFrom(g, t) && g.tasks[e.downstream] == d;
  }

  /** For two tasks of the graph, one is upstream of the other exactly when the other is downstream of it. */
  lemma UpstreamDownstreamDual(g: Graph, u: Task, d: Task)
    requires Valid(g) && u in g.tasks.Values && d in g.tasks.Values
    ensures u in UpstreamTasks(g, ByTask(d)) <==> d in DownstreamTasks(g, ByTask(u))
  {
  }

  /** The tasks without incoming edges. */
  function RootTasks(g: Graph): (r: set<Task>)
    ensures r <= g.tasks.Values
  {
    set t | t in g.tasks.Values && EdgesTo(g, ByTask(t)) == {}
  }

  /** The tasks without outgoing edges. */
  function TerminalTasks(g: Graph): (r: set<Task>)
    ensures r <= g.tasks.Values
  {
    set t | t in g.tasks.Values && EdgesFrom(g, ByTask(t)) == {}
  }

  /** A task of the graph is a root exactly when nothing is upstream of it. */
  lemma RootTasksSpec(g: Graph, t: Task)
    requires Valid(g)
    ensures t in RootTasks(g) <==> t in g.tasks.Values && UpstreamTasks(g, ByTask(t)) == {}
  {
    UpstreamTasksSpec(g, ByTask(t));
  }

  /** A task of the graph is terminal exactly when nothing is downstream of it. */
  lemma TerminalTasksSpec(g: Graph, t: Task)
    requires Valid(g)
    ensures t in TerminalTasks(g) <==> t in g.tasks.Values && DownstreamTasks(g, ByTask(t)) == {}
  {
    DownstreamTasksSpec(g, ByTask(t));
  }

  predicate IsListedParameter(t: Task, onlyRequired: bool) {
    t.kind.Parameter? && (onlyRequired ==> t.kind.required)
  }

  /**
   * The parameters of the flow by name. When two parameters share a name, the dict
   * comprehension keeps whichever comes last in dict order; the model leaves that choice open.
   */
  ghost function Parameters(g: Graph, onlyRequired: bool): (r: map<string, ParamInfo>)
    ensures forall n :: n in r <==> exists t :: t in g.tasks.Values && IsListedParameter(t, onlyRequired) && t.name == n
    ensures forall n :: n in r ==>
      exists t :: t in g.tasks.Values && IsListedParameter(t, onlyRequired) && t.name == n
                  && r[n] == ParamInfo(t.kind.required, t.kind.default)
  {
    var names := set t | t in g.tasks.Values && IsListedParameter(t, onlyRequired) :: t.name;
    map n | n in names ::
      var t :| t in g.tasks.Values && IsListedParameter(t, onlyRequired) && t.name == n;
      ParamInfo(t.kind.required, t.kind.default)
  }

  // ---------------------------------------------------------------------------
  // Specification of the topological sort
  // ---------------------------------------------------------------------------

  /** A non-empty set of tasks each of which has an upstream task inside the set: a cycle is in it. */
  ghost predicate Stuck(g: Graph, s: set<Task>)
    requires Valid(g)
  {
    s != {} && forall t {:trigger UpstreamTasks(g, ByTask(t))} :: t in s ==> UpstreamTasks(g, ByTask(t)) * s != {}
  }

  ghost predicate Acyclic(g: Graph, s: set<Task>)
    requires Valid(g)
  {
    forall sub :: sub <= s ==> !Stuck(g, sub)
  }

  /** An edge into a task from itself is a cycle. */
  lemma SelfLoopIsCycle(g: Graph, t: Task, key: Option<string>)
    requires Valid(g) && t in g.tasks.Values && Edge(t.id, t.id, key) in g.edges
    ensures !Acyclic(g, g.tasks.Values)
  {
    var e := Edge(t.id, t.id, key);
    assert g.tasks[t.id] == t;
    assert e in EdgesTo(g, ByTask(t));
    UpstreamTasksSpec(g, ByTask(t));
    assert t in UpstreamTasks(g, ByTask(t)) * {t};
    assert Stuck(g, {t});
  }

  /** Whenever `order[i]` is upstream of `order[j]`, it comes first. */
  ghost predicate RespectsEdges(g: Graph, order: seq<Task>)
    requires Valid(g)
  {
    forall i, j :: 0 <= i < |order| && 0 <= j < |order| && order[i] in UpstreamTasks(g, ByTask(order[j])) ==> i < j
  }

  /** `order` lists every task of `s` exactly once, upstream before downstream. */
  ghost predicate IsTopoOrder(g: Graph, order: seq<Task>, s: set<Task>)
    requires Valid(g)
  {
    && (forall i, j :: 0 <= i < j < |order| ==> order[i] != order[j])
    && (forall t :: t in order <==> t in s)
    && RespectsEdges(g, order)
  }

  /** In a topological order, for every edge between two of its tasks the upstream task comes first. */
  lemma TopoOrderRespectsEveryEdge(g: Graph, order: seq<Task>, s: set<Task>, e: Edge, i: nat, j: nat)
    requires Valid(g) && IsTopoOrder(g, order, s) && e in g.edges
    requires i < |order| && j < |order| && order[i] == g.tasks[e.upstream] && order[j].id == e.downstream
    ensures i < j
  {
  }

  /** The first task of `order` that lies in `sub` has no upstream task in `sub`. */
  lemma {:induction false} FirstUnblocked(g: Graph, order: seq<Task>, sub: set<Task>) returns (t: Task)
    requires Valid(g) && RespectsEdges(g, order)
    requires sub != {} && forall x :: x in sub ==> x in order
    ensures t in sub && UpstreamTasks(g, ByTask(t)) * sub == {}
  {
    if order[0] in sub {
      t := order[0];
      assert forall u :: u in sub ==> exists i :: 0 <= i < |order| && order[i] == u;
    } else {
      var rest := order[1..];
      assert RespectsEdges(g, rest) by {
        forall i, j | 0 <= i < |rest| && 0 <= j < |rest| && rest[i] in UpstreamTasks(g, ByTask(rest[j]))
          ensures i < j
        {
          assert order[i + 1] == rest[i] && order[j + 1] == rest[j];
        }
      }
      forall x | x in sub ensures x in rest {
        var k :| 0 <= k < |order| && order[k] == x;
        assert k != 0;
        assert rest[k - 1] == x;
      }
      t := FirstUnblocked(g, rest, sub);
    }
  }

  /** A set that can be listed in topological order holds no cycle. */
  lemma TopoOrderIsAcyclic(g: Graph, order: seq<Task>, s: set<Task>)
    requires Valid(g) && IsTopoOrder(g, order, s)
    ensures Acyclic(g, s)
  {
    forall sub | sub <= s ensures !Stuck(g, sub) {
      if sub != {} {
        var t := FirstUnblocked(g, order, sub);
      }
    }
  }

  // ---------------------------------------------------------------------------
  // Downstream closure of a root set
  // ---------------------------------------------------------------------------

  ghost predicate DownClosed(g: Graph, s: set<Task>)
    requires Valid(g)
  {
    forall t {:trigger DownstreamTasks(g, ByTask(t))} :: t in s ==> DownstreamTasks(g, ByTask(t)) <= s
  }

  /** `s` together with the immediate downstream tasks of its members. */
  ghost function Step(g: Graph, s: set<Task>): (r: set<Task>)
    requires Valid(g)
    ensures s <= r <= s + g.tasks.Values
    ensures r == s ==> DownClosed(g, s)
  {
    var r := s + (set t, u | t in s && u in DownstreamTasks(g, ByTask(t)) :: u);
    assert forall t, u :: t in s && u in DownstreamTasks(g, ByTask(t)) ==> u in r;
    r
  }

  /** Growing `s` inside `values` leaves fewer of `values` outside it. */
  lemma FewerOutside<T>(values: set<T>, s: set<T>, n: set<T>)
    requires s <= n <= s + values && n != s
    ensures |values - n| < |values - s|
  {
    assert !(n <= s);
    var x :| x in n && x !in s;
    var smaller, larger := values - n, values - s;
    assert larger == smaller + {x} + (larger - smaller - {x});
    assert x !in smaller;
  }

  /** The least superset of `s` closed under taking downstream tasks. */
  ghost function Closure(g: Graph, s: set<Task>): (c: set<Task>)
    requires Valid(g)
    ensures s <= c && DownClosed(g, c)
    decreases |g.tasks.Values - s|
  {
    var n := Step(g, s);
    if n == s then s
    else
      FewerOutside(g.tasks.Values, s, n);
      Closure(g, n)
  }

  lemma {:induction false} ClosureLeast(g: Graph, s: set<Task>, bound: set<Task>)
    requires Valid(g) && s <= bound && DownClosed(g, bound)
    ensures Closure(g, s) <= bound
    decreases |g.tasks.Values - s|
  {
    var n := Step(g, s);
    if n != s {
      FewerOutside(g.tasks.Values, s, n);
      forall x | x in n ensures x in bound {
        if x !in s {
          var t, u :| t in s && u in DownstreamTasks(g, ByTask(t)) && u == x;
        }
      }
      ClosureLeast(g, n, bound);
    }
  }

  /** The task a root reference stands for (an id is looked up, a task is taken as it is). */
  function Resolve(g: Graph, r: TaskRef): (t: Task)
    requires r.ById? ==> r.id in g.tasks
    ensures r.ById? ==> t == g.tasks[r.id]
    ensures r.ByTask? ==> t == r.task
    ensures Valid(g) ==> t.id == r.RefId()
  {
    match r
    case ById(id) => g.tasks[id]
    case ByTask(t) => t
  }

  /** The root set of `sorted_tasks`: resolving stops at the first unknown id. */
  function ResolveRoots(g: Graph, refs: seq<TaskRef>): (r: Result<set<Task>, Error>)
    ensures r.Success? <==> forall i :: 0 <= i < |refs| && refs[i].ById? ==> refs[i].id in g.tasks
    ensures r.Success? ==> forall t :: t in r.value <==> exists i :: 0 <= i < |refs| && Resolve(g, refs[i]) == t
    ensures r.Failure? ==> exists i :: 0 <= i < |refs| && refs[i].ById? && refs[i].id !in g.tasks
                                     && r.error == TaskNotFound(refs[i].id)
                                     && forall j :: 0 <= j < i && refs[j].ById? ==> refs[j].id in g.tasks
  {
    if refs == [] then Success({})
    else if refs[0].ById? && refs[0].id !in g.tasks then Failure(TaskNotFound(refs[0].id))
    else
      match ResolveRoots(g, refs[1..])
      case Failure(e) =>
        assert forall i :: 1 <= i < |refs| ==> refs[i] == refs[1..][i - 1];
        Failure(e)
      case Success(rest) =>
        assert forall i :: 1 <= i < |refs| ==> refs[i] == refs[1..][i - 1];
        Success({Resolve(g, refs[0])} + rest)
  }

  /** The set of tasks `sorted_tasks(roots)` orders: all tasks, or the downstream closure of the roots. */
  ghost function SortScope(g: Graph, roots: Option<seq<TaskRef>>): (r: Result<set<Task>, Error>)
    requires Valid(g)
    ensures roots.None? ==> r == Success(g.tasks.Values)
    ensures roots.Some? ==> (r.Success? <==> ResolveRoots(g, roots.value).Success?)
    ensures roots.Some? && r.Success? ==> ResolveRoots(g, roots.value).value <= r.value && DownClosed(g, r.value)
    ensures r.Failure? ==> r.error.TaskNotFound?
  {
    match roots
    case None => Success(g.tasks.Values)
    case Some(refs) =>
      match ResolveRoots(g, refs)
      case Failure(e) => Failure(e)
      case Success(rs) => Success(Closure(g, rs))
  }

  // ---------------------------------------------------------------------------
  // Specification of add_edge and set_dependencies as state transitions
  // ---------------------------------------------------------------------------

  /** The flow with `t` stored under its id, unless `t` is already one of its tasks. */
  function WithTask(g: Graph, t: Task): (r: Graph)
    ensures t in r.tasks.Values && r.edges == g.edges
    ensures t in g.tasks.Values ==> r == g
  {
    if t in g.tasks.Values then g
    else
      var m := g.tasks[t.id := t];
      assert m[t.id] == t;
      Graph(m, g.edges)
  }

  predicate HasKeyedEdge(g: Graph, downstream: Id, key: string) {
    exists e :: e in g.edges && e.downstream == downstream && e.key == Some(key)
  }

  /** A new edge into `d` with `key` would repeat a key: the key is not null and some edge into `d` carries it. */
  predicate IsDuplicate(g: Graph, d: Task, key: Option<string>): (b: bool)
    ensures b ==> key.Some?
    ensures b <==> key.Some? && exists e :: e in EdgesTo(g, ByTask(d)) && e.key == key
  {
    key.Some? && HasKeyedEdge(g, d.id, key.value)
  }

  lemma WithTaskSpec(g: Graph, t: Task)
    requires Valid(g)
    ensures Valid(WithTask(g, t)) && WithTask(g, t).edges == g.edges
    ensures WithTask(g, t).tasks.Keys == g.tasks.Keys + {t.id} && t in WithTask(g, t).tasks.Values
    ensures forall id :: id in g.tasks && id != t.id ==> WithTask(g, t).tasks[id] == g.tasks[id]
  {
  }

  /**
   * `add_edge(u, d, key)`: the error it raises (if any) and the graph it leaves behind.
   * The endpoints are inserted before the duplicate-key check, and an edge that closes
   * a cycle stays in place although the call raises.
   */
  ghost function AddEdgeStep(g: Graph, u: Task, d: Task, key: Option<string>): (r: (Result<(), Error>, Graph))
    requires Valid(g)
    ensures Valid(r.1) && g.edges <= r.1.edges
    ensures r.0.Success? || r.0 == Failure(Cyclic) || (key.Some? && r.0 == Failure(DuplicateKey(d.id, key.value)))
  {
    WithTaskSpec(g, u);
    WithTaskSpec(WithTask(g, u), d);
    var g1 := WithTask(WithTask(g, u), d);
    if IsDuplicate(g1, d, key) then
      (Failure(DuplicateKey(d.id, key.value)), g1)
    else
      var g2 := Graph(g1.tasks, g1.edges + {Edge(u.id, d.id, key)});
      (if Acyclic(g2, g2.tasks.Values) then Success(()) else Failure(Cyclic), g2)
  }

  /** `add_edge` inserts both endpoints if absent and keeps the graph well formed. */
  lemma AddEdgeInsertsEndpoints(g: Graph, u: Task, d: Task, key: Option<string>)
    requires Valid(g)
    ensures var g' := AddEdgeStep(g, u, d, key).1;
      && Valid(g')
      && g'.tasks.Keys == g.tasks.Keys + {u.id, d.id}
      && d in g'.tasks.Values && (u.id != d.id ==> u in g'.tasks.Values)
      && (forall id :: id in g.tasks && id != u.id && id != d.id ==> g'.tasks[id] == g.tasks[id])
  {
  }

  /**
   * With a key, `add_edge` raises DuplicateKey exactly when an edge into `d` with that key
   * exists, and then adds no edge; otherwise (and always without a key) it adds the edge.
   */
  lemma AddEdgeDuplicateKey(g: Graph, u: Task, d: Task, key: Option<string>)
    requires Valid(g)
    ensures var (r, g') := AddEdgeStep(g, u, d, key);
      && (IsDuplicate(g, d, key) <==> r.Failure? && r.error.DuplicateKey?)
      && (IsDuplicate(g, d, key) ==> r == Failure(DuplicateKey(d.id, key.value)) && g'.edges == g.edges)
      && (!IsDuplicate(g, d, key) ==> g'.edges == g.edges + {Edge(u.id, d.id, key)})
  {
  }

  /**
   * Without a duplicate, `add_edge` raises Cyclic exactly when the graph with the new edge
   * holds a cycle; that graph, edge included, is what it leaves behind.
   */
  lemma AddEdgeCycle(g: Graph, u: Task, d: Task, key: Option<string>)
    requires Valid(g)
    ensures var (r, g') := AddEdgeStep(g, u, d, key);
      && Valid(g')
      && (r == Failure(Cyclic) <==> !IsDuplicate(g, d, key) && !Acyclic(g', g'.tasks.Values))
      && (r.Success? || r.error.DuplicateKey? || r.error.Cyclic?)
  {
  }

  /** The tasks that `g'` stores under the ids of the tasks of `s`. */
  ghost function Image(g': Graph, s: set<Task>): (r: set<Task>)
    requires forall t :: t in s ==> t.id in g'.tasks
    ensures r <= g'.tasks.Values
    ensures forall t :: t in s ==> g'.tasks[t.id] in r
  {
    set t | t in s :: g'.tasks[t.id]
  }

  /** A stuck set of `g` stays stuck, id for id, in any graph that keeps its ids and edges. */
  lemma StuckPersists(g: Graph, g': Graph, s: set<Task>)
    requires Valid(g) && Valid(g')
    requires g.tasks.Keys <= g'.tasks.Keys && g.edges <= g'.edges
    requires s <= g.tasks.Values && Stuck(g, s)
    ensures Stuck(g', Image(g', s))
  {
    var s' := Image(g', s);
    forall x | x in s'
      ensures UpstreamTasks(g', ByTask(x)) * s' != {}
    {
      var t :| t in s && x == g'.tasks[t.id];
      assert UpstreamTasks(g, ByTask(t)) * s != {};
      var w :| w in UpstreamTasks(g, ByTask(t)) * s;
      var e :| e in g.edges && e.downstream == t.id && g.tasks[e.upstream] == w;
      assert e.upstream == w.id && x.id == t.id;
      assert g'.tasks[w.id] in UpstreamTasks(g', ByTask(x)) * s';
    }
    var t :| t in s;
    assert g'.tasks[t.id] in s';
  }

  /** A flow with a cycle keeps one under any change that keeps its ids and edges. */
  lemma CyclicStaysCyclic(g: Graph, g': Graph)
    requires Valid(g) && Valid(g')
    requires g.tasks.Keys <= g'.tasks.Keys && g.edges <= g'.edges
    requires !Acyclic(g, g.tasks.Values)
    ensures !Acyclic(g', g'.tasks.Values)
  {
    var s :| s <= g.tasks.Values && Stuck(g, s);
    forall t | t in s ensures t.id in g'.tasks {
      assert g.tasks[t.id] == t;
    }
    StuckPersists(g, g', s);
  }

  /**
   * Once a flow has a cycle, `add_edge` can no longer succeed: it raises Cyclic unless
   * the duplicate-key check raises first, and the flow it leaves still has a cycle.
   */
  lemma CycleIsPermanent(g: Graph, u: Task, d: Task, key: Option<string>)
    requires Valid(g) && !Acyclic(g, g.tasks.Values)
    ensures var (r, g') := AddEdgeStep(g, u, d, key);
      && r.Failure?
      && (r == Failure(Cyclic) <==> !IsDuplicate(g, d, key))
      && !Acyclic(g', g'.tasks.Values)
  {
    AddEdgeInsertsEndpoints(g, u, d, key);
    AddEdgeCycle(g, u, d, key);
    var g' := AddEdgeStep(g, u, d, key).1;
    CyclicStaysCyclic(g, g');
  }

  /** A self-loop is rejected as a cycle, like any longer cycle. */
  lemma SelfLoopRejected(g: Graph, t: Task)
    requires Valid(g)
    ensures AddEdgeStep(g, t, t, None).0 == Failure(Cyclic)
  {
    AddEdgeInsertsEndpoints(g, t, t, None);
    AddEdgeDuplicateKey(g, t, t, None);
    var g2 := AddEdgeStep(g, t, t, None).1;
    SelfLoopIsCycle(g2, t, None);
  }

  datatype EdgeRequest = EdgeRequest(up: Task, down: Task, key: Option<string>)

  function RequestedEdges(reqs: seq<EdgeRequest>): set<Edge> {
    set r | r in reqs :: Edge(r.up.id, r.down.id, r.key)
  }

  /** `add_edge` applied to each request in turn, stopping at the first that raises. */
  ghost function AddEdges(g: Graph, reqs: seq<EdgeRequest>): (r: (Result<(), Error>, Graph))
    requires Valid(g)
    ensures Valid(r.1) && g.edges <= r.1.edges
    decreases |reqs|
  {
    if reqs == [] then (Success(()), g)
    else
      var step := AddEdgeStep(g, reqs[0].up, reqs[0].down, reqs[0].key);
      AddEdgeInsertsEndpoints(g, reqs[0].up, reqs[0].down, reqs[0].key);
      if step.0.Failure? then step else AddEdges(step.1, reqs[1..])
  }

  /** One step of the fold, as `AddEach` takes it: the first request, then the rest unless it raised. */
  lemma AddEdgesFirst(g: Graph, reqs: seq<EdgeRequest>)
    requires Valid(g) && reqs != []
    ensures var step := AddEdgeStep(g, reqs[0].up, reqs[0].down, reqs[0].key);
      AddEdges(g, reqs) == if step.0.Failure? then step else AddEdges(step.1, reqs[1..])
  {
  }

  /**
   * After a run of `add_edge` calls, the edges added are among those requested, and all of
   * them when no call raised; the tasks of every request are then in the graph.
   */
  lemma {:induction false} AddEdgesSpec(g: Graph, reqs: seq<EdgeRequest>)
    requires Valid(g)
    ensures var (r, g') := AddEdges(g, reqs);
      && Valid(g')
      && g.tasks.Keys <= g'.tasks.Keys
      && g.edges <= g'.edges <= g.edges + RequestedEdges(reqs)
      && (r.Success? ==> g'.edges == g.edges + RequestedEdges(reqs))
      && (r.Success? ==> forall q :: q in reqs ==> q.up.id in g'.tasks && q.down.id in g'.tasks)
      && (r.Failure? ==> r.error.DuplicateKey? || r.error.Cyclic?)
    decreases |reqs|
  {
    if reqs != [] {
      var q := reqs[0];
      AddEdgeInsertsEndpoints(g, q.up, q.down, q.key);
      AddEdgeDuplicateKey(g, q.up, q.down, q.key);
      AddEdgeCycle(g, q.up, q.down, q.key);
      var step := AddEdgeStep(g, q.up, q.down, q.key);
      assert RequestedEdges(reqs) == {Edge(q.up.id, q.down.id, q.key)} + RequestedEdges(reqs[1..]) by {
        assert reqs == [q] + reqs[1..];
      }
      if step.0.Success? {
        AddEdgesSpec(step.1, reqs[1..]);
        assert forall q' :: q' in reqs ==> q' == q || q' in reqs[1..];
      }
    }
  }

  /** The edges `set_dependencies` asks for, in the order it adds them. */
  function DependencyRequests(task: Task, upstream: seq<Task>, downstream: seq<Task>,
                              keyed: seq<(string, Task)>): (reqs: seq<EdgeRequest>)
    ensures |reqs| == |upstream| + |downstream| + |keyed|
    ensures forall i :: 0 <= i < |upstream| ==> reqs[i] == EdgeRequest(upstream[i], task, None)
    ensures forall i :: 0 <= i < |downstream| ==> reqs[|upstream| + i] == EdgeRequest(task, downstream[i], None)
    ensures forall i :: 0 <= i < |keyed| ==>
      reqs[|upstream| + |downstream| + i] == EdgeRequest(keyed[i].1, task, Some(keyed[i].0))
  {
    seq(|upstream|, i requires 0 <= i < |upstream| => EdgeRequest(upstream[i], task, None))
    + seq(|downstream|, i requires 0 <= i < |downstream| => EdgeRequest(task, downstream[i], None))
    + seq(|keyed|, i requires 0 <= i < |keyed| => EdgeRequest(keyed[i].1, task, Some(keyed[i].0)))
  }
}
