# Prefect flows and task runs, modelled in Dafny

This project models two pieces of an early version of the Prefect workflow engine.

- **The `Flow`.** This is a dependency graph of tasks. Tasks are stored in a map from task id
  to task. Edges form a set of `(upstream id, downstream id, optional key)` triples.
  - Tasks and edges are added one at a time. A keyed edge is refused when the downstream
    task already has an edge with that key. Every new edge is followed by a topological
    sort over the whole flow, which serves as the cycle check.
  - The flow answers neighbour queries: upstream and downstream tasks, edges to and from a
    task, root and terminal tasks, and parameters.
  - `sorted_tasks` lists the flow, or the downstream closure of a set of roots, in
    topological order. `sub_flow` copies that part of the flow into a new flow.
- **The `TaskRunner`.** This runs one task once.
  - `check_state` guards the start, in this order: the upstream states, then the trigger,
    then the task's own state. It moves a pending task to running.
  - `run_task` calls the body. It forwards each progress item that a generator body yields.
  - `catch_signals` turns the six Prefect signals, or any other exception, into the final
    state. `finalize` marks a task that returned normally as succeeded.

The files:

- `common.dfy`: `Option`, `Result`, and an opaque Python `Value`.
- `graph.dfy`, module `FlowGraph`: the flow as a value (`Graph`).
  - The query functions, which are the comprehensions of the source.
  - The predicates that specify the sort: `Stuck`, `Acyclic`, `IsTopoOrder`, `DownClosed`,
    `Closure`.
  - `AddEdgeStep` and `AddEdges`: the state transitions of `add_edge` and `set_dependencies`.
- `flow.dfy`, module `Flows`: the mutable `Flow` class.
  - Its methods change the `tasks` map and the `edges` set in place.
  - The two loops of `sorted_tasks` are the methods `CollectDownstream` and `TopoSort`.
  - Each method is proved against the graph functions, through `View()`.
- `states.dfy`, `signals.dfy`, `task_runner.dfy`: the run states, the signals, and the
  `TaskRunner` class.
  - The class keeps the run's state object as a mutable field, and the progress log as a
    ghost field.
  - `ExpectedRun` is a reference definition of one run. It follows the handlers of `catch_signals` and the steps of `run`. `Run`
    is proved equal to it, and the lemmas next to it state the protocol's promises.
- `scenarios.dfy`: two worked flows.
  - The chain `a -> b -> c`, whose only topological order is `[a, b, c]`.
  - Two opposite edges between the same tasks.

Calls into code outside the model are parameters:
- the trigger is a function from upstream states to a `Verdict`;
- the body is a function from inputs to a `BodyOutcome`;
- `context['debug']` is the `debug` flag;
- a traceback is an opaque string.

## Model

| member | source | states |
|---|---|---|
| Flows.Flow.constructor | prefect/core/flow.py:46-47 | A new flow has an empty task map and an empty edge set. |
| FlowGraph.GetTask | prefect/core/flow.py:72-79 | Succeeds exactly when the id is a key of `tasks`, and returns that entry. Otherwise it fails with TaskNotFound for that id. |
| Flows.Flow.AddTask | prefect/core/flow.py:81-85 | A non-Task is refused with NotATask(type name), and nothing changes. A Task is stored as `tasks[task.id]`, replacing any entry there. Edges and all other entries are unchanged. |
| FlowGraph.WithTask | prefect/core/flow.py:101-104 | The endpoint is among the values afterwards, and the edges are unchanged. An endpoint that is already among the values leaves the flow as it was. |
| FlowGraph.IsDuplicate | prefect/core/flow.py:106-111 | Holds exactly when the key is non-null and some edge listed by `edges_to(d)` carries that key. |
| FlowGraph.WithTaskSpec | prefect/core/flow.py:101-104 | Adding an endpoint that is not yet among the values keeps the graph well formed and adds its id. Every other entry and the edges are unchanged. |
| FlowGraph.AddEdgeStep | prefect/core/flow.py:95-119 | For Task arguments: the step keeps the flow well formed, and edges only grow. Its only errors are Cyclic, and DuplicateKey for `d` and a non-null key. |
| Flows.Flow.AddEdge | prefect/core/flow.py:87-119 | The error raised (if any) and the new state are exactly `AddEdgeStep` of the old state. The lemmas below state what that step does. |
| FlowGraph.AddEdgeInsertsEndpoints | prefect/core/flow.py:95-104 | After `add_edge` the flow is well formed. Its keys are the old keys plus both endpoint ids. `d` is stored, and so is `u` when its id differs from `d`'s. No other entry changes, on every path, including the error paths. |
| FlowGraph.AddEdgeDuplicateKey | prefect/core/flow.py:106-116 | DuplicateKey is raised exactly when the key is non-null and some edge into `d` already has it. The edges are then unchanged. Otherwise `(u.id, d.id, key)` is added. |
| FlowGraph.AddEdgeCycle | prefect/core/flow.py:116-119 | For Task arguments, without a duplicate, Cyclic is raised exactly when the graph with the new edge has a cycle. The edge is not removed. No error other than DuplicateKey or Cyclic is possible. |
| FlowGraph.SelfLoopIsCycle | prefect/core/flow.py:213-232 | A flow holding an edge from a task to itself is not acyclic. |
| FlowGraph.SelfLoopRejected | prefect/core/flow.py:116-119 | `add_edge(t, t)` raises Cyclic, like any longer cycle. |
| FlowGraph.CyclicStaysCyclic | prefect/core/flow.py:81-119 | A flow with a cycle still has one after any change that keeps its ids and its edges, even when a task is replaced under its id. `add_task` and `add_edge` make only such changes. |
| FlowGraph.CycleIsPermanent | prefect/core/flow.py:106-119 | On a flow that already has a cycle, `add_edge` always raises. It raises Cyclic exactly when the duplicate-key check passes, and the flow it leaves still has a cycle. |
| FlowGraph.DependencyRequests | prefect/core/flow.py:144-154 | The edge requests of `set_dependencies`, in order: each upstream task into `task`, then `task` into each downstream task, then each keyed upstream result into `task` with its key. |
| FlowGraph.AddEdges | prefect/core/flow.py:146-154 | For Task arguments: the fold keeps the flow well formed, and edges only grow. |
| Flows.Flow.AddEach | prefect/core/flow.py:146-154 | The `add_edge` calls in order, stopping at the first that raises. The result and the final state equal the `AddEdges` fold. |
| Flows.Flow.SetDependencies | prefect/core/flow.py:123-154 | Adds `task` if it is absent, then makes those `add_edge` calls in order and stops at the first one that raises. The result and the final state equal the `AddEdges` fold. |
| FlowGraph.AddEdgesSpec | prefect/core/flow.py:123-154 | For Task arguments, the fold keeps the flow well formed, and task ids are never lost. Edges only grow, and only by requested edges. On success every requested edge and endpoint is present. Any error is DuplicateKey or Cyclic. |
| FlowGraph.UpstreamTasks | prefect/core/flow.py:156-171 | Every task it returns is a task of the flow. |
| FlowGraph.DownstreamTasks | prefect/core/flow.py:173-188 | Every task it returns is a task of the flow. |
| FlowGraph.UpstreamTasksSpec | prefect/core/flow.py:156-171 | For a task or a bare id, a task is upstream exactly when it is in the flow and some edge into that id starts at its id. The set is empty exactly when `edges_to` is. |
| FlowGraph.DownstreamTasksSpec | prefect/core/flow.py:173-188 | The symmetric statement for downstream tasks and `edges_from`. |
| FlowGraph.UpstreamDownstreamDual | prefect/core/flow.py:156-188 | For two tasks of the flow, `u` is upstream of `d` exactly when `d` is downstream of `u`. |
| FlowGraph.EdgesTo | prefect/core/flow.py:236-247 | Only edges of the flow, each ending at the id of the given task or bare id. |
| FlowGraph.EdgesFrom | prefect/core/flow.py:249-260 | Only edges of the flow, each starting at the id of the given task or bare id. |
| FlowGraph.EveryEdgeListed | prefect/core/flow.py:236-260 | Every edge of a well-formed flow is listed by `edges_to` of its downstream end and by `edges_from` of its upstream end, asked by task or by id. |
| FlowGraph.TaskOrIdAlike | prefect/core/flow.py:163-166 | Asking the four neighbour queries with a task or with its bare id gives the same answer. |
| FlowGraph.RootTasks | prefect/core/flow.py:264-269 | Every root is a task of the flow. |
| FlowGraph.TerminalTasks | prefect/core/flow.py:271-276 | Every terminal task is a task of the flow. |
| FlowGraph.RootTasksSpec | prefect/core/flow.py:264-269 | `t` is a root exactly when it is a task of the flow and nothing is upstream of it. |
| FlowGraph.TerminalTasksSpec | prefect/core/flow.py:271-276 | `t` is terminal exactly when it is a task of the flow and nothing is downstream of it. |
| FlowGraph.Parameters | prefect/core/flow.py:278-291 | The keys are exactly the names of the Parameter tasks of the flow (only the required ones when `only_required`). Each entry holds the `required` flag and the default of such a parameter. |
| FlowGraph.Resolve | prefect/core/flow.py:198-202 | A bare id stands for the task stored under it, and a task stands for itself. In a well-formed flow the task has the reference's id. |
| FlowGraph.ResolveRoots | prefect/core/flow.py:196-202 | Succeeds exactly when every id among the roots names a task. It then yields exactly the tasks the roots stand for. Otherwise some id in the roots is unknown. |
| FlowGraph.SortScope | prefect/core/flow.py:196-213 | Without roots the scope is every task. With roots it is defined exactly when every root resolves. It then contains the roots and is closed under downstream tasks. Its only error is TaskNotFound. |
| FlowGraph.Closure | prefect/core/flow.py:196-211 | The closure contains the roots and is closed under taking downstream tasks. |
| FlowGraph.ClosureLeast | prefect/core/flow.py:196-211 | The closure is contained in every superset of the roots that is closed under downstream tasks, so it is the least one. |
| Flows.CollectDownstream | prefect/core/flow.py:203-211 | The `while seen != tasks` loop returns exactly the closure of the roots. |
| FlowGraph.TopoOrderRespectsEveryEdge | prefect/core/flow.py:213-232 | In a topological order, for every edge between two listed tasks, the upstream task comes first. |
| FlowGraph.FirstUnblocked | prefect/core/flow.py:213-229 | The first task of any non-empty subset in an edge-respecting list has no upstream task in that subset. |
| FlowGraph.TopoOrderIsAcyclic | prefect/core/flow.py:213-232 | A set that can be listed in topological order has no cycle. |
| Flows.EmitKeepsOrder | prefect/core/flow.py:222-229 | Emitting a remaining task with no upstream task still remaining keeps the sort loop's invariant. |
| Flows.TopoSort | prefect/core/flow.py:213-234 | Succeeds exactly when the scope is acyclic. It then lists every task of the scope exactly once, upstream before downstream. Otherwise it raises Cyclic. |
| Flows.Flow.SortedTasks | prefect/core/flow.py:190-234 | An unknown root id raises TaskNotFound. Otherwise the scope is every task, or the downstream closure of the roots. The result is a topological order of the scope exactly when the scope is acyclic, and Cyclic otherwise. |
| Flows.Flow.AddAll | prefect/core/flow.py:303-304 | Adding every sorted task in order leaves exactly the `Stored` map of that order. |
| Flows.StoredSpec | prefect/core/flow.py:303-304 | After `add_task` on each task in order, the keys are exactly their ids. Each entry is a task of the order with that id. Each id holds the last task of the order with that id. |
| Flows.Flow.KeepEdgesWithin | prefect/core/flow.py:306-309 | Keeps exactly the edges whose two endpoints are tasks of the new flow. |
| Flows.Flow.SubFlow | prefect/core/flow.py:293-311 | Errors are those of `sorted_tasks`. On success the result is a new, well-formed flow whose keys are the ids of the sorted scope and whose entries lie in it. When the ids are unique its tasks are exactly the scope. Its edges are exactly the original edges with both endpoints in it. The original flow is unchanged. |
| Scenarios.ChainSortsInOrder | prefect/core/flow.py:213-234 | The chain `a -> b -> c` is acyclic, and `[a, b, c]` is its only topological order. |
| Scenarios.OppositeEdgeIsKept | prefect/core/flow.py:116-119 | On an empty flow, `add_edge(x, y)` succeeds. Then `add_edge(y, x)` raises Cyclic and leaves both edges, so the flow stays cyclic. |
| States.FromOptional | prefect/runners/task_runner.py:47 | A missing state is pending, and a given state is kept. |
| States.StatesPartition | prefect/runners/task_runner.py:115-126 | Every state is exactly one of pending, running and finished. So the "not pending" guard after the running and finished guards can never fire. |
| Signals.SignalState | prefect/runners/task_runner.py:68-84 | DONTRUN leaves the state unchanged. Every other signal makes it terminal. It is successful exactly for SUCCESS, and failed exactly for RETRY and FAIL. SUCCESS gives succeeded, SKIP skipped and SHUTDOWN shutdown. |
| Signals.AsSignal | prefect/runners/task_runner.py:168-171 | A Prefect signal is re-raised unchanged. Any other exception becomes FAIL carrying its traceback. |
| TaskRunners.AllFinished | prefect/runners/task_runner.py:104 | Holds exactly when no upstream state is pending or running. It holds when there are no upstream tasks. |
| TaskRunners.Guard | prefect/runners/task_runner.py:104-132 | An unfinished upstream state gives DONTRUN('Upstream tasks are not finished.'), whatever the own state. Finished upstream and a false trigger give DONTRUN('Trigger failed'). A trigger exception is passed on. The task may start exactly when every upstream state is finished, the trigger says yes and the state is pending. |
| TaskRunners.TaskRunner.CheckState | prefect/runners/task_runner.py:92-134 | Raises exactly what `Guard` gives for the current state. Only when nothing is raised does the state change, and then it becomes running. |
| TaskRunners.Yielded | prefect/runners/task_runner.py:150-167 | A generator body hands over exactly its yielded items, in order. Any other body hands over none. |
| TaskRunners.TaskRunner.RecordProgress | prefect/runners/task_runner.py:167 | Appends the item to the progress log and leaves the state unchanged. |
| TaskRunners.TaskResult | prefect/runners/task_runner.py:147-174 | `run_task` fails exactly when the body, or its generator, raises. A return or a generator's return value is the result. |
| TaskRunners.TaskRunner.RunTask | prefect/runners/task_runner.py:136-174 | Returns `TaskResult` of the body. It appends every yielded item to the progress log, in order, and leaves the state unchanged. |
| TaskRunners.TaskRunner.CatchSignals | prefect/runners/task_runner.py:63-90 | A signal sets `SignalState`. Any other exception sets failed, or in debug mode leaves the state and is propagated. |
| TaskRunners.TaskRunner.Finalize | prefect/runners/task_runner.py:176-178 | The state becomes succeeded. |
| TaskRunners.TaskRunner.constructor | prefect/runners/task_runner.py:17-22 | The runner holds the given task's trigger and body, its state is pending, and its progress log is empty. |
| TaskRunners.InitialResult | prefect/runners/task_runner.py:51 | The starting result is `success_result` for a task that already succeeded, and None otherwise. |
| TaskRunners.ExpectedRun | prefect/runners/task_runner.py:24-61 | A completed run reports the state it leaves. Only a debug run propagates, and then the state is the prior one and nothing is recorded. Progress is either nothing or the body's yielded items, and only a run past every guard records any. |
| TaskRunners.TaskRunner.Run | prefect/runners/task_runner.py:24-61 | The outcome, the final state and the recorded progress are exactly those of `ExpectedRun`. |
| TaskRunners.DontRunKeepsState | prefect/runners/task_runner.py:80-81 | When a guard raises DONTRUN, `run` returns the prior state unchanged, with `success_result` if that state was successful and None otherwise. The body never runs. |
| TaskRunners.UpstreamUnfinishedBlocks | prefect/runners/task_runner.py:104-105 | Any unfinished upstream task blocks the run in that way, whatever the trigger and the own state are. |
| TaskRunners.TriggerFalseBlocks | prefect/runners/task_runner.py:108-109 | With every upstream task finished, a trigger that says no blocks the run in that way. |
| TaskRunners.OnlyPendingStarts | prefect/runners/task_runner.py:115-132 | A task that is not pending keeps its state through the run, unless the trigger raises. |
| TaskRunners.BodyRunsIffGuardsPass | prefect/runners/task_runner.py:55-58 | Progress is recorded only when every guard passes. When they all pass, the log is exactly the body's yielded items. |
| TaskRunners.ReturnSucceeds | prefect/runners/task_runner.py:148-178 | A body that returns `v`, directly or as a generator's return value, ends the run succeeded with result `v`. |
| TaskRunners.SignalDecides | prefect/runners/task_runner.py:68-84 | A signal from a started body sets succeeded, skipped, failed (RETRY, FAIL) or shutdown, and leaves the result None. DONTRUN leaves the task running. |
| TaskRunners.BodyErrorFails | prefect/runners/task_runner.py:168-171 | Any other error in the body ends the run failed with result None, even in debug mode. |
| TaskRunners.TriggerErrorKeepsSuccessResult | prefect/runners/task_runner.py:51-90 | For a task that had already succeeded, a trigger exception that does not propagate completes the run with `success_result` as the result and records nothing. The new state is still successful only when the trigger raised SUCCESS or DONTRUN. |
| TaskRunners.PropagatesOnlyTriggerErrors | prefect/runners/task_runner.py:85-90 | `run` lets an exception through exactly when `debug` is set and the trigger raised a non-signal exception. Without `debug` such an exception fails the task. |
| TaskRunners.CompletedStateIsFinal | prefect/runners/task_runner.py:24-61 | A completed run reports the state it leaves. That state is terminal, or is the prior state, or is running after the body raised DONTRUN. |
| TaskRunners.AllSuccessful | prefect/runners/task_runner.py:108 | The default trigger says yes exactly when every upstream task succeeded. |
| TaskRunners.FailedUpstreamKeepsPending | prefect/runners/task_runner.py:104-109 | With A succeeded and B failed upstream, a task with the default trigger stays pending, and the body does not run. |

Notes on the model:
- **A rejected edge is not rolled back.** The documented intent is that a rejected edge
  leaves the flow as it was. The code at prefect/core/flow.py:116-119 adds the edge before
  the check and does not take it out. The model follows the code. A cyclic edge therefore
  stays in the flow (`Scenarios.OppositeEdgeIsKept`). Later calls behave as follows.
  - Every later `sorted_tasks()` over the whole flow raises Cyclic (`Flows.Flow.SortedTasks`).
    The flow keeps a cycle through later `add_task` and `add_edge` calls
    (`FlowGraph.CyclicStaysCyclic`).
  - Every later `add_edge` that passes the duplicate-key check raises Cyclic
    (`FlowGraph.CycleIsPermanent`).
  - A `sorted_tasks(roots)` whose downstream closure avoids the cycle still succeeds.
- **DONTRUN from a started body leaves the task running.** DONTRUN is documented as a guard
  failure that comes before the body. A body may still raise it. `catch_signals` then
  leaves the state alone, and the task stays `running` (`TaskRunners.SignalDecides`).
- **A stale `success_result` can outlive success.** The documented intent is that a run
  has a result only when it succeeded. `run` sets `result` to `success_result` for a task
  that had already succeeded (prefect/runners/task_runner.py:51). When the trigger then
  raises, the handlers change the state but never the result. Examples are a non-signal
  error without debug, or SKIP, RETRY, FAIL or SHUTDOWN. The run then ends, for instance,
  failed with `success_result` as its result. The model follows the code
  (`TaskRunners.TriggerErrorKeepsSuccessResult`).
- **A SUCCESS signal carries no result.** When the body raises SUCCESS, `result` keeps its
  initial value, which is None because the task was pending (`TaskRunners.SignalDecides`).
- **Only debug trigger errors escape.** In debug mode `catch_signals` re-raises a
  non-signal exception. The body can never raise one, because `run_task` turns every such
  exception into FAIL (prefect/runners/task_runner.py:168-171). So a body error always
  fails the task, debug or not (`TaskRunners.BodyErrorFails`). Only an error in the
  trigger can escape `run`.
- **Succeeded is the only successful state.** `is_successful`, `is_finished` and the
  other state predicates live in `prefect.state`, which is not part of this model. The
  model takes `succeeded` to be the only successful state, and the four terminal states to
  be the finished ones.
- **The default trigger is not in these files.** The trigger is called at
  prefect/runners/task_runner.py:108 but defined with the task, which is not part of this
  model. `TaskRunners.AllSuccessful` is the "all upstream tasks succeeded" trigger.
- **Neighbour queries assume a well-formed flow.** `upstream_tasks` and `downstream_tasks`
  look up the far end of each edge with `get_task`. On a well-formed flow (`Valid`), which
  every operation of the model preserves, that lookup cannot fail. So the queries require
  `Valid`, and the lookup's error path is not modelled.

## Left out

- `Flow.__enter__` and `__exit__` are not modelled: they update a process-wide context.
- `Flow.serialize` is not modelled: it is a pickling boundary.
- `Flow.run` is not modelled: it hands off to a flow runner and an executor outside these files.
- `slug`, `__repr__` and `__hash__` are not modelled: they depend on `slugify` and on object
  identity.
- `Flow.__init__` is modelled only as an empty task map and edge set. The other fields are
  unused by the core. `cluster` is an undefined name in the source.
- Task identity is structural. Two tasks are the same exactly when they are equal values.
  Python's object identity and `__hash__` are not modelled.
- `Flows.Flow.AddEdge`: the arguments are Tasks. A non-Task endpoint fails in the source.
  Without an `id` attribute it raises AttributeError while the edge is built
  (prefect/core/flow.py:95-99). Otherwise `add_task` raises TypeError
  (prefect/core/flow.py:101-104). When only the downstream
  end is a non-Task, the upstream task has already been stored. The model does not
  represent that case.
- `Flows.Flow.SetDependencies`: the task and every endpoint are Tasks. The model does not
  represent the TypeError that any `add_edge` call there raises for a non-Task, or the
  tasks and edges the earlier calls have already stored.
- `as_task` in `set_dependencies` is not modelled. Each upstream result is taken to be a
  task already.
- `Flows.Flow.SetDependencies`: the three loops of the source are one loop over the
  concatenated requests (`DependencyRequests`). The edges and their order are the same.
- `Flows.TopoSort`: the order among tasks that are ready at the same time comes from Python
  set iteration. The model picks them in an unspecified order, and no tie-break is proved.
- `FlowGraph.Parameters`: when two parameters share a name, the dict comprehension keeps
  the one iterated last. The model keeps one of them without saying which.
- Logging, `prefect.context(...)` scoping, the `Runner` base class and its executor are not
  modelled. Traceback text is an opaque string.
- `record_progress` is modelled as an append to a ghost log. The observer callback it calls
  is not modelled.
- The sentinel dict that `run_task` uses to tell the generator's return value apart is not
  modelled. No yielded item can be mistaken for it.
- Exceptions that are not `Exception`s (for example `KeyboardInterrupt`) are not modelled.
- Concurrency among several task runners is outside these files.
