/**
 * The single-task run protocol of `TaskRunner`: check that the task may start, run its
 * body (forwarding any progress it yields), and turn the outcome into a final state.
 * The trigger and the body are task code the runner cannot see; they are functions
 * fixed when the runner is built.
 */
module TaskRunners {
  import opened Common
  import opened States
  import opened Signals

  /** What the trigger does with the upstream states: decide, or raise. */
  datatype Verdict = Decides(fire: bool) | TriggerRaises(exc: Raised)

  /** How a generator body ends once it has yielded its progress items. */
  datatype GeneratorEnd = Stop(value: Value) | Throw(exc: Raised)

  /** What the task body does when called: return, raise, or act as a generator. */
  datatype BodyOutcome =
    | Returns(value: Value)
    | Raises(exc: Raised)
    | Yields(items: seq<Value>, end: GeneratorEnd)

  /** The dictionary `run` returns, or an exception `run` lets through. */
  datatype RunOutcome = Completed(state: RunState, result: Value) | Propagated(trace: string)

  /** The outcome of a run together with the state object it leaves and the progress it records. */
  datatype RunTrace = RunTrace(outcome: RunOutcome, state: RunState, log: seq<Value>)

  const UpstreamNotFinished := "Upstream tasks are not finished."
  const TriggerFailed := "Trigger failed"
  const AlreadyRunning := "TaskRun is already running."
  const AlreadyFinished := "TaskRun is already finished."

  /** The first guard of `check_state`: every upstream state is finished (vacuously so for no upstream tasks). */
  predicate AllFinished(upstream: map<string, RunState>): (b: bool)
    ensures upstream == map[] ==> b
    ensures b <==> forall name :: name in upstream ==> !upstream[name].IsPending() && !upstream[name].IsRunning()
  {
    forall name :: name in upstream ==> upstream[name].IsFinished()
  }

  /**
   * The guards of `check_state`, in order, for own state `s`; `verdict` is what the
   * trigger does with `upstream`, and counts only once every upstream state is finished.
   * None means the task may start.
   */
  function Guard(s: RunState, upstream: map<string, RunState>, verdict: Verdict): (r: Option<Raised>)
    ensures !AllFinished(upstream) ==> r == Some(Signalled(DONTRUN(UpstreamNotFinished)))
    ensures AllFinished(upstream) && verdict == Decides(false) ==> r == Some(Signalled(DONTRUN(TriggerFailed)))
    ensures AllFinished(upstream) && verdict.TriggerRaises? ==> r == Some(verdict.exc)
    ensures r.None? <==> AllFinished(upstream) && verdict == Decides(true) && s.IsPending()
    ensures r.Some? && !verdict.TriggerRaises? ==> r.value.Signalled? && r.value.signal.DONTRUN?
  {
    if !AllFinished(upstream) then Some(Signalled(DONTRUN(UpstreamNotFinished)))
    else match verdict
      case TriggerRaises(exc) => Some(exc)
      case Decides(fire) =>
        if !fire then Some(Signalled(DONTRUN(TriggerFailed)))
        else if s.IsRunning() then Some(Signalled(DONTRUN(AlreadyRunning)))
        else if s.IsFinished() then Some(Signalled(DONTRUN(AlreadyFinished)))
        else if !s.IsPending() then Some(Signalled(DONTRUN("TaskRun is not ready to run (state " + s.Name() + ").")))
        else None
  }

  /** The progress items a body hands to `record_progress`, in the order it yields them. */
  function Yielded(o: BodyOutcome): (r: seq<Value>)
    ensures !o.Yields? ==> r == []
    ensures o.Yields? ==> r == o.items
  {
    if o.Yields? then o.items else []
  }

  /** What `run_task` returns, or the signal it raises, for a body that does `o`. */
  function TaskResult(o: BodyOutcome): (r: Result<Value, Signal>)
    ensures r.Failure? <==> o.Raises? || (o.Yields? && o.end.Throw?)
    ensures o.Returns? ==> r == Success(o.value)
    ensures o.Yields? && o.end.Stop? ==> r == Success(o.end.value)
    ensures r.Failure? && o.Raises? ==> r.error == AsSignal(o.exc)
    ensures r.Failure? && o.Yields? ==> r.error == AsSignal(o.end.exc)
  {
    match o
    case Returns(v) => Success(v)
    case Raises(exc) => Failure(AsSignal(exc))
    case Yields(_, Stop(v)) => Success(v)
    case Yields(_, Throw(exc)) => Failure(AsSignal(exc))
  }

  /** The result `run` starts from: `success_result` for a task that already succeeded, else None. */
  function InitialResult(s: RunState, successResult: Value): (r: Value)
    ensures s == Succeeded ==> r == successResult
    ensures s != Succeeded ==> r == Null
  {
    if s.IsSuccessful() then successResult else Null
  }

  /**
   * Reference definition of one `run`, following the handlers of `catch_signals` and the
   * steps of `run`: a guard that fails is caught like any raise; otherwise the task
   * starts and its body decides. Only a run that passes every guard records progress,
   * and only a non-signal raise under debug escapes.
   */
  function ExpectedRun(
    prior: Option<RunState>, upstream: map<string, RunState>, inputs: map<string, Value>, debug: bool,
    successResult: Value, trigger: map<string, RunState> -> Verdict, body: map<string, Value> -> BodyOutcome
  ): (r: RunTrace)
    ensures r.outcome.Completed? ==> r.outcome.state == r.state
    ensures r.outcome.Propagated? ==> debug && r.state == FromOptional(prior) && r.log == []
    ensures r.log == [] || r.log == Yielded(body(inputs))
    ensures r.log != [] ==> Guard(FromOptional(prior), upstream, trigger(upstream)).None?
  {
    var s := FromOptional(prior);
    var initial := InitialResult(s, successResult);
    match Guard(s, upstream, trigger(upstream))
    case Some(Unexpected(trace)) =>
      if debug then RunTrace(Propagated(trace), s, []) else RunTrace(Completed(Failed, initial), Failed, [])
    case Some(Signalled(sig)) =>
      RunTrace(Completed(SignalState(sig, s), initial), SignalState(sig, s), [])
    case None =>
      var o := body(inputs);
      match TaskResult(o)
      case Success(v) => RunTrace(Completed(Succeeded, v), Succeeded, Yielded(o))
      case Failure(sig) => RunTrace(Completed(SignalState(sig, Running), initial), SignalState(sig, Running), Yielded(o))
  }

  /** A run whose guards raise DONTRUN leaves the prior state and the initial result, and never runs the body. */
  lemma DontRunKeepsState(
    prior: Option<RunState>, upstream: map<string, RunState>, inputs: map<string, Value>, debug: bool,
    successResult: Value, trigger: map<string, RunState> -> Verdict, body: map<string, Value> -> BodyOutcome)
    requires var g := Guard(FromOptional(prior), upstream, trigger(upstream));
      g.Some? && g.value.Signalled? && g.value.signal.DONTRUN?
    ensures var s := FromOptional(prior);
      ExpectedRun(prior, upstream, inputs, debug, successResult, trigger, body)
      == RunTrace(Completed(s, InitialResult(s, successResult)), s, [])
  {
  }

  /** An unfinished upstream task stops the run before the trigger is consulted, whatever the own state. */
  lemma UpstreamUnfinishedBlocks(
    prior: Option<RunState>, upstream: map<string, RunState>, inputs: map<string, Value>, debug: bool,
    successResult: Value, trigger: map<string, RunState> -> Verdict, body: map<string, Value> -> BodyOutcome)
    requires exists name :: name in upstream && !upstream[name].IsFinished()
    ensures var s := FromOptional(prior);
      ExpectedRun(prior, upstream, inputs, debug, successResult, trigger, body)
      == RunTrace(Completed(s, InitialResult(s, successResult)), s, [])
  {
  }

  /** With every upstream task finished, a trigger that says no leaves the task where it was. */
  lemma TriggerFalseBlocks(
    prior: Option<RunState>, upstream: map<string, RunState>, inputs: map<string, Value>, debug: bool,
    successResult: Value, trigger: map<string, RunState> -> Verdict, body: map<string, Value> -> BodyOutcome)
    requires AllFinished(upstream) && trigger(upstream) == Decides(false)
    ensures var s := FromOptional(prior);
      ExpectedRun(prior, upstream, inputs, debug, successResult, trigger, body)
      == RunTrace(Completed(s, InitialResult(s, successResult)), s, [])
  {
  }

  /** Only a pending task is started: any other prior state survives the run unless the trigger raises. */
  lemma OnlyPendingStarts(
    prior: Option<RunState>, upstream: map<string, RunState>, inputs: map<string, Value>, debug: bool,
    successResult: Value, trigger: map<string, RunState> -> Verdict, body: map<string, Value> -> BodyOutcome)
    requires !FromOptional(prior).IsPending()
    requires !(AllFinished(upstream) && trigger(upstream).TriggerRaises?)
    ensures var s := FromOptional(prior);
      ExpectedRun(prior, upstream, inputs, debug, successResult, trigger, body)
      == RunTrace(Completed(s, InitialResult(s, successResult)), s, [])
  {
  }

  /** The body runs, and progress is recorded, exactly when every guard passes. */
  lemma BodyRunsIffGuardsPass(
    prior: Option<RunState>, upstream: map<string, RunState>, inputs: map<string, Value>, debug: bool,
    successResult: Value, trigger: map<string, RunState> -> Verdict, body: map<string, Value> -> BodyOutcome)
    ensures var e := ExpectedRun(prior, upstream, inputs, debug, successResult, trigger, body);
      e.log != [] ==> AllFinished(upstream) && trigger(upstream) == Decides(true) && FromOptional(prior).IsPending()
    ensures AllFinished(upstream) && trigger(upstream) == Decides(true) && FromOptional(prior).IsPending() ==>
      ExpectedRun(prior, upstream, inputs, debug, successResult, trigger, body).log == Yielded(body(inputs))
  {
  }

  /** A body that returns (directly or as a generator's return value) ends the run succeeded, with that value. */
  lemma ReturnSucceeds(
    prior: Option<RunState>, upstream: map<string, RunState>, inputs: map<string, Value>, debug: bool,
    successResult: Value, trigger: map<string, RunState> -> Verdict, body: map<string, Value> -> BodyOutcome, v: Value)
    requires Guard(FromOptional(prior), upstream, trigger(upstream)).None?
    requires body(inputs) == Returns(v) || (body(inputs).Yields? && body(inputs).end == Stop(v))
    ensures ExpectedRun(prior, upstream, inputs, debug, successResult, trigger, body)
      == RunTrace(Completed(Succeeded, v), Succeeded, Yielded(body(inputs)))
  {
  }

  /**
   * A signal raised by a started body decides the final state; the result stays None
   * (the task was pending, so not yet successful). DONTRUN leaves it running.
   */
  lemma SignalDecides(
    prior: Option<RunState>, upstream: map<string, RunState>, inputs: map<string, Value>, debug: bool,
    successResult: Value, trigger: map<string, RunState> -> Verdict, body: map<string, Value> -> BodyOutcome, sig: Signal)
    requires Guard(FromOptional(prior), upstream, trigger(upstream)).None?
    requires body(inputs) == Raises(Signalled(sig)) || (body(inputs).Yields? && body(inputs).end == Throw(Signalled(sig)))
    ensures var e := ExpectedRun(prior, upstream, inputs, debug, successResult, trigger, body);
      && e == RunTrace(Completed(SignalState(sig, Running), Null), SignalState(sig, Running), Yielded(body(inputs)))
      && (sig.SUCCESS? ==> e.state == Succeeded)
      && (sig.SKIP? ==> e.state == Skipped)
      && (sig.RETRY? || sig.FAIL? ==> e.state == Failed)
      && (sig.SHUTDOWN? ==> e.state == Shutdown)
      && (sig.DONTRUN? ==> e.state == Running)
  {
  }

  /** Any other error in a started body ends the run failed, even in debug mode. */
  lemma BodyErrorFails(
    prior: Option<RunState>, upstream: map<string, RunState>, inputs: map<string, Value>, debug: bool,
    successResult: Value, trigger: map<string, RunState> -> Verdict, body: map<string, Value> -> BodyOutcome, trace: string)
    requires Guard(FromOptional(prior), upstream, trigger(upstream)).None?
    requires body(inputs) == Raises(Unexpected(trace)) || (body(inputs).Yields? && body(inputs).end == Throw(Unexpected(trace)))
    ensures ExpectedRun(prior, upstream, inputs, debug, successResult, trigger, body)
      == RunTrace(Completed(Failed, Null), Failed, Yielded(body(inputs)))
  {
  }

  /** `run` lets an exception through only in debug mode, and only one the trigger raised that is not a signal. */
  lemma PropagatesOnlyTriggerErrors(
    prior: Option<RunState>, upstream: map<string, RunState>, inputs: map<string, Value>, debug: bool,
    successResult: Value, trigger: map<string, RunState> -> Verdict, body: map<string, Value> -> BodyOutcome)
    ensures ExpectedRun(prior, upstream, inputs, debug, successResult, trigger, body).outcome.Propagated? <==>
      debug && AllFinished(upstream) && trigger(upstream).TriggerRaises? && trigger(upstream).exc.Unexpected?
    ensures !debug && AllFinished(upstream) && trigger(upstream).TriggerRaises? && trigger(upstream).exc.Unexpected? ==>
      ExpectedRun(prior, upstream, inputs, debug, successResult, trigger, body).state == Failed
  {
  }

  /**
   * A task that had already succeeded keeps `success_result` as its result when its
   * trigger raises, even though the run then ends in a state other than succeeded
   * (unless the trigger raised SUCCESS or DONTRUN).
   */
  lemma TriggerErrorKeepsSuccessResult(
    upstream: map<string, RunState>, inputs: map<string, Value>, debug: bool,
    successResult: Value, trigger: map<string, RunState> -> Verdict, body: map<string, Value> -> BodyOutcome)
    requires AllFinished(upstream) && trigger(upstream).TriggerRaises?
    requires !(debug && trigger(upstream).exc.Unexpected?)
    ensures var r := ExpectedRun(Some(Succeeded), upstream, inputs, debug, successResult, trigger, body);
      && r.outcome.Completed? && r.outcome.result == successResult && r.log == []
      && (r.state.IsSuccessful() <==>
            trigger(upstream).exc.Signalled? && (trigger(upstream).exc.signal.SUCCESS? || trigger(upstream).exc.signal.DONTRUN?))
  {
  }

  /**
   * Every completed run reports the state it leaves, and that state is terminal, the
   * prior state untouched, or running after a body raised DONTRUN.
   */
  lemma CompletedStateIsFinal(
    prior: Option<RunState>, upstream: map<string, RunState>, inputs: map<string, Value>, debug: bool,
    successResult: Value, trigger: map<string, RunState> -> Verdict, body: map<string, Value> -> BodyOutcome)
    ensures var e := ExpectedRun(prior, upstream, inputs, debug, successResult, trigger, body);
      e.outcome.Completed? ==>
        && e.outcome.state == e.state
        && (e.state.IsFinished() || e.state == FromOptional(prior)
            || (e.state == Running && TaskResult(body(inputs)).Failure? && TaskResult(body(inputs)).error.DONTRUN?))
  {
  }

  /** The default trigger: every upstream task succeeded. */
  function AllSuccessful(upstream: map<string, RunState>): (v: Verdict)
    ensures v == Decides(true) <==> forall name :: name in upstream ==> upstream[name].IsSuccessful()
  {
    Decides(forall name :: name in upstream ==> upstream[name].IsSuccessful())
  }

  /** A task C downstream of A and B, with the default trigger: if B failed, C stays pending. */
  lemma FailedUpstreamKeepsPending(inputs: map<string, Value>, debug: bool, successResult: Value,
                                   body: map<string, Value> -> BodyOutcome)
    ensures ExpectedRun(None, map["A" := Succeeded, "B" := Failed], inputs, debug, successResult, AllSuccessful, body)
      == RunTrace(Completed(Pending, Null), Pending, [])
  {
    var ups := map["A" := Succeeded, "B" := Failed];
    assert AllFinished(ups);
    assert !ups["B"].IsSuccessful();
  }

  class TaskRunner {
    const trigger: map<string, RunState> -> Verdict
    const body: map<string, Value> -> BodyOutcome
    /** The state object of the current run, changed in place by `check_state` and `catch_signals`. */
    var state: RunState
    /** Every item handed to `record_progress`, oldest first. */
    ghost var progress: seq<Value>

    constructor(trigger: map<string, RunState> -> Verdict, body: map<string, Value> -> BodyOutcome)
      ensures this.trigger == trigger && this.body == body
      ensures state == Pending && progress == []
    {
      this.trigger := trigger;
      this.body := body;
      state := Pending;
      progress := [];
    }

    /** `check_state`: raise if the task may not start, else move it from pending to running. */
    method CheckState(upstream: map<string, RunState>) returns (raised: Option<Raised>)
      modifies this
      ensures raised == Guard(old(state), upstream, trigger(upstream))
      ensures state == (if raised.None? then Running else old(state))
      ensures progress == old(progress)
    {
      if !(forall name | name in upstream :: upstream[name].IsFinished()) {
        return Some(Signalled(DONTRUN(UpstreamNotFinished)));
      }
      var verdict := trigger(upstream);
      if verdict.TriggerRaises? {
        return Some(verdict.exc);
      }
      if !verdict.fire {
        return Some(Signalled(DONTRUN(TriggerFailed)));
      }
      if state.IsRunning() {
        return Some(Signalled(DONTRUN(AlreadyRunning)));
      } else if state.IsFinished() {
        return Some(Signalled(DONTRUN(AlreadyFinished)));
      } else if !state.IsPending() {
        return Some(Signalled(DONTRUN("TaskRun is not ready to run (state " + state.Name() + ").")));
      }
      state := Running;
      return None;
    }

    /** `record_progress`: hands one item to the progress observer, here the log. */
    method RecordProgress(item: Value)
      modifies this
      ensures state == old(state) && progress == old(progress) + [item]
    {
      progress := progress + [item];
    }

    /**
     * `run_task`: call the body; a generator's items are recorded one by one until its
     * return value arrives. Whatever is raised leaves as a signal.
     */
    method RunTask(inputs: map<string, Value>) returns (r: Result<Value, Signal>)
      modifies this
      ensures state == old(state)
      ensures r == TaskResult(body(inputs))
      ensures progress == old(progress) + Yielded(body(inputs))
    {
      var outcome := body(inputs);
      match outcome {
        case Returns(v) =>
          r := Success(v);
        case Raises(exc) =>
          r := Failure(AsSignal(exc));
        case Yields(items, end) =>
          var i := 0;
          while i < |items|
            invariant 0 <= i <= |items| && state == old(state)
            invariant progress == old(progress) + items[..i]
          {
            RecordProgress(items[i]);
            assert items[..i + 1] == items[..i] + [items[i]];
            i := i + 1;
          }
          assert items[..|items|] == items;
          match end {
            case Stop(v) => r := Success(v);
            case Throw(exc) => r := Failure(AsSignal(exc));
          }
      }
    }

    /**
     * `catch_signals`: each signal sets its state; any other exception fails the task,
     * or is passed on (its traceback returned) in debug mode.
     */
    method CatchSignals(exc: Raised, debug: bool) returns (propagated: Option<string>)
      modifies this
      ensures progress == old(progress)
      ensures exc.Signalled? ==> propagated.None? && state == SignalState(exc.signal, old(state))
      ensures exc.Unexpected? && debug ==> propagated == Some(exc.trace) && state == old(state)
      ensures exc.Unexpected? && !debug ==> propagated.None? && state == Failed
    {
      propagated := None;
      match exc {
        case Signalled(sig) =>
          match sig {
            case SUCCESS(_) => state := Succeeded;
            case SKIP(_) => state := Skipped;
            case RETRY(_) => state := Failed;
            case SHUTDOWN(_) => state := Shutdown;
            case DONTRUN(_) =>
            case FAIL(_) => state := Failed;
          }
        case Unexpected(trace) =>
          if debug {
            return Some(trace);
          }
          state := Failed;
      }
    }

    /** `finalize`: a body that returned normally marks the task succeeded. */
    method Finalize()
      modifies this
      ensures state == Succeeded && progress == old(progress)
    {
      state := Succeeded;
    }

    /** `run`: the guarded run of the task body, with exceptions caught as `catch_signals` does. */
    method Run(prior: Option<RunState>, upstream: map<string, RunState>, inputs: map<string, Value>,
               debug: bool, successResult: Value) returns (out: RunOutcome)
      modifies this
      ensures var e := ExpectedRun(prior, upstream, inputs, debug, successResult, trigger, body);
        out == e.outcome && state == e.state && progress == old(progress) + e.log
    {
      state := FromOptional(prior);
      var result := if state.IsSuccessful() then successResult else Null;
      var raised := CheckState(upstream);
      if raised.Some? {
        var propagated := CatchSignals(raised.value, debug);
        if propagated.Some? {
          return Propagated(propagated.value);
        }
        return Completed(state, result);
      }
      var ran := RunTask(inputs);
      if ran.Failure? {
        var ignored := CatchSignals(Signalled(ran.error), debug);
        return Completed(state, result);
      }
      result := ran.value;
      Finalize();
      return Completed(state, result);
    }
  }
}
