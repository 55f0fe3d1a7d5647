/**
 * The outcome signals a task body (or a trigger) may raise, and the state each one
 * leaves behind when the runner catches it.
 */
module Signals {
  import opened States

  /** The six Prefect signals; each carries its message. */
  datatype Signal =
    | SUCCESS(msg: string)
    | SKIP(msg: string)
    | RETRY(msg: string)
    | SHUTDOWN(msg: string)
    | DONTRUN(msg: string)
    | FAIL(msg: string)

  /** What a call into task code can raise: a signal, or any other exception (with its traceback). */
  datatype Raised = Signalled(signal: Signal) | Unexpected(trace: string)

  /**
   * The state `catch_signals` leaves after catching `sig` while the state was `s`:
   * DONTRUN leaves it alone, every other signal makes it terminal.
   */
  function SignalState(sig: Signal, s: RunState): (r: RunState)
    ensures sig.DONTRUN? ==> r == s
    ensures !sig.DONTRUN? ==> r.IsFinished()
    ensures r.IsSuccessful() <==> sig.SUCCESS? || (sig.DONTRUN? && s.IsSuccessful())
    ensures !sig.DONTRUN? ==> (r == Failed <==> sig.RETRY? || sig.FAIL?)
    ensures sig.SUCCESS? ==> r == Succeeded
    ensures sig.SKIP? ==> r == Skipped
    ensures sig.SHUTDOWN? ==> r == Shutdown
  {
    match sig
    case SUCCESS(_) => Succeeded
    case SKIP(_) => Skipped
    case RETRY(_) => Failed
    case SHUTDOWN(_) => Shutdown
    case DONTRUN(_) => s
    case FAIL(_) => Failed
  }

  /** `run_task`'s handler: a signal is re-raised unchanged, anything else becomes FAIL(traceback). */
  function AsSignal(exc: Raised): (sig: Signal)
    ensures exc.Signalled? ==> sig == exc.signal
    ensures exc.Unexpected? ==> sig == FAIL(exc.trace)
  {
    match exc
    case Signalled(s) => s
    case Unexpected(trace) => FAIL(trace)
  }
}
