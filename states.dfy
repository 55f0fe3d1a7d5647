/**
 * The run state of one task in one run: `pending` initially, `running` while the body
 * executes, and one of four terminal states afterwards.
 */
module States {
  import opened Common

  datatype RunState = Pending | Running | Succeeded | Failed | Skipped | Shutdown {
    predicate IsPending() {
      this == Pending
    }

    predicate IsRunning() {
      this == Running
    }

    /** `is_finished`: one of the four terminal states. */
    predicate IsFinished() {
      this.Succeeded? || this.Failed? || this.Skipped? || this.Shutdown?
    }

    predicate IsSuccessful() {
      this == Succeeded
    }

    function Name(): string {
      match this
      case Pending => "Pending"
      case Running => "Running"
      case Succeeded => "Succeeded"
      case Failed => "Failed"
      case Skipped => "Skipped"
      case Shutdown => "Shutdown"
    }
  }

  /** `TaskRunState(state)`: a missing state is `pending`. */
  function FromOptional(s: Option<RunState>): (r: RunState)
    ensures s.Some? ==> r == s.value
    ensures s.None? ==> r.IsPending()
  {
    if s.Some? then s.value else Pending
  }

  /** Every state is exactly one of pending, running and finished. */
  lemma StatesPartition(s: RunState)
    ensures s.IsPending() || s.IsRunning() || s.IsFinished()
    ensures !(s.IsPending() && s.IsRunning())
    ensures !(s.IsPending() && s.IsFinished())
    ensures !(s.IsRunning() && s.IsFinished())
    ensures s.IsSuccessful() ==> s.IsFinished()
  {
  }
}
