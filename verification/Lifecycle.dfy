/** The session status machine: the transition table and its validator. */
module Lifecycle {
  import opened Rows

  function ValidTransitions(from: Status): set<Status> {
    match from
    case Queued => {Processing, Failed, Cancelled}
    case Processing => {AwaitingOutlineReview, AwaitingFinalReview, Failed, AgentRejected, Cancelled}
    case AwaitingOutlineReview => {Queued, Failed, Cancelled}
    case AwaitingFinalReview => {Completed, Queued, Failed, Rejected, Cancelled}
    case Completed => {}
    case Failed => {}
    case Rejected => {}
    case AgentRejected => {}
    case Cancelled => {}
  }

  const TERMINAL_STATES: set<Status> := {Completed, Failed, Rejected, AgentRejected, Cancelled}

  const ACTIVE_STATES: set<Status> := {Queued, Processing, AwaitingOutlineReview, AwaitingFinalReview}

  /** True when validate_transition returns; false when it raises. */
  predicate ValidateTransition(from: Status, to: Status) {
    from == to || to in ValidTransitions(from)
  }

  /** Terminal is the same as having no way out, and every other status can fail. */
  lemma TerminalMeansNoWayOut(s: Status)
    ensures s in TERMINAL_STATES <==> ValidTransitions(s) == {}
    ensures s in TERMINAL_STATES <==> s !in ACTIVE_STATES
    ensures s in ACTIVE_STATES ==> ValidateTransition(s, Failed)
  {
  }
}
