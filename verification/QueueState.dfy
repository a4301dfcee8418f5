/** The job state machine: the states, the sets of states, and the thirty legal edges. */
module QueueState {
  import opened Wrappers

  datatype JobState =
    | Queued
    | Leased
    | Admitted
    | WaitingResources
    | Executing
    | Validating
    | Retrying
    | Cancelling
    | Completed
    | Failed
    | Cancelled

  const TERMINAL_STATES: set<JobState> := {Completed, Failed, Cancelled}

  const WAITING_STATES: set<JobState> := {Queued, WaitingResources}

  const LEASE_HOLDING_STATES: set<JobState> := {Leased, Admitted, Executing, Validating, Retrying}

  const IN_FLIGHT_STATES: set<JobState> := LEASE_HOLDING_STATES + {Cancelling}

  const ACTIVE_STATES: set<JobState> := WAITING_STATES + IN_FLIGHT_STATES

  const TRANSITIONS: set<(JobState, JobState)> :=
    {
      (Queued, Leased),
      (Leased, Admitted),
      (Leased, WaitingResources),
      (Leased, Cancelling),
      (WaitingResources, Queued),
      (Admitted, Executing),
      (Executing, Validating),
      (Validating, Completed),
      (Validating, Retrying),
      (Executing, Retrying),
      (Retrying, Admitted),
      (Executing, Cancelling),
      (Validating, Cancelling),
      (Admitted, Cancelling),
      (Queued, Cancelled),
      (WaitingResources, Cancelled),
      (Cancelling, Cancelled),
      (Executing, Failed),
      (Validating, Failed),
      (Queued, Failed),
      (WaitingResources, Failed),
      (Leased, Queued),
      (Leased, Failed),
      (Executing, Queued),
      (Admitted, Queued),
      (Admitted, Failed),
      (Validating, Queued),
      (Retrying, Queued),
      (Retrying, Failed),
      (Retrying, Cancelling)
    }

  predicate IsLegal(current: JobState, target: JobState) {
    (current, target) in TRANSITIONS
  }

  /** Where lease expiry or startup recovery moves a job. */
  function RecoveryTarget(state: JobState, idempotent: bool): (target: Option<JobState>)
    ensures target.Some? <==> state in IN_FLIGHT_STATES
    ensures target.Some? ==> IsLegal(state, target.value)
    ensures target.Some? ==>
      target.value == (if state == Cancelling then Cancelled else if idempotent then Queued else Failed)
  {
    if state in LEASE_HOLDING_STATES then
      Some(if idempotent then Queued else Failed)
    else if state == Cancelling then
      Some(Cancelled)
    else
      None
  }

  /** Where a cancel request moves a job; `None` for a terminal or already cancelling one. */
  function CancelTarget(state: JobState): (target: Option<JobState>)
    ensures target.None? <==> state in TERMINAL_STATES || state == Cancelling
    ensures target.Some? ==> IsLegal(state, target.value)
    ensures target.Some? ==> (target.value == Cancelled <==> state in WAITING_STATES)
  {
    if state in WAITING_STATES then
      Some(Cancelled)
    else if state in LEASE_HOLDING_STATES then
      Some(Cancelling)
    else
      assert state.Cancelling? || state.Completed? || state.Failed? || state.Cancelled?;
      None
  }

  /** Which edges leave a terminal state, `Cancelling`, and a lease-free state. */
  lemma EdgeFacts(current: JobState, target: JobState)
    requires IsLegal(current, target)
    ensures current != target
    ensures current !in TERMINAL_STATES
    ensures current == Cancelling ==> target == Cancelled
    ensures current == Queued ==> target == Leased || target in TERMINAL_STATES
    ensures current == WaitingResources ==> target == Queued || target in TERMINAL_STATES
    ensures target == Leased ==> current == Queued
    ensures target in IN_FLIGHT_STATES && target != Leased ==> current in LEASE_HOLDING_STATES
  {
  }

  /** A path of legal edges `path[0] -> path[1] -> ...`. */
  ghost predicate LegalPath(path: seq<JobState>) {
    forall i :: 0 < i < |path| ==> IsLegal(path[i - 1], path[i])
  }

  /** Where a legal path can go after it has entered `Cancelling`: nowhere but `Cancelled`. */
  lemma {:induction false} AfterCancelling(path: seq<JobState>, i: nat, j: nat)
    requires LegalPath(path)
    requires i <= j < |path|
    requires path[i] == Cancelling
    ensures path[j] == (if i == j then Cancelling else Cancelled)
    ensures j <= i + 1
    decreases j - i
  {
    if i < j {
      AfterCancelling(path, i, j - 1);
      EdgeFacts(path[j - 1], path[j]);
    }
  }

  /** A terminal state ends its path. */
  lemma TerminalIsLast(path: seq<JobState>, i: nat)
    requires LegalPath(path)
    requires i < |path|
    requires path[i] in TERMINAL_STATES
    ensures i == |path| - 1
  {
    if i + 1 < |path| {
      EdgeFacts(path[i], path[i + 1]);
    }
  }
}
