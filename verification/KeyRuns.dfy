/** Idempotency keys over runs: one job per key and source for as long as its reservation lasts. */
module KeyRuns {
  import opened Wrappers
  import opened QueueState
  import opened Priority
  import opened Queue
  import opened QueueRuns
  import opened LeaseRuns

  lemma {:induction false} TransactionKeepsKey(e: Entry, ops: seq<Op>, owner: Option<string>, now: Instant)
    requires TransactionOutcome(e, ops, owner, now).Ok?
    ensures SameKey(e.job, TransactionOutcome(e, ops, owner, now).value.job)
    decreases |ops|
  {
    if ops != [] {
      TransactionKeepsKey(OpOutcome(e, ops[0], owner, now).value, ops[1..], owner, now);
    }
  }

  predicate SameKey(a: Job, b: Job) {
    a.source == b.source && a.key == b.key && a.keyExpires == b.keyExpires
  }

  /** The job holds its source's key until `expires`. */
  predicate Reserves(t: Table, id: JobId, source: string, key: string, expires: Instant) {
    && id in t && t[id].job.source == source && t[id].job.key == Some(key)
    && t[id].job.keyExpires == Some(expires)
  }

  /** The step looks the key up at or after the end of the reservation. */
  predicate LooksUpLate(step: Step, source: string, key: string, expires: Instant) {
    step.LookupStep? && step.source == source && step.key == key && step.now >= expires
  }

  /** Nothing but a late lookup ends a reservation. */
  lemma ReservationStep(b: Behavior, i: nat, id: JobId, source: string, key: string, expires: Instant)
    requires IsRun(b) && i < |b.steps| && Reserves(b.states[i], id, source, key, expires)
    requires !LooksUpLate(b.steps[i], source, key, expires)
    ensures Reserves(b.states[i + 1], id, source, key, expires)
  {
    assert Linked(b, i);
    var t, step := b.states[i], b.steps[i];
    if step.WorkStep? && step.id == id && Commits(t, id, step.ops, step.owner, step.now) {
      TransactionKeepsKey(t[id], step.ops, step.owner, step.now);
    }
  }

  lemma {:induction false} ReservationLasts(b: Behavior, i: nat, j: nat, id: JobId, source: string, key: string,
                                            expires: Instant)
    requires IsRun(b) && i <= j <= |b.steps| && Reserves(b.states[i], id, source, key, expires)
    requires forall k | i <= k < j :: !LooksUpLate(b.steps[k], source, key, expires)
    ensures Reserves(b.states[j], id, source, key, expires)
    decreases j - i
  {
    if i < j {
      ReservationLasts(b, i, j - 1, id, source, key, expires);
      ReservationStep(b, j - 1, id, source, key, expires);
    }
  }

  /** When the key a submission was added with at step `i` comes free. */
  function FreeFrom(b: Behavior, i: nat): Instant
    requires i < |b.steps| && b.steps[i].InsertStep?
  {
    b.steps[i].now + b.settings.idempotencyTtl
  }

  /** From step `i`, which adds the job, up to `j` nobody looks its key up once the reservation has ended. */
  ghost predicate NotLookedUpLate(b: Behavior, i: nat, j: nat, key: string)
    requires i < j <= |b.steps| && b.steps[i].InsertStep?
  {
    forall k | i < k < j :: !LooksUpLate(b.steps[k], b.steps[i].s.source, key, FreeFrom(b, i))
  }

  /** A job added under a key holds it for the configured time. */
  lemma AddedReserves(b: Behavior, i: nat, id: JobId, key: string)
    requires IsRun(b) && i < |b.steps| && Adds(b, i, id) && b.steps[i].s.key == Some(key)
    ensures Reserves(b.states[i + 1], id, b.steps[i].s.source, key, FreeFrom(b, i))
  {
    assert Linked(b, i);
  }

  lemma OnlyHolder(t: Table, id: JobId, source: string, key: string, expires: Instant)
    requires KeysUnique(t) && Reserves(t, id, source, key, expires)
    ensures Holders(t, source, key) == {id}
  {
    assert id in Holders(t, source, key);
    OneHolder(t, source, key, id);
  }

  /** A second submission of the key before the reservation ends gets the first job, whatever has happened
      to it, and adds no row. */
  lemma ReplayedWhileReserved(
    b: Behavior, i: nat, j: nat, id: JobId, key: string, newId: JobId, s: Submission, now: Instant,
    outcome: Result<(JobId, bool), QueueError>, after: Table)
    requires IsRun(b) && i < j <= |b.steps| && Adds(b, i, id) && b.steps[i].s.key == Some(key)
    requires NotLookedUpLate(b, i, j, key) && now < FreeFrom(b, i)
    requires s.source == b.steps[i].s.source && s.key == Some(key) && BasePriority(s.jobClass, s.priority).Ok?
    requires EnqueueOutcome(b.states[j], newId, s, now, b.settings, outcome, after)
    ensures outcome == Ok((id, false)) && after == b.states[j]
  {
    var t := b.states[j];
    AddedReserves(b, i, id, key);
    ReservationLasts(b, i + 1, j, id, s.source, key, FreeFrom(b, i));
    ReachableRowsAreWellFormed(b, j);
    OnlyHolder(t, id, s.source, key, FreeFrom(b, i));
    NothingToRelease(t, s.source, key, now);
    assert id in KeyHolders(t, s);
  }

  /** One at or after its end takes the key away from the first job, and starts a new one unless the queue is
      full. */
  lemma RenewedAfterReservation(
    b: Behavior, i: nat, j: nat, id: JobId, key: string, newId: JobId, s: Submission, now: Instant,
    outcome: Result<(JobId, bool), QueueError>, after: Table)
    requires IsRun(b) && i < j <= |b.steps| && Adds(b, i, id) && b.steps[i].s.key == Some(key)
    requires NotLookedUpLate(b, i, j, key) && now >= FreeFrom(b, i)
    requires s.source == b.steps[i].s.source && s.key == Some(key) && BasePriority(s.jobClass, s.priority).Ok?
    requires newId !in b.states[j] && EnqueueOutcome(b.states[j], newId, s, now, b.settings, outcome, after)
    ensures id in after && after[id].job.key == None && after[id].job.keyExpires == None
    ensures outcome in {Ok((newId, true)), Err(QueueFull)}
    ensures outcome.Ok? ==> Reserves(after, newId, s.source, key, now + b.settings.idempotencyTtl)
    ensures outcome.Err? ==> Holders(after, s.source, key) == {}
    ensures forall other | other in b.states[j] && other != id :: other in after && after[other] == b.states[j][other]
  {
    var t := b.states[j];
    AddedReserves(b, i, id, key);
    ReservationLasts(b, i + 1, j, id, s.source, key, FreeFrom(b, i));
    ReachableRowsAreWellFormed(b, j);
    OnlyHolder(t, id, s.source, key, FreeFrom(b, i));
    ReleasedByLookup(t, s.source, key, now, id);
    FreedThenAdded(t, id, newId, s, now, b.settings, outcome, after);
  }

  lemma FreedThenAdded(
    t: Table, id: JobId, newId: JobId, s: Submission, now: Instant, settings: QueueSettings,
    outcome: Result<(JobId, bool), QueueError>, after: Table)
    requires s.key.Some? && BasePriority(s.jobClass, s.priority).Ok? && id in t && newId !in t
    requires BeforeInsert(t, s, now) == t[id := KeyReleased(t[id])]
    requires KeyHolders(t[id := KeyReleased(t[id])], s) == {}
    requires EnqueueOutcome(t, newId, s, now, settings, outcome, after)
    ensures id in after && after[id].job.key == None && after[id].job.keyExpires == None
    ensures outcome in {Ok((newId, true)), Err(QueueFull)}
    ensures outcome.Ok? ==> Reserves(after, newId, s.source, s.key.value, now + settings.idempotencyTtl)
    ensures outcome.Err? ==> KeyHolders(after, s) == {}
    ensures forall other | other in t && other != id :: other in after && after[other] == t[other]
  {
  }

  /** A submission without a key is never taken for another. */
  lemma KeylessIsNew(
    before: Table, newId: JobId, s: Submission, now: Instant, settings: QueueSettings,
    outcome: Result<(JobId, bool), QueueError>, after: Table)
    requires s.key == None && EnqueueOutcome(before, newId, s, now, settings, outcome, after) && outcome.Ok?
    ensures outcome.value == (newId, true) && newId in after && after[newId].job.keyExpires == None
  {
  }
}
