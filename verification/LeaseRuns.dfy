/** Time limits over runs: how long a claimed job is safe from reaping, and a waiting one from expiry. */
module LeaseRuns {
  import opened Wrappers
  import opened QueueState
  import opened Priority
  import opened Queue
  import opened QueueRows
  import opened QueueRuns
  import opened QueueOrder

  // ------------------------------------------------------------------ leases

  /** The step claims the job, or its worker renews it. */
  predicate Granted(t: Table, step: Step, id: JobId) {
    || (step.ClaimStep? && step.claimed == Some(id))
    || (step.RenewStep? && id in step.ids && id in t && t[id].job.owner == Some(step.worker)
        && t[id].job.state in IN_FLIGHT_STATES)
  }

  lemma GrantSetsExpiry(b: Behavior, i: nat, id: JobId)
    requires IsRun(b) && i < |b.steps| && Granted(b.states[i], b.steps[i], id)
    ensures id in b.states[i + 1]
    ensures b.states[i + 1][id].job.expires == Some(b.steps[i].now + b.settings.leaseSeconds)
  {
    assert Linked(b, i);
  }

  lemma {:induction false} TransactionKeepsExpiry(e: Entry, ops: seq<Op>, owner: Option<string>, now: Instant)
    requires TransactionOutcome(e, ops, owner, now).Ok?
    ensures TransactionOutcome(e, ops, owner, now).value.job.expires in {None, e.job.expires}
    decreases |ops|
  {
    if ops != [] {
      TransactionKeepsExpiry(OpOutcome(e, ops[0], owner, now).value, ops[1..], owner, now);
    }
  }

  /** No other step moves an expiry; it can only be dropped. */
  lemma ExpiryStep(b: Behavior, i: nat, id: JobId)
    requires IsRun(b) && i < |b.steps| && id in b.states[i] && !Granted(b.states[i], b.steps[i], id)
    ensures id in b.states[i + 1] && b.states[i + 1][id].job.expires in {None, b.states[i][id].job.expires}
  {
    assert Linked(b, i);
    var t, step := b.states[i], b.steps[i];
    if step.WorkStep? && step.id == id && Commits(t, id, step.ops, step.owner, step.now) {
      TransactionKeepsExpiry(t[id], step.ops, step.owner, step.now);
    }
  }

  /** The job was claimed or last renewed by step `i`, as seen from `j`. */
  ghost predicate LastGranted(b: Behavior, i: nat, j: nat, id: JobId)
    requires |b.states| == |b.steps| + 1 && j <= |b.steps|
  {
    && i < j && Granted(b.states[i], b.steps[i], id)
    && forall k | i < k < j :: !Granted(b.states[k], b.steps[k], id)
  }

  lemma {:induction false} ExpirySince(b: Behavior, i: nat, j: nat, id: JobId)
    requires IsRun(b) && j <= |b.steps| && LastGranted(b, i, j, id)
    ensures id in b.states[j]
    ensures b.states[j][id].job.expires in {None, Some(b.steps[i].now + b.settings.leaseSeconds)}
    decreases j - i
  {
    if j == i + 1 {
      GrantSetsExpiry(b, i, id);
    } else {
      ExpirySince(b, i, j - 1, id);
      ExpiryStep(b, j - 1, id);
    }
  }

  /** A job claimed or last renewed at some instant is untouched by every reaping up to one lease later, and
      the first reaping after that takes it if its worker still has it. */
  lemma ReapedExactlyAfterItsLease(b: Behavior, i: nat, j: nat, id: JobId)
    requires IsRun(b) && j < |b.steps| && LastGranted(b, i, j, id) && b.steps[j].ReapStep?
    ensures id in b.states[j] && id in b.states[j + 1]
    ensures var before, after := b.states[j][id], b.states[j + 1][id];
            if before.job.owner.Some? && b.steps[j].now > b.steps[i].now + b.settings.leaseSeconds
            then TakenAway(before, after, b.steps[j].now, "lease_expired", "cancelled", None)
            else after == before
  {
    ExpirySince(b, i, j, id);
    ReachableRowsAreWellFormed(b, j);
    assert RowWf(b.states[j], id, b.settings.overflow);
    assert Linked(b, j);
    ReapInColumns(b.states[j], b.steps[j].now, id);
  }

  // ------------------------------------------------------------------ what a submission decides for good

  /** The step adds a row for the submission. */
  ghost predicate Adds(b: Behavior, i: nat, id: JobId)
    requires i < |b.steps| && |b.states| == |b.steps| + 1
  {
    b.steps[i].InsertStep? && b.steps[i].id == id && id !in b.states[i] && id in b.states[i + 1]
  }

  /** A bound of zero, like none, stands for the configured one. */
  function Bound(s: Submission, settings: QueueSettings): nat {
    match s.maxWaitSeconds
    case Some(bound) => if bound > 0 then bound else settings.maxWaitSeconds
    case None => settings.maxWaitSeconds
  }

  /** A new row is queued, free, due at once and of the submission's class, source, model and priority. */
  lemma AddedRow(b: Behavior, i: nat, id: JobId)
    requires IsRun(b) && i < |b.steps| && Adds(b, i, id)
    ensures var job, s, now := b.states[i + 1][id].job, b.steps[i].s, b.steps[i].now;
            && Due(b.states[i + 1], now, id) && job.owner == None && job.queuedAt == job.createdAt == now
            && job.jobClass == s.jobClass && job.source == s.source && job.idempotent == s.idempotent
            && job.selectedModel == s.model && job.key == s.key && !job.cancelRequested
            && job.maxWaitSeconds == Bound(s, b.settings)
            && job.effectivePriority == job.basePriority && InBand(s.jobClass, job.basePriority)
            && (s.priority.Some? ==> job.basePriority == s.priority.value)
    ensures b.states[i + 1][id].attempts == [] && b.states[i + 1][id].events == [JobEvent(Queued, b.steps[i].now)]
  {
    assert Linked(b, i);
  }

  /** Whatever happens in between, a job fails for waiting at a check if and only if it is waiting then, and
      the check comes later than its submission and its bound. */
  lemma ExpiresExactlyAfterItsBound(b: Behavior, i: nat, j: nat, id: JobId)
    requires IsRun(b) && i < j < |b.steps| && Adds(b, i, id) && b.steps[j].ExpireStep?
    ensures id in b.states[j] && id in b.states[j + 1]
    ensures var before, after := b.states[j][id], b.states[j + 1][id];
            if before.job.state in WAITING_STATES
               && b.steps[j].now > b.steps[i].now + Bound(b.steps[i].s, b.settings) as real
            then SentOn(before, after, Failed, b.steps[j].now, "MAX_WAIT_EXCEEDED", Some("MAX_WAIT_EXCEEDED"))
            else after == before
  {
    AddedRow(b, i, id);
    OriginsStay(b, i + 1, j, id);
    assert Linked(b, j);
    ExpireInColumns(b.states[j], b.steps[j].now, id);
  }

  /** A job taken from its worker is queued again if and only if its submission called it idempotent, unless
      its cancellation was under way. */
  lemma RequeuedExactlyWhenIdempotent(b: Behavior, i: nat, j: nat, id: JobId)
    requires IsRun(b) && i < j < |b.steps| && Adds(b, i, id) && (b.steps[j].ReapStep? || b.steps[j].ReleaseStep?)
    ensures id in b.states[j] && id in b.states[j + 1]
    ensures b.states[j + 1][id] != b.states[j][id] ==>
      b.states[j + 1][id].job.state ==
        if b.states[j][id].job.state == Cancelling then Cancelled
        else if b.steps[i].s.idempotent then Queued
        else Failed
  {
    AddedRow(b, i, id);
    OriginsStay(b, i + 1, j, id);
    assert Linked(b, j);
    if b.steps[j].ReapStep? {
      ReapInColumns(b.states[j], b.steps[j].now, id);
    } else {
      ReleaseInColumns(b.states[j], b.steps[j].prefix, b.steps[j].now, id);
    }
  }
}
