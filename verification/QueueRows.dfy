/** What each queue operation does to a row, said of the columns. */
module QueueRows {
  import opened Wrappers
  import opened QueueState
  import opened Priority
  import opened Queue

  /** The row left whoever held it, or the queue, for `target`: the lease columns are cleared, one event is
      added, a requeued job is due at once, any other is completed, and every other column is as it was. */
  ghost predicate SentOn(
    before: Entry, after: Entry, target: JobState, now: Instant, reason: string, code: Option<string>)
  {
    && after.attempts == before.attempts && after.events == before.events + [JobEvent(target, now)]
    && after.job == before.job.(
         state := target, reason := Some(reason), owner := None, expires := None,
         scheduledFor := if target == Queued then now else before.job.scheduledFor,
         completedAt := if target == Queued then before.job.completedAt else Some(now),
         errorCode := if code.Some? then code else before.job.errorCode)
  }

  /** Where a job goes that is taken from its worker. */
  ghost predicate TakenAway(
    before: Entry, after: Entry, now: Instant, back: string, cancelled: string, code: Option<string>)
  {
    if before.job.state == Cancelling then SentOn(before, after, Cancelled, now, cancelled, code)
    else if before.job.idempotent then SentOn(before, after, Queued, now, back, None)
    else SentOn(before, after, Failed, now, "worker_lost", Some("WORKER_LOST"))
  }

  function GivenOr(given: Option<string>, kept: Option<string>): Option<string> {
    match given
    case None => kept
    case Some(_) => given
  }

  /** A caller's transition happens if and only if the row is where the caller believes it to be, under the
      caller's fence, and the edge is legal. The job keeps its lease while it stays in flight; a column the
      caller sets is set, and one it does not set is kept. */
  lemma TransitionInColumns(e: Entry, current: JobState, target: JobState, reason: Option<string>, values: Values,
                            owner: Option<string>, now: Instant)
    ensures var outcome := OpOutcome(e, Transition(current, target, reason, values), owner, now);
            && (outcome.Ok? <==>
                  IsLegal(current, target) && e.job.state == current && (owner.Some? ==> e.job.owner == owner))
            && (outcome.Ok? ==>
                  var job := outcome.value.job;
                  && outcome.value.attempts == e.attempts && outcome.value.events == e.events + [JobEvent(target, now)]
                  && job.state == target && job.reason == reason
                  && (if target in {Queued, WaitingResources, Completed, Failed, Cancelled}
                      then job.owner == None && job.expires == None
                      else job.owner == e.job.owner && job.expires == e.job.expires)
                  && (job.cancelRequested <==> values.cancelRequested || e.job.cancelRequested)
                  && job.errorCode == GivenOr(values.errorCode, e.job.errorCode)
                  && job.selectedModel == GivenOr(values.selectedModel, e.job.selectedModel)
                  && job.scheduledFor == (if target == Queued then now else e.job.scheduledFor)
                  && (target in {Completed, Failed, Cancelled} ==> job.completedAt == Some(now))
                  && (target !in {Completed, Failed, Cancelled} ==> job.completedAt == e.job.completedAt)
                  && job.attempt == e.job.attempt && job.key == e.job.key && job.keyExpires == e.job.keyExpires
                  && job.effectivePriority == e.job.effectivePriority)
  {
  }

  /** Reaping takes a job away if and only if it is in flight and its lease ran out before `now`. */
  lemma ReapInColumns(t: Table, now: Instant, id: JobId)
    requires id in t
    ensures var job := t[id].job;
            if job.expires.Some? && job.expires.value < now && job.state in IN_FLIGHT_STATES
            then TakenAway(t[id], Reap(t, now)[id], now, "lease_expired", "cancelled", None)
            else Reap(t, now)[id] == t[id]
  {
  }

  /** The worker's name is `prefix/` and something. */
  ghost predicate OfProcess(owner: Option<string>, prefix: string) {
    exists rest :: owner == Some(prefix + "/" + rest)
  }

  lemma OursInWords(job: Job, prefix: string)
    ensures Ours(job, prefix) <==> OfProcess(job.owner, prefix)
  {
    if Ours(job, prefix) {
      var owner := job.owner.value;
      assert owner == prefix + "/" + owner[|prefix| + 1..];
    }
  }

  /** Recovery takes a job away if and only if it is in flight and its worker is none of this process's. */
  lemma ReleaseInColumns(t: Table, prefix: string, now: Instant, id: JobId)
    requires id in t
    ensures var job := t[id].job;
            if job.state in IN_FLIGHT_STATES && !OfProcess(job.owner, prefix)
            then TakenAway(t[id], Release(t, prefix, now)[id], now, "recovered", "recovered_cancelling",
                           Some("GENERATION_CANCELLED"))
            else Release(t, prefix, now)[id] == t[id]
  {
    OursInWords(t[id].job, prefix);
  }

  /** A cancel request completes at once exactly when nobody works on the job; otherwise the worker keeps its
      lease and is asked to stop. */
  lemma CancelInColumns(e: Entry, now: Instant)
    ensures var after, asked := CancelRequested(e, now), e.(job := e.job.(cancelRequested := true));
            if e.job.state in {Queued, WaitingResources} then
              SentOn(asked, after, Cancelled, now, "GENERATION_CANCELLED", Some("GENERATION_CANCELLED"))
            else if e.job.state in {Leased, Admitted, Executing, Validating, Retrying} then
              && after.job == asked.job.(state := Cancelling, reason := Some("cancel_requested"))
              && after.attempts == e.attempts && after.events == e.events + [JobEvent(Cancelling, now)]
            else
              after == e
  {
  }

  /** A renewal moves the expiry of a row, and nothing else, if and only if the worker holds it and named it. */
  lemma RenewInColumns(t: Table, worker: string, ids: set<JobId>, expires: Instant, id: JobId)
    requires id in t
    ensures var job := t[id].job;
            Renew(t, worker, ids, expires)[id] ==
              if id in ids && job.owner == Some(worker) && job.state in IN_FLIGHT_STATES
              then t[id].(job := job.(expires := Some(expires))) else t[id]
  {
  }

  /** A waiting job fails if and only if it has waited longer than its bound. */
  lemma ExpireInColumns(t: Table, now: Instant, id: JobId)
    requires id in t
    ensures var job := t[id].job;
            if job.state in WAITING_STATES && now > job.queuedAt + job.maxWaitSeconds as real
            then SentOn(t[id], Expire(t, now)[id], Failed, now, "MAX_WAIT_EXCEEDED", Some("MAX_WAIT_EXCEEDED"))
            else Expire(t, now)[id] == t[id]
  {
  }

  /** A claim takes a queued job that is due. With affinity, and a streak that may go on, it is one of a
      resident model if a job of top priority is; otherwise no due job has a higher priority, or the same one
      and an earlier creation. */
  lemma ClaimInColumns(t: Table, now: Instant, affinity: Option<AffinityHint>, id: JobId)
    requires ClaimOutcome(t, now, affinity, Some(id))
    ensures id in t && t[id].job.state == Queued && t[id].job.scheduledFor <= now
    ensures forall other | Due(t, now, other) :: t[other].job.effectivePriority <= t[id].job.effectivePriority
    ensures forall other | Due(t, now, other) && Rivals(t, id, other) && t[other].job.createdAt < t[id].job.createdAt ::
      Resident(t[id].job, affinity) && !Resident(t[other].job, affinity)
    ensures forall other | Due(t, now, other) && Rivals(t, id, other) && Resident(t[other].job, affinity) ::
      Resident(t[id].job, affinity)
  {
    var candidates, tier := Candidates(t, now), AffinityTier(t, now, affinity);
    assert id in candidates;
    forall other | Due(t, now, other)
      ensures t[other].job.effectivePriority <= t[id].job.effectivePriority
    {
      assert other in candidates;
      if tier == {} {
        assert MayPrecede(t[id].job, t[other].job);
      }
    }
    assert HasTopPriority(t, candidates, id);
    forall other | Due(t, now, other) && Rivals(t, id, other)
      ensures other in tier <==> Resident(t[other].job, affinity)
    {
      assert other in candidates && HasTopPriority(t, candidates, other);
    }
    assert Rivals(t, id, id);
    forall other | Due(t, now, other) && Rivals(t, id, other) && t[other].job.createdAt < t[id].job.createdAt
      ensures Resident(t[id].job, affinity) && !Resident(t[other].job, affinity)
    {
      assert !MayPrecede(t[id].job, t[other].job);
    }
  }

  predicate Due(t: Table, now: Instant, id: JobId) {
    id in t && t[id].job.state == Queued && t[id].job.scheduledFor <= now
  }

  predicate Rivals(t: Table, id: JobId, other: JobId)
    requires id in t && other in t
  {
    t[other].job.effectivePriority == t[id].job.effectivePriority
  }

  /** The job's model is loaded, and the run of claims that favour loaded models is not over. */
  predicate Resident(job: Job, affinity: Option<AffinityHint>) {
    && affinity.Some? && affinity.value.streak < affinity.value.maxStreak
    && job.selectedModel.Some? && job.selectedModel.value in affinity.value.residentModels
  }

  function Unfinished(t: Table): set<JobId> {
    set id | id in t && t[id].job.state !in {Completed, Failed, Cancelled}
  }

  function UnfinishedOf(t: Table, source: string): set<JobId> {
    set id | id in Unfinished(t) && t[id].job.source == source
  }

  /** A new job is admitted if and only if it fits under both caps; a cap of zero per source is no cap. */
  lemma AdmissionKeepsTheCaps(
    before: Table, newId: JobId, s: Submission, now: Instant, settings: QueueSettings,
    outcome: Result<(JobId, bool), QueueError>, after: Table)
    requires newId !in before && EnqueueOutcome(before, newId, s, now, settings, outcome, after)
    ensures outcome == Ok((newId, true)) ==>
      && Unfinished(after) == Unfinished(before) + {newId} && |Unfinished(after)| <= settings.maxDepth
      && (settings.maxActivePerSource > 0 ==> |UnfinishedOf(after, s.source)| <= settings.maxActivePerSource)
    ensures outcome == Err(QueueFull) ==>
      |Unfinished(after)| + 1 > settings.maxDepth
      || (settings.maxActivePerSource > 0 && |UnfinishedOf(after, s.source)| + 1 > settings.maxActivePerSource)
  {
    var t := BeforeInsert(before, s, now);
    LookupKeepsUnfinished(before, s, now);
    ActiveIsUnfinished(t, s.source);
    if outcome == Ok((newId, true)) && KeyHolders(t, s) == {} {
      InsertAddsOne(t, newId, after[newId]);
    }
  }

  lemma LookupKeepsUnfinished(t: Table, s: Submission, now: Instant)
    ensures BeforeInsert(t, s, now).Keys == t.Keys && Unfinished(BeforeInsert(t, s, now)) == Unfinished(t)
  {
  }

  lemma InsertAddsOne(t: Table, id: JobId, e: Entry)
    requires id !in t && e.job.state == Queued
    ensures Unfinished(t[id := e]) == Unfinished(t) + {id}
    ensures UnfinishedOf(t[id := e], e.job.source) == UnfinishedOf(t, e.job.source) + {id}
  {
  }

  lemma ActiveIsUnfinished(t: Table, source: string)
    ensures ActiveJobs(t) == Unfinished(t) && ActiveJobsOf(t, source) == UnfinishedOf(t, source)
  {
    forall id | id in t
      ensures t[id].job.state in ACTIVE_STATES <==> t[id].job.state !in {Completed, Failed, Cancelled}
    {
      var state := t[id].job.state;
      match state {
        case Queued => case Leased => case Admitted => case WaitingResources => case Executing => case Validating =>
        case Retrying => case Cancelling => case Completed => case Failed => case Cancelled =>
      }
    }
  }
}
