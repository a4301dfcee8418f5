/** Runs of the queue: every interleaving of its transactions by any number of workers, reapers,
    schedulers and restarts. */
module QueueRuns {
  import opened Wrappers
  import opened QueueState
  import opened Priority
  import opened Queue

  /** One committed or refused transaction. A claim carries the job it returned, because ties in the
      claim order are broken arbitrarily. Recovery is a release and then a sweep, two transactions that
      others may come between. */
  datatype Step =
    | InsertStep(id: JobId, s: Submission, now: Instant)
    | LookupStep(source: string, key: string, now: Instant)
    | ClaimStep(worker: string, affinity: Option<AffinityHint>, now: Instant, claimed: Option<JobId>)
    | WorkStep(id: JobId, owner: Option<string>, ops: seq<Op>, now: Instant)
    | CancelStep(id: JobId, now: Instant)
    | RenewStep(worker: string, ids: set<JobId>, now: Instant)
    | ReapStep(now: Instant)
    | AgeStep(now: Instant)
    | ExpireStep(now: Instant)
    | ReleaseStep(prefix: string, now: Instant)

  /** What the callers of `transition` obey: `leased` is entered by the claim alone. */
  predicate EntersByClaimOnly(ops: seq<Op>) {
    forall op | op in ops :: op.Transition? ==> op.target != Leased
  }

  ghost predicate Enabled(t: Table, step: Step) {
    match step
    case InsertStep(id, s, _) => id !in t && BasePriority(s.jobClass, s.priority).Ok?
    case ClaimStep(_, affinity, now, claimed) => ClaimOutcome(t, now, affinity, claimed)
    case WorkStep(_, _, ops, _) => EntersByClaimOnly(ops)
    case _ => true
  }

  /** Whether a worker's transaction commits. */
  predicate Commits(t: Table, id: JobId, ops: seq<Op>, owner: Option<string>, now: Instant) {
    id in t && TransactionOutcome(t[id], ops, owner, now).Ok?
  }

  ghost function After(t: Table, step: Step, settings: QueueSettings): Table
    requires Enabled(t, step)
  {
    match step
    case InsertStep(id, s, now) =>
      if s.key.Some? && Holders(t, s.source, s.key.value) != {} then t
      else t[id := NewEntry(s, BasePriority(s.jobClass, s.priority).value, now, settings)]
    case LookupStep(source, key, now) => Looked(t, source, key, now)
    case ClaimStep(worker, _, now, claimed) =>
      if claimed.None? then t
      else t[claimed.value := Leases(t[claimed.value], worker, now, settings.leaseSeconds)]
    case WorkStep(id, owner, ops, now) =>
      if Commits(t, id, ops, owner, now) then t[id := TransactionOutcome(t[id], ops, owner, now).value] else t
    case CancelStep(id, now) => if id in t then t[id := CancelRequested(t[id], now)] else t
    case RenewStep(worker, ids, now) => Renew(t, worker, ids, now + settings.leaseSeconds)
    case ReapStep(now) => Reap(t, now)
    case AgeStep(now) => Age(t, now, settings.rate, settings.overflow)
    case ExpireStep(now) => Expire(t, now)
    case ReleaseStep(prefix, now) => Release(t, prefix, now)
  }

  /** A sequence of steps with the tables between them: `states[i]` is the table before `steps[i]`. */
  datatype Behavior = Behavior(states: seq<Table>, steps: seq<Step>, settings: QueueSettings)

  ghost predicate Linked(b: Behavior, i: nat)
    requires i < |b.steps| && |b.states| == |b.steps| + 1
  {
    Enabled(b.states[i], b.steps[i]) && b.states[i + 1] == After(b.states[i], b.steps[i], b.settings)
  }

  /** A run from an empty database. */
  ghost predicate IsRun(b: Behavior) {
    && |b.states| == |b.steps| + 1
    && b.states[0] == map[]
    && forall i | 0 <= i < |b.steps| :: Linked(b, i)
  }

  // ------------------------------------------------------------------ what every row satisfies

  /** A lease is both columns or neither, and exactly the in-flight states carry one. */
  ghost predicate LeaseWf(job: Job) {
    && (job.owner.Some? <==> job.expires.Some?)
    && (job.owner.Some? <==> job.state in IN_FLIGHT_STATES)
  }

  /** The attempt rows are numbered 1, 2, ... up to the counter, each once. */
  ghost predicate Numbered(e: Entry) {
    && |e.attempts| == e.job.attempt
    && forall i | 0 <= i < |e.attempts| :: e.attempts[i].attempt == i + 1
  }

  function Kinds(events: seq<JobEvent>): (kinds: seq<JobState>)
    ensures |kinds| == |events|
    ensures forall i | 0 <= i < |events| :: kinds[i] == events[i].kind
  {
    seq(|events|, i requires 0 <= i < |events| => events[i].kind)
  }

  /** When the row was last queued. */
  function LastQueued(events: seq<JobEvent>): Option<Instant> {
    if events == [] then None
    else
      var last := events[|events| - 1];
      if last.kind == Queued then Some(last.at) else LastQueued(events[..|events| - 1])
  }

  lemma LastQueuedAppend(events: seq<JobEvent>, event: JobEvent)
    ensures LastQueued(events + [event]) == if event.kind == Queued then Some(event.at) else LastQueued(events)
  {
    assert (events + [event])[..|events|] == events;
  }

  /** The events retell the row's life: from `queued`, along legal edges, to the current state. A row is due
      from the instant it was last queued on, and it is completed at the instant of its terminal event. */
  ghost predicate HistoryWf(e: Entry) {
    && e.events != []
    && e.events[0].kind == Queued
    && e.events[|e.events| - 1].kind == e.job.state
    && LegalPath(Kinds(e.events))
    && LastQueued(e.events) == Some(e.job.scheduledFor)
    && e.job.completedAt == if e.job.state in TERMINAL_STATES then Some(e.events[|e.events| - 1].at) else None
  }

  ghost predicate PriorityWf(job: Job, overflow: nat) {
    && InBand(job.jobClass, job.basePriority)
    && job.basePriority <= job.effectivePriority <= Cap(job.jobClass, overflow)
    && job.createdAt == job.queuedAt
  }

  ghost predicate EntryWf(e: Entry, overflow: nat) {
    LeaseWf(e.job) && Numbered(e) && HistoryWf(e) && PriorityWf(e.job, overflow)
  }

  ghost predicate RowWf(t: Table, id: JobId, overflow: nat) {
    id in t ==> EntryWf(t[id], overflow)
  }

  ghost predicate TableWf(t: Table, overflow: nat) {
    forall id: JobId :: RowWf(t, id, overflow)
  }

  /** A legal transition keeps the lease columns in order exactly when it is not into `leased`. */
  lemma TransitionKeepsLeaseIff(job: Job, target: JobState, now: Instant, reason: Option<string>, values: Values)
    requires LeaseWf(job) && IsLegal(job.state, target)
    ensures LeaseWf(Moved(job, target, now, reason, values)) <==> target != Leased
  {
    EdgeFacts(job.state, target);
  }

  lemma PathGrows(events: seq<JobEvent>, event: JobEvent)
    requires events != [] && LegalPath(Kinds(events))
    requires IsLegal(events[|events| - 1].kind, event.kind)
    ensures LegalPath(Kinds(events + [event]))
  {
    var path, longer := Kinds(events), Kinds(events + [event]);
    forall i | 0 < i < |longer|
      ensures IsLegal(longer[i - 1], longer[i])
    {
      if i < |path| {
        assert longer[i - 1] == path[i - 1] && longer[i] == path[i];
      }
    }
  }

  lemma AdvancedWf(e: Entry, target: JobState, now: Instant, reason: Option<string>, values: Values, overflow: nat)
    requires EntryWf(e, overflow) && IsLegal(e.job.state, target) && target != Leased
    ensures EntryWf(Advanced(e, target, now, reason, values), overflow)
  {
    TransitionKeepsLeaseIff(e.job, target, now, reason, values);
    EdgeFacts(e.job.state, target);
    PathGrows(e.events, JobEvent(target, now));
    LastQueuedAppend(e.events, JobEvent(target, now));
  }

  lemma OpWf(e: Entry, op: Op, owner: Option<string>, now: Instant, overflow: nat)
    requires EntryWf(e, overflow) && OpOutcome(e, op, owner, now).Ok?
    requires op.Transition? ==> op.target != Leased
    ensures EntryWf(OpOutcome(e, op, owner, now).value, overflow)
  {
    if op.Transition? {
      AdvancedWf(e, op.target, now, op.reason, op.values, overflow);
    }
  }

  lemma {:induction false} TransactionWf(e: Entry, ops: seq<Op>, owner: Option<string>, now: Instant, overflow: nat)
    requires EntryWf(e, overflow) && TransactionOutcome(e, ops, owner, now).Ok? && EntersByClaimOnly(ops)
    ensures EntryWf(TransactionOutcome(e, ops, owner, now).value, overflow)
    decreases |ops|
  {
    if ops != [] {
      assert ops[0] in ops;
      OpWf(e, ops[0], owner, now, overflow);
      TransactionWf(OpOutcome(e, ops[0], owner, now).value, ops[1..], owner, now, overflow);
    }
  }

  lemma ClaimWf(e: Entry, owner: string, now: Instant, leaseSeconds: real, overflow: nat)
    requires EntryWf(e, overflow) && e.job.state == Queued
    ensures EntryWf(Leases(e, owner, now, leaseSeconds), overflow)
  {
    PathGrows(e.events, JobEvent(Leased, now));
    LastQueuedAppend(e.events, JobEvent(Leased, now));
  }

  lemma AgedWf(e: Entry, now: Instant, rate: real, overflow: nat)
    requires EntryWf(e, overflow)
    ensures EntryWf(Aged(e, now, rate, overflow), overflow)
  {
    SweepStaysInRange(e.job.basePriority, e.job.jobClass, e.job.queuedAt, now, rate, overflow);
  }

  lemma ReleasedWf(e: Entry, prefix: string, now: Instant, overflow: nat)
    requires EntryWf(e, overflow)
    ensures EntryWf(Released(e, prefix, now), overflow)
  {
    var target := ReleaseTarget(e.job, prefix);
    if target.Some? {
      AdvancedWf(e, target.value, now, Some(RecoveryReason(target.value)), RecoveryValues(target.value), overflow);
    }
  }

  lemma ReapedWf(e: Entry, now: Instant, overflow: nat)
    requires EntryWf(e, overflow)
    ensures EntryWf(Reaped(e, now), overflow)
  {
    var target := ReapTarget(e.job, now);
    if target.Some? {
      AdvancedWf(e, target.value, now, Some(ReapReason(target.value)), ReapValues(target.value), overflow);
    }
  }

  lemma ExpiredWf(e: Entry, now: Instant, overflow: nat)
    requires EntryWf(e, overflow)
    ensures EntryWf(Expired(e, now), overflow)
  {
    if WaitedTooLong(e.job, now) {
      AdvancedWf(e, Failed, now, Some("MAX_WAIT_EXCEEDED"), NO_VALUES.(errorCode := Some("MAX_WAIT_EXCEEDED")),
                 overflow);
    }
  }

  lemma CancelWf(e: Entry, now: Instant, overflow: nat)
    requires EntryWf(e, overflow)
    ensures EntryWf(CancelRequested(e, now), overflow)
  {
    var target := CancelTarget(e.job.state);
    if target.Some? {
      AdvancedWf(e, target.value, now, Some(CancelReason(target.value)), CancelValues(target.value), overflow);
    }
  }

  lemma NewEntryWf(s: Submission, now: Instant, settings: QueueSettings)
    requires BasePriority(s.jobClass, s.priority).Ok?
    ensures EntryWf(NewEntry(s, BasePriority(s.jobClass, s.priority).value, now, settings), settings.overflow)
  {
  }

  lemma ReapKeepsWf(t: Table, now: Instant, overflow: nat)
    requires TableWf(t, overflow)
    ensures TableWf(Reap(t, now), overflow)
  {
    forall id: JobId
      ensures RowWf(Reap(t, now), id, overflow)
    {
      assert RowWf(t, id, overflow);
      if id in t {
        ReapedWf(t[id], now, overflow);
      }
    }
  }

  lemma ReleaseKeepsWf(t: Table, prefix: string, now: Instant, overflow: nat)
    requires TableWf(t, overflow)
    ensures TableWf(Release(t, prefix, now), overflow)
  {
    forall id: JobId
      ensures RowWf(Release(t, prefix, now), id, overflow)
    {
      assert RowWf(t, id, overflow);
      if id in t {
        ReleasedWf(t[id], prefix, now, overflow);
      }
    }
  }

  lemma AgeKeepsWf(t: Table, now: Instant, rate: real, overflow: nat)
    requires TableWf(t, overflow)
    ensures TableWf(Age(t, now, rate, overflow), overflow)
  {
    forall id: JobId
      ensures RowWf(Age(t, now, rate, overflow), id, overflow)
    {
      assert RowWf(t, id, overflow);
      if id in t {
        AgedWf(t[id], now, rate, overflow);
      }
    }
  }

  lemma ExpireKeepsWf(t: Table, now: Instant, overflow: nat)
    requires TableWf(t, overflow)
    ensures TableWf(Expire(t, now), overflow)
  {
    forall id: JobId
      ensures RowWf(Expire(t, now), id, overflow)
    {
      assert RowWf(t, id, overflow);
      if id in t {
        ExpiredWf(t[id], now, overflow);
      }
    }
  }

  lemma RenewAndLookupKeepWf(t: Table, worker: string, ids: set<JobId>, expires: Instant, source: string,
                             key: string, now: Instant, overflow: nat)
    requires TableWf(t, overflow)
    ensures TableWf(Renew(t, worker, ids, expires), overflow)
    ensures TableWf(Looked(t, source, key, now), overflow)
  {
    forall id: JobId
      ensures RowWf(Renew(t, worker, ids, expires), id, overflow) && RowWf(Looked(t, source, key, now), id, overflow)
    {
      assert RowWf(t, id, overflow);
    }
  }

  lemma UpdateKeepsWf(t: Table, id: JobId, e: Entry, overflow: nat)
    requires TableWf(t, overflow) && EntryWf(e, overflow)
    ensures TableWf(t[id := e], overflow)
  {
    var after := t[id := e];
    forall other: JobId
      ensures RowWf(after, other, overflow)
    {
      assert RowWf(t, other, overflow);
    }
  }

  lemma ClaimKeepsWf(t: Table, id: JobId, worker: string, now: Instant, leaseSeconds: real, overflow: nat)
    requires TableWf(t, overflow) && id in t && t[id].job.state == Queued
    ensures TableWf(t[id := Leases(t[id], worker, now, leaseSeconds)], overflow)
  {
    assert RowWf(t, id, overflow);
    ClaimWf(t[id], worker, now, leaseSeconds, overflow);
    UpdateKeepsWf(t, id, Leases(t[id], worker, now, leaseSeconds), overflow);
  }

  lemma WorkKeepsWf(t: Table, id: JobId, ops: seq<Op>, owner: Option<string>, now: Instant, overflow: nat)
    requires TableWf(t, overflow) && Commits(t, id, ops, owner, now) && EntersByClaimOnly(ops)
    ensures TableWf(t[id := TransactionOutcome(t[id], ops, owner, now).value], overflow)
  {
    assert RowWf(t, id, overflow);
    TransactionWf(t[id], ops, owner, now, overflow);
    UpdateKeepsWf(t, id, TransactionOutcome(t[id], ops, owner, now).value, overflow);
  }

  lemma CancelKeepsWf(t: Table, id: JobId, now: Instant, overflow: nat)
    requires TableWf(t, overflow) && id in t
    ensures TableWf(t[id := CancelRequested(t[id], now)], overflow)
  {
    assert RowWf(t, id, overflow);
    CancelWf(t[id], now, overflow);
    UpdateKeepsWf(t, id, CancelRequested(t[id], now), overflow);
  }

  /** Every transaction keeps every row well formed. */
  lemma StepKeepsWf(t: Table, step: Step, settings: QueueSettings)
    requires TableWf(t, settings.overflow) && Enabled(t, step)
    ensures TableWf(After(t, step, settings), settings.overflow)
  {
    var overflow := settings.overflow;
    match step
    case InsertStep(id, s, now) =>
      NewEntryWf(s, now, settings);
      UpdateKeepsWf(t, id, NewEntry(s, BasePriority(s.jobClass, s.priority).value, now, settings), overflow);
    case LookupStep(source, key, now) => RenewAndLookupKeepWf(t, "", {}, now, source, key, now, overflow);
    case ClaimStep(worker, _, now, claimed) =>
      if claimed.Some? {
        ClaimKeepsWf(t, claimed.value, worker, now, settings.leaseSeconds, overflow);
      }
    case WorkStep(id, owner, ops, now) =>
      if Commits(t, id, ops, owner, now) {
        WorkKeepsWf(t, id, ops, owner, now, overflow);
      }
    case CancelStep(id, now) =>
      if id in t {
        CancelKeepsWf(t, id, now, overflow);
      }
    case RenewStep(worker, ids, now) =>
      RenewAndLookupKeepWf(t, worker, ids, now + settings.leaseSeconds, "", "", now, overflow);
    case ReapStep(now) => ReapKeepsWf(t, now, overflow);
    case AgeStep(now) => AgeKeepsWf(t, now, settings.rate, overflow);
    case ExpireStep(now) => ExpireKeepsWf(t, now, overflow);
    case ReleaseStep(prefix, now) => ReleaseKeepsWf(t, prefix, now, overflow);
  }

  // ------------------------------------------------------------------ how one step changes one row

  /** How a row can change: its log, its attempts and its counter only grow, its key is kept or released, and
      a request to cancel it is not taken back. */
  ghost predicate RowEvolves(old_: Entry, new_: Entry) {
    && old_.events <= new_.events
    && old_.attempts <= new_.attempts
    && old_.job.attempt <= new_.job.attempt
    && new_.job.source == old_.job.source
    && new_.job.key in {None, old_.job.key}
    && (old_.job.cancelRequested ==> new_.job.cancelRequested)
  }

  lemma {:induction false} TransactionEvolves(e: Entry, ops: seq<Op>, owner: Option<string>, now: Instant)
    requires TransactionOutcome(e, ops, owner, now).Ok?
    ensures RowEvolves(e, TransactionOutcome(e, ops, owner, now).value)
    ensures TransactionOutcome(e, ops, owner, now).value.job.owner in {None, e.job.owner}
    ensures owner.Some? && ops != [] ==> e.job.owner == owner
    decreases |ops|
  {
    if ops != [] {
      TransactionEvolves(OpOutcome(e, ops[0], owner, now).value, ops[1..], owner, now);
    }
  }

  /** The same, and the owner kept or dropped. */
  ghost predicate OwnerKept(old_: Entry, new_: Entry) {
    RowEvolves(old_, new_) && new_.job.owner in {None, old_.job.owner}
  }

  lemma TakenRowEvolves(e: Entry, prefix: string, now: Instant)
    ensures OwnerKept(e, Reaped(e, now)) && OwnerKept(e, Released(e, prefix, now))
  {
  }

  lemma WaitingRowEvolves(e: Entry, now: Instant, rate: real, overflow: nat)
    ensures OwnerKept(e, Aged(e, now, rate, overflow)) && OwnerKept(e, Expired(e, now))
  {
  }

  lemma CancelledRowEvolves(e: Entry, now: Instant)
    ensures OwnerKept(e, CancelRequested(e, now))
  {
  }

  lemma KeyAndLeaseEvolve(t: Table, id: JobId, source: string, key: string, worker: string, ids: set<JobId>,
                          now: Instant)
    requires id in t
    ensures id in Looked(t, source, key, now) && OwnerKept(t[id], Looked(t, source, key, now)[id])
    ensures id in Renew(t, worker, ids, now) && OwnerKept(t[id], Renew(t, worker, ids, now)[id])
  {
  }

  /** Rows are never deleted; logs only grow; an owner appears only by that owner's claim. */
  lemma StepEvolves(t: Table, step: Step, settings: QueueSettings, id: JobId)
    requires Enabled(t, step) && id in t
    ensures id in After(t, step, settings)
    ensures RowEvolves(t[id], After(t, step, settings)[id])
    ensures OwnerKept(t[id], After(t, step, settings)[id])
         || (step.ClaimStep? && step.claimed == Some(id) && After(t, step, settings)[id].job.owner == Some(step.worker))
  {
    match step
    case InsertStep(_, _, _) =>
    case LookupStep(source, key, now) => KeyAndLeaseEvolve(t, id, source, key, "", {}, now);
    case ClaimStep(_, _, _, _) =>
    case WorkStep(worked, owner, ops, now) =>
      if Commits(t, worked, ops, owner, now) {
        TransactionEvolves(t[worked], ops, owner, now);
      }
    case RenewStep(worker, ids, now) => KeyAndLeaseEvolve(t, id, "", "", worker, ids, now + settings.leaseSeconds);
    case CancelStep(_, now) => CancelledRowEvolves(t[id], now);
    case ReapStep(now) => TakenRowEvolves(t[id], "", now);
    case AgeStep(now) => WaitingRowEvolves(t[id], now, settings.rate, settings.overflow);
    case ExpireStep(now) => WaitingRowEvolves(t[id], now, settings.rate, settings.overflow);
    case ReleaseStep(prefix, now) => TakenRowEvolves(t[id], prefix, now);
  }

  /** A row that was not there is one that the insert added, under a key nobody held. */
  lemma NewRowsAreInserted(t: Table, step: Step, settings: QueueSettings, id: JobId)
    requires Enabled(t, step) && id !in t && id in After(t, step, settings)
    ensures step.InsertStep? && step.id == id
    ensures After(t, step, settings)[id].job.key == step.s.key
      && After(t, step, settings)[id].job.source == step.s.source
    ensures step.s.key.Some? ==> Holders(t, step.s.source, step.s.key.value) == {}
  {
  }

  lemma NoSharedKey(t: Table, step: Step, settings: QueueSettings, a: JobId, b: JobId)
    requires KeysUnique(t) && Enabled(t, step) && a != b
    requires a in After(t, step, settings) && b in After(t, step, settings) && b in t
    ensures var after := After(t, step, settings);
            after[a].job.key.Some? ==>
              after[a].job.source != after[b].job.source || after[a].job.key != after[b].job.key
  {
    StepEvolves(t, step, settings, b);
    if a in t {
      StepEvolves(t, step, settings, a);
    } else {
      NewRowsAreInserted(t, step, settings, a);
      assert step.s.key.Some? ==> b !in Holders(t, step.s.source, step.s.key.value);
    }
  }

  /** Every transaction keeps the unique index on `(source, key)`. */
  lemma StepKeepsKeysUnique(t: Table, step: Step, settings: QueueSettings)
    requires KeysUnique(t) && Enabled(t, step)
    ensures KeysUnique(After(t, step, settings))
  {
    var after := After(t, step, settings);
    forall a, b | a in after && b in after && a != b && after[a].job.key.Some?
      ensures after[a].job.source != after[b].job.source || after[a].job.key != after[b].job.key
    {
      if b in t {
        NoSharedKey(t, step, settings, a, b);
      } else {
        NewRowsAreInserted(t, step, settings, b);
        if a in t {
          NoSharedKey(t, step, settings, b, a);
        } else {
          NewRowsAreInserted(t, step, settings, a);
        }
      }
    }
  }

  /** In every reachable state: leases only where they belong, attempts numbered `1..attempt`, the
      event log a legal history of the row, the priority between base and cap, and no key held twice. */
  lemma {:induction false} ReachableRowsAreWellFormed(b: Behavior, i: nat)
    requires IsRun(b) && i <= |b.steps|
    ensures TableWf(b.states[i], b.settings.overflow)
    ensures KeysUnique(b.states[i])
    decreases i
  {
    if i > 0 {
      ReachableRowsAreWellFormed(b, i - 1);
      assert Linked(b, i - 1);
      StepKeepsWf(b.states[i - 1], b.steps[i - 1], b.settings);
      StepKeepsKeysUnique(b.states[i - 1], b.steps[i - 1], b.settings);
    }
  }

  /** The same, between consecutive states of a run. */
  lemma RunStepEvolves(b: Behavior, i: nat, id: JobId)
    requires IsRun(b) && i < |b.steps|
    requires id in b.states[i]
    ensures id in b.states[i + 1]
    ensures RowEvolves(b.states[i][id], b.states[i + 1][id])
  {
    assert Linked(b, i);
    StepEvolves(b.states[i], b.steps[i], b.settings, id);
  }

  /** A change of owner to `worker` is `worker`'s claim. */
  lemma OwnerStep(b: Behavior, i: nat, id: JobId, worker: string)
    requires IsRun(b) && i < |b.steps|
    requires OwnerOf(b.states[i], id) != Some(worker)
    requires OwnerOf(b.states[i + 1], id) == Some(worker)
    ensures b.steps[i].ClaimStep? && b.steps[i].claimed == Some(id) && b.steps[i].worker == worker
  {
    var before := b.states[i];
    assert Linked(b, i);
    if id in before {
      StepEvolves(before, b.steps[i], b.settings, id);
    } else {
      NewRowsHaveNoOwner(before, b.steps[i], b.settings, id);
    }
  }

  lemma NewRowsHaveNoOwner(t: Table, step: Step, settings: QueueSettings, id: JobId)
    requires Enabled(t, step) && id !in t
    ensures OwnerOf(After(t, step, settings), id) == None
  {
  }

  lemma {:induction false} RowsEvolve(b: Behavior, i: nat, j: nat, id: JobId)
    requires IsRun(b) && i <= j <= |b.steps|
    requires id in b.states[i]
    ensures id in b.states[j]
    ensures RowEvolves(b.states[i][id], b.states[j][id])
    decreases j - i
  {
    if i < j {
      RowsEvolve(b, i, j - 1, id);
      RunStepEvolves(b, j - 1, id);
    }
  }

  // ------------------------------------------------------------------ lease fencing

  function OwnerOf(t: Table, id: JobId): Option<string> {
    if id in t then t[id].job.owner else None
  }

  /** The worker of the latest claim that returned the job. */
  function LastClaimer(steps: seq<Step>, id: JobId): Option<string>
    decreases |steps|
  {
    if steps == [] then None
    else
      var step := steps[|steps| - 1];
      if step.ClaimStep? && step.claimed == Some(id) then Some(step.worker)
      else LastClaimer(steps[..|steps| - 1], id)
  }

  lemma ClaimSetsOwner(b: Behavior, i: nat, id: JobId)
    requires IsRun(b) && i < |b.steps|
    ensures b.steps[i].ClaimStep? && b.steps[i].claimed == Some(id) ==>
      OwnerOf(b.states[i + 1], id) == Some(b.steps[i].worker)
  {
    assert Linked(b, i);
  }

  /** An owner on the row is always the job's most recent claimer. */
  lemma {:induction false} OwnerIsLastClaimer(b: Behavior, i: nat, id: JobId)
    requires IsRun(b) && i <= |b.steps|
    ensures OwnerOf(b.states[i], id) in {None, LastClaimer(b.steps[..i], id)}
    decreases i
  {
    if i > 0 {
      OwnerIsLastClaimer(b, i - 1, id);
      assert b.steps[..i][..i - 1] == b.steps[..i - 1];
      ClaimSetsOwner(b, i - 1, id);
      var owner := OwnerOf(b.states[i], id);
      if owner.Some? && OwnerOf(b.states[i - 1], id) != owner {
        OwnerStep(b, i - 1, id, owner.value);
      }
    }
  }

  /** A worker's fenced transaction that did something. */
  ghost predicate CommitsAs(b: Behavior, i: nat, id: JobId, worker: string)
    requires i < |b.steps| < |b.states|
  {
    && b.steps[i].WorkStep? && b.steps[i].id == id && b.steps[i].owner == Some(worker) && b.steps[i].ops != []
    && Commits(b.states[i], id, b.steps[i].ops, Some(worker), b.steps[i].now)
  }

  /** Fencing: every attempt row written and every transition made under a fence, in any run, is by
      the job's most recent claimer, while the job is in flight. */
  lemma FencedWorkIsByTheLastClaimer(b: Behavior, i: nat, id: JobId, worker: string)
    requires IsRun(b) && i < |b.steps|
    requires CommitsAs(b, i, id, worker)
    ensures LastClaimer(b.steps[..i], id) == Some(worker)
    ensures b.states[i][id].job.state in IN_FLIGHT_STATES
  {
    var before := b.states[i];
    TransactionEvolves(before[id], b.steps[i].ops, Some(worker), b.steps[i].now);
    OwnerIsLastClaimer(b, i, id);
    ReachableRowsAreWellFormed(b, i);
    assert RowWf(before, id, b.settings.overflow);
  }

  /** Whoever owns the job at `j` but not at `i` has claimed it in between. */
  lemma {:induction false} OwnershipIsClaimed(b: Behavior, i: nat, j: nat, id: JobId, worker: string)
    returns (k: nat)
    requires IsRun(b) && i <= j <= |b.steps|
    requires OwnerOf(b.states[i], id) != Some(worker)
    requires OwnerOf(b.states[j], id) == Some(worker)
    ensures i <= k < j && b.steps[k].ClaimStep? && b.steps[k].claimed == Some(id) && b.steps[k].worker == worker
    decreases j - i
  {
    if OwnerOf(b.states[j - 1], id) == Some(worker) {
      k := OwnershipIsClaimed(b, i, j - 1, id, worker);
    } else {
      OwnerStep(b, j - 1, id, worker);
      k := j - 1;
    }
  }

  /** A worker that has lost its job, by reaping, recovery, completion, cancellation or another
      worker's claim, is refused until it claims the job again. */
  lemma RefusedUntilReclaimed(b: Behavior, i: nat, j: nat, id: JobId, worker: string)
    returns (k: nat)
    requires IsRun(b) && i <= j < |b.steps|
    requires OwnerOf(b.states[i], id) != Some(worker)
    requires CommitsAs(b, j, id, worker)
    ensures i <= k < j && b.steps[k].ClaimStep? && b.steps[k].claimed == Some(id) && b.steps[k].worker == worker
  {
    var before := b.states[j];
    TransactionEvolves(before[id], b.steps[j].ops, Some(worker), b.steps[j].now);
    k := OwnershipIsClaimed(b, i, j, id, worker);
  }

  /** Reaping and the release of foreign leases do take the job away from whoever held it. */
  lemma SweptJobsHaveNoOwner(t: Table, id: JobId, now: Instant, prefix: string, overflow: nat)
    requires TableWf(t, overflow) && id in t
    ensures LeaseExpired(t[id].job, now) ==> OwnerOf(Reap(t, now), id) == None
    ensures Orphaned(t[id].job, prefix) ==> OwnerOf(Release(t, prefix, now), id) == None
  {
    assert RowWf(t, id, overflow);
    ReapedWf(t[id], now, overflow);
    ReleasedWf(t[id], prefix, now, overflow);
  }

  // ------------------------------------------------------------------ terminal jobs and cancellation

  /** What a legal, growing event log says about the row it belongs to. */
  lemma GrownHistory(early: Entry, late: Entry, overflow: nat)
    requires EntryWf(early, overflow) && EntryWf(late, overflow) && early.events <= late.events
    ensures early.job.state in TERMINAL_STATES
      ==> late.events == early.events && late.job.state == early.job.state && late.job.owner == None
    ensures early.job.state == Cancelling ==> late.job.state in {Cancelling, Cancelled}
  {
    var n, path := |early.events|, Kinds(late.events);
    assert path[n - 1] == early.job.state;
    if early.job.state in TERMINAL_STATES {
      TerminalIsLast(path, n - 1);
    } else if early.job.state == Cancelling {
      AfterCancelling(path, n - 1, |path| - 1);
    }
  }

  /** A terminal row's state, lease and log never change again. */
  lemma TerminalIsFinal(b: Behavior, i: nat, j: nat, id: JobId)
    requires IsRun(b) && i <= j <= |b.steps|
    requires id in b.states[i] && b.states[i][id].job.state in TERMINAL_STATES
    ensures id in b.states[j]
    ensures b.states[j][id].job.state == b.states[i][id].job.state
    ensures b.states[j][id].job.owner == None
    ensures b.states[j][id].events == b.states[i][id].events
  {
    RowsEvolve(b, i, j, id);
    ReachableRowsAreWellFormed(b, i);
    ReachableRowsAreWellFormed(b, j);
    assert RowWf(b.states[i], id, b.settings.overflow) && RowWf(b.states[j], id, b.settings.overflow);
    GrownHistory(b.states[i][id], b.states[j][id], b.settings.overflow);
  }

  lemma NoFencedAttemptStep(b: Behavior, i: nat, id: JobId)
    requires IsRun(b) && i < |b.steps|
    requires id in b.states[i] && b.states[i][id].job.owner == None
    requires b.steps[i].WorkStep? && b.steps[i].id == id ==> b.steps[i].owner.Some?
    ensures id in b.states[i + 1]
    ensures b.states[i + 1][id].attempts == b.states[i][id].attempts
  {
    assert Linked(b, i);
    var before, step := b.states[i], b.steps[i];
    if step.WorkStep? && step.id == id && Commits(before, id, step.ops, step.owner, step.now) {
      TransactionEvolves(before[id], step.ops, step.owner, step.now);
    }
  }

  /** No fenced attempt is written once a job is terminal. */
  lemma {:induction false} NoFencedAttemptAfterTerminal(b: Behavior, i: nat, j: nat, id: JobId)
    requires IsRun(b) && i <= j <= |b.steps|
    requires id in b.states[i] && b.states[i][id].job.state in TERMINAL_STATES
    requires forall k | i <= k < j :: b.steps[k].WorkStep? && b.steps[k].id == id ==> b.steps[k].owner.Some?
    ensures id in b.states[j]
    ensures b.states[j][id].attempts == b.states[i][id].attempts
    decreases j - i
  {
    if i < j {
      NoFencedAttemptAfterTerminal(b, i, j - 1, id);
      TerminalIsFinal(b, i, j - 1, id);
      NoFencedAttemptStep(b, j - 1, id);
    }
  }

  /** An accepted cancellation ends in `cancelled` and nowhere else. */
  lemma AcceptedCancelOnlyCancels(b: Behavior, i: nat, j: nat, id: JobId)
    requires IsRun(b) && i < j <= |b.steps|
    requires b.steps[i].CancelStep? && b.steps[i].id == id && id in b.states[i]
    requires b.states[i][id].job.state !in TERMINAL_STATES
    ensures id in b.states[j]
    ensures b.states[j][id].job.state in {Cancelling, Cancelled}
    ensures b.states[i][id].job.state != Cancelling ==> b.states[j][id].job.cancelRequested
    ensures b.states[i][id].job.state in WAITING_STATES ==>
      b.states[j][id].job.state == Cancelled
  {
    assert Linked(b, i);
    assert b.states[i + 1] == b.states[i][id := CancelRequested(b.states[i][id], b.steps[i].now)];
    RowsEvolve(b, i + 1, j, id);
    ReachableRowsAreWellFormed(b, i + 1);
    ReachableRowsAreWellFormed(b, j);
    assert RowWf(b.states[i + 1], id, b.settings.overflow) && RowWf(b.states[j], id, b.settings.overflow);
    GrownHistory(b.states[i + 1][id], b.states[j][id], b.settings.overflow);
  }

  // ------------------------------------------------------------------ reaping and recovery

  /** Reaping moves exactly the rows whose lease has expired, and leaves no lease expired before now. */
  lemma ReapIsComplete(t: Table, now: Instant, overflow: nat)
    requires TableWf(t, overflow)
    ensures forall id | id in t ::
      Reap(t, now)[id] != t[id] <==> t[id].job.expires.Some? && t[id].job.expires.value < now
    ensures forall id | id in Reap(t, now) ::
      Reap(t, now)[id].job.expires.Some? ==> Reap(t, now)[id].job.expires.value >= now
  {
    forall id | id in t
      ensures Reap(t, now)[id] != t[id] <==> t[id].job.expires.Some? && t[id].job.expires.value < now
      ensures Reap(t, now)[id].job.expires.Some? ==> Reap(t, now)[id].job.expires.value >= now
    {
      assert RowWf(t, id, overflow);
    }
  }

  lemma RecoveredRow(e: Entry, prefix: string, now: Instant, rate: real, overflow: nat)
    ensures var after := Aged(Released(e, prefix, now), now, rate, overflow);
            && after.attempts == e.attempts
            && after.job.attempt == e.job.attempt
            && after.job.queuedAt == e.job.queuedAt
            && !Orphaned(after.job, prefix)
            && (Ours(e.job, prefix) ==> after.job.state == e.job.state && after.events == e.events)
  {
  }

  /** What recovery keeps, and that no job stays in flight under another process's lease. */
  lemma RecoveryIsComplete(t: Table, prefix: string, now: Instant, rate: real, overflow: nat)
    ensures var after := Recover(t, prefix, now, rate, overflow);
            && after.Keys == t.Keys
            && forall id | id in t ::
                 && after[id].attempts == t[id].attempts
                 && after[id].job.attempt == t[id].job.attempt
                 && after[id].job.queuedAt == t[id].job.queuedAt
                 && !Orphaned(after[id].job, prefix)
                 && (Ours(t[id].job, prefix)
                     ==> after[id].job.state == t[id].job.state && after[id].events == t[id].events)
  {
    forall id | id in t
      ensures var after := Recover(t, prefix, now, rate, overflow)[id];
              && after.attempts == t[id].attempts
              && after.job.attempt == t[id].job.attempt
              && after.job.queuedAt == t[id].job.queuedAt
              && !Orphaned(after.job, prefix)
              && (Ours(t[id].job, prefix) ==> after.job.state == t[id].job.state && after.events == t[id].events)
    {
      RecoveredRow(t[id], prefix, now, rate, overflow);
    }
  }

  lemma AgedTwice(e: Entry, now: Instant, rate: real, overflow: nat)
    ensures Aged(Aged(e, now, rate, overflow), now, rate, overflow) == Aged(e, now, rate, overflow)
  {
  }

  lemma ReleasedTwice(e: Entry, prefix: string, now: Instant, rate: real, overflow: nat)
    ensures var once := Aged(Released(e, prefix, now), now, rate, overflow); Released(once, prefix, now) == once
  {
    assert !Orphaned(Released(e, prefix, now).job, prefix);
  }

  /** Recovery run twice at one instant changes no row and appends no event. */
  lemma RecoveryIsIdempotent(t: Table, prefix: string, now: Instant, rate: real, overflow: nat)
    ensures var once := Recover(t, prefix, now, rate, overflow); Recover(once, prefix, now, rate, overflow) == once
  {
    var once := Recover(t, prefix, now, rate, overflow);
    var twice := Recover(once, prefix, now, rate, overflow);
    forall id | id in t
      ensures twice[id] == once[id]
    {
      ReleasedTwice(t[id], prefix, now, rate, overflow);
      AgedTwice(Released(t[id], prefix, now), now, rate, overflow);
    }
  }

  /** A sweep run twice at one instant changes nothing, and computes the definition on every row. */
  lemma SweepIsExactAndIdempotent(t: Table, now: Instant, rate: real, overflow: nat)
    requires rate >= 0.0
    ensures Age(Age(t, now, rate, overflow), now, rate, overflow) == Age(t, now, rate, overflow)
    ensures forall id | id in t && t[id].job.state in WAITING_STATES ::
      var job := t[id].job;
      Age(t, now, rate, overflow)[id].job.effectivePriority
      == EffectivePriority(job.basePriority, job.jobClass, now - job.queuedAt, rate, overflow)
  {
    forall id | id in t
      ensures Aged(Aged(t[id], now, rate, overflow), now, rate, overflow) == Aged(t[id], now, rate, overflow)
    {
      AgedTwice(t[id], now, rate, overflow);
    }
    forall id | id in t && t[id].job.state in WAITING_STATES
      ensures Age(t, now, rate, overflow)[id].job.effectivePriority
           == EffectivePriority(t[id].job.basePriority, t[id].job.jobClass, now - t[id].job.queuedAt, rate, overflow)
    {
      var job := t[id].job;
      SweepMatchesDefinition(job.basePriority, job.jobClass, job.queuedAt, now, rate, overflow);
    }
  }
}
