/** The durable queue: the job rows, what each operation does to one row, and the store whose
    methods are the queue's transactions. */
module Queue {
  import opened Wrappers
  import opened QueueState
  import opened Priority
  import opened Sweeps

  type JobId = string

  /** The columns of `jobs` that the queue's decisions read or write. */
  datatype Job = Job(
    state: JobState,
    reason: Option<string>,
    owner: Option<string>,
    expires: Option<Instant>,
    attempt: nat,
    jobClass: JobClass,
    basePriority: int,
    effectivePriority: int,
    createdAt: Instant,
    queuedAt: Instant,
    scheduledFor: Instant,
    completedAt: Option<Instant>,
    maxWaitSeconds: nat,
    idempotent: bool,
    cancelRequested: bool,
    errorCode: Option<string>,
    selectedModel: Option<string>,
    source: string,
    key: Option<string>,
    keyExpires: Option<Instant>)

  /** One row of `job_attempts`. */
  datatype AttemptRecord = AttemptRecord(attempt: nat, outcome: string)

  /** One `job.<state>` row of `job_events`. */
  datatype JobEvent = JobEvent(kind: JobState, at: Instant)

  /** A job's row together with its `job_attempts` and `job_events`, oldest first. */
  datatype Entry = Entry(job: Job, attempts: seq<AttemptRecord>, events: seq<JobEvent>)

  type Table = map<JobId, Entry>

  datatype QueueError =
    | IllegalTransition
    | TransitionRefused
    | AttemptRefused
    | JobNotFound
    | JobNotCancellable
    | QueueFull
    | InvalidPriority
    | KeyTaken

  datatype QueueSettings = QueueSettings(
    maxDepth: nat,
    maxActivePerSource: nat,
    maxWaitSeconds: nat,
    idempotencyTtl: real,
    leaseSeconds: real,
    rate: real,
    overflow: nat)
  {
    /** The bounds the configuration imposes on these settings. */
    predicate Valid() {
      maxDepth >= 1 && maxWaitSeconds >= 1 && idempotencyTtl > 0.0 && leaseSeconds >= 1.0 && rate >= 0.0
    }
  }

  datatype Submission = Submission(
    jobClass: JobClass,
    priority: Option<int>,
    maxWaitSeconds: Option<nat>,
    idempotent: bool,
    source: string,
    key: Option<string>,
    model: Option<string>)

  // ------------------------------------------------------------------ what a transition does

  /** Extra columns a caller of `transition` sets; lease columns are not among them. */
  datatype Values = Values(cancelRequested: bool, errorCode: Option<string>, selectedModel: Option<string>)

  const NO_VALUES := Values(false, None, None)

  predicate ReleasesLease(target: JobState) {
    target in WAITING_STATES || target in TERMINAL_STATES
  }

  function Moved(job: Job, target: JobState, now: Instant, reason: Option<string>, values: Values): Job {
    job.(
      state := target,
      reason := reason,
      owner := if ReleasesLease(target) then None else job.owner,
      expires := if ReleasesLease(target) then None else job.expires,
      scheduledFor := if target == Queued then now else job.scheduledFor,
      completedAt := if target in TERMINAL_STATES then Some(now) else job.completedAt,
      cancelRequested := values.cancelRequested || job.cancelRequested,
      errorCode := if values.errorCode.Some? then values.errorCode else job.errorCode,
      selectedModel := if values.selectedModel.Some? then values.selectedModel else job.selectedModel)
  }

  /** A transition together with the event that records it. */
  function Advanced(e: Entry, target: JobState, now: Instant, reason: Option<string>, values: Values): Entry {
    e.(job := Moved(e.job, target, now, reason, values), events := e.events + [JobEvent(target, now)])
  }

  /** Whether the row passes a caller's fence; no owner given means no fence. */
  predicate Fenced(job: Job, owner: Option<string>) {
    owner.Some? ==> job.owner == owner
  }

  /** Why the compare-and-set on `(state, lease_owner)` refuses, or `None` when it succeeds. */
  function TransitionError(job: Option<Job>, current: JobState, target: JobState,
                           owner: Option<string>): Option<QueueError> {
    if !IsLegal(current, target) then
      Some(IllegalTransition)
    else if job.Some? && job.value.state == current && Fenced(job.value, owner) then
      None
    else
      Some(TransitionRefused)
  }

  // ------------------------------------------------------------------ a worker's transaction

  datatype Op =
    | Transition(current: JobState, target: JobState, reason: Option<string>, values: Values)
    | WriteAttempt(record: AttemptRecord)

  function OpOutcome(e: Entry, op: Op, owner: Option<string>, now: Instant): Result<Entry, QueueError> {
    match op
    case Transition(current, target, reason, values) =>
      var error := TransitionError(Some(e.job), current, target, owner);
      if error.Some? then Err(error.value) else Ok(Advanced(e, target, now, reason, values))
    case WriteAttempt(record) =>
      if Fenced(e.job, owner) && record.attempt == e.job.attempt + 1 then
        Ok(e.(job := e.job.(attempt := record.attempt), attempts := e.attempts + [record]))
      else
        Err(AttemptRefused)
  }

  /** All of a transaction's operations, or the first refusal. */
  function TransactionOutcome(e: Entry, ops: seq<Op>, owner: Option<string>, now: Instant): Result<Entry, QueueError>
    decreases |ops|
  {
    if ops == [] then
      Ok(e)
    else
      var first := OpOutcome(e, ops[0], owner, now);
      if first.Err? then first else TransactionOutcome(first.value, ops[1..], owner, now)
  }

  /** A transaction on one row that has come to operation `i`. */
  ghost predicate Underway(before: Table, t: Table, id: JobId, ops: seq<Op>, owner: Option<string>, now: Instant,
                           i: nat) {
    && i <= |ops|
    && if id !in before then t == before && i == 0
       else
         && id in t && t == before[id := t[id]]
         && TransactionOutcome(before[id], ops, owner, now) == TransactionOutcome(t[id], ops[i..], owner, now)
  }

  /** The next operation carries the transaction on, or is the refusal it ends with. */
  lemma UnderwayStep(before: Table, t: Table, id: JobId, ops: seq<Op>, owner: Option<string>, now: Instant, i: nat)
    requires i < |ops| && Underway(before, t, id, ops, owner, now, i)
    ensures id in before ==>
      var outcome := OpOutcome(t[id], ops[i], owner, now);
      if outcome.Ok? then Underway(before, t[id := outcome.value], id, ops, owner, now, i + 1)
      else TransactionOutcome(before[id], ops, owner, now) == outcome
  {
    assert ops[i..][0] == ops[i] && ops[i..][1..] == ops[i + 1..];
  }

  // ------------------------------------------------------------------ what each sweep does to a row

  predicate LeaseExpired(job: Job, now: Instant) {
    job.expires.Some? && job.expires.value < now
  }

  function ReapReason(target: JobState): string {
    if target == Cancelled then "cancelled" else if target == Queued then "lease_expired" else "worker_lost"
  }

  function ReapValues(target: JobState): Values {
    if target == Failed then NO_VALUES.(errorCode := Some("WORKER_LOST")) else NO_VALUES
  }

  /** Where reaping moves a row, if its lease has expired. */
  function ReapTarget(job: Job, now: Instant): Option<JobState> {
    if LeaseExpired(job, now) then RecoveryTarget(job.state, job.idempotent) else None
  }

  function Reaped(e: Entry, now: Instant): Entry {
    var target := ReapTarget(e.job, now);
    if target.None? then e
    else Advanced(e, target.value, now, Some(ReapReason(target.value)), ReapValues(target.value))
  }

  /** Whether a lease belongs to a worker of the process whose owners start with `prefix/`. */
  predicate Ours(job: Job, prefix: string) {
    job.owner.Some? && prefix + "/" <= job.owner.value
  }

  predicate Orphaned(job: Job, prefix: string) {
    job.state in IN_FLIGHT_STATES && !Ours(job, prefix)
  }

  function RecoveryReason(target: JobState): string {
    if target == Cancelled then "recovered_cancelling" else if target == Queued then "recovered" else "worker_lost"
  }

  function RecoveryValues(target: JobState): Values {
    if target == Failed then NO_VALUES.(errorCode := Some("WORKER_LOST"))
    else if target == Cancelled then NO_VALUES.(errorCode := Some("GENERATION_CANCELLED"))
    else NO_VALUES
  }

  /** Where startup recovery moves a row, if no worker of this process holds it. */
  function ReleaseTarget(job: Job, prefix: string): Option<JobState> {
    if Orphaned(job, prefix) then RecoveryTarget(job.state, job.idempotent) else None
  }

  function Released(e: Entry, prefix: string, now: Instant): Entry {
    var target := ReleaseTarget(e.job, prefix);
    if target.None? then e
    else Advanced(e, target.value, now, Some(RecoveryReason(target.value)), RecoveryValues(target.value))
  }

  function Aged(e: Entry, now: Instant, rate: real, overflow: nat): Entry {
    if e.job.state in WAITING_STATES then
      e.(job := e.job.(effectivePriority :=
        SweepPriority(e.job.basePriority, e.job.jobClass, e.job.queuedAt, now, rate, overflow)))
    else
      e
  }

  predicate WaitedTooLong(job: Job, now: Instant) {
    job.state in WAITING_STATES && now - job.queuedAt > job.maxWaitSeconds as real
  }

  function Expired(e: Entry, now: Instant): Entry {
    if WaitedTooLong(e.job, now) then
      Advanced(e, Failed, now, Some("MAX_WAIT_EXCEEDED"), NO_VALUES.(errorCode := Some("MAX_WAIT_EXCEEDED")))
    else
      e
  }

  predicate Holds(job: Job, owner: string) {
    job.owner == Some(owner) && job.state in IN_FLIGHT_STATES
  }

  function Renewed(e: Entry, owner: string, expires: Instant): Entry {
    if Holds(e.job, owner) then e.(job := e.job.(expires := Some(expires))) else e
  }

  function CancelValues(target: JobState): Values {
    Values(true, if target == Cancelled then Some("GENERATION_CANCELLED") else None, None)
  }

  function CancelReason(target: JobState): string {
    if target == Cancelling then "cancel_requested" else "GENERATION_CANCELLED"
  }

  function CancelRequested(e: Entry, now: Instant): Entry {
    var target := CancelTarget(e.job.state);
    if target.None? then e
    else Advanced(e, target.value, now, Some(CancelReason(target.value)), CancelValues(target.value))
  }

  function Leases(e: Entry, owner: string, now: Instant, leaseSeconds: real): Entry {
    e.(job := e.job.(state := Leased, reason := None, owner := Some(owner), expires := Some(now + leaseSeconds)),
       events := e.events + [JobEvent(Leased, now)])
  }

  // ------------------------------------------------------------------ the sweeps over the table

  function Reap(t: Table, now: Instant): Table {
    map id | id in t :: Reaped(t[id], now)
  }

  function Release(t: Table, prefix: string, now: Instant): Table {
    map id | id in t :: Released(t[id], prefix, now)
  }

  function Age(t: Table, now: Instant, rate: real, overflow: nat): Table {
    map id | id in t :: Aged(t[id], now, rate, overflow)
  }

  function Recover(t: Table, prefix: string, now: Instant, rate: real, overflow: nat): Table {
    Age(Release(t, prefix, now), now, rate, overflow)
  }

  function Expire(t: Table, now: Instant): Table {
    map id | id in t :: Expired(t[id], now)
  }

  function Renew(t: Table, owner: string, ids: set<JobId>, expires: Instant): Table {
    map id | id in t :: if id in ids then Renewed(t[id], owner, expires) else t[id]
  }

  /** Where a sweep sends each row it looked at. */
  type Targets = map<JobId, Option<JobState>>

  function ReapTargets(t: Table, now: Instant): Targets {
    map id | id in t :: ReapTarget(t[id].job, now)
  }

  function ReleaseTargets(t: Table, prefix: string): Targets {
    map id | id in t :: ReleaseTarget(t[id].job, prefix)
  }

  /** The rows a sweep sends to one of `states`. */
  function SentTo(targets: Targets, states: set<JobState>): set<JobId> {
    set id | id in targets && targets[id].Some? && targets[id].value in states
  }

  /** Adds `id` to the list of rows sent to `states` when that is where it went. */
  method Tally(ghost targets: Targets, ghost pending: set<JobId>, list: set<JobId>, id: JobId,
               target: Option<JobState>, states: set<JobState>)
    returns (longer: set<JobId>)
    requires id in pending && id in targets && target == targets[id]
    requires list == SentTo(targets - pending, states)
    ensures longer == SentTo(targets - (pending - {id}), states)
  {
    longer := if target.Some? && target.value in states then list + {id} else list;
  }

  // ------------------------------------------------------------------ the claim order

  /** Residency as the affinity claim sees it. */
  datatype AffinityHint = AffinityHint(residentModels: set<string>, streak: nat, maxStreak: nat)

  predicate Eligible(job: Job, now: Instant) {
    job.state == Queued && job.scheduledFor <= now
  }

  function Candidates(t: Table, now: Instant): set<JobId> {
    set id | id in t && Eligible(t[id].job, now)
  }

  /** `effective_priority DESC, created_at ASC`: `a` may be taken before `b`. */
  predicate MayPrecede(a: Job, b: Job) {
    a.effectivePriority > b.effectivePriority
    || (a.effectivePriority == b.effectivePriority && a.createdAt <= b.createdAt)
  }

  predicate IsFirst(t: Table, ids: set<JobId>, id: JobId)
    requires ids <= t.Keys
  {
    id in ids && forall other | other in ids :: MayPrecede(t[id].job, t[other].job)
  }

  predicate HasTopPriority(t: Table, ids: set<JobId>, id: JobId)
    requires ids <= t.Keys && id in ids
  {
    forall other | other in ids :: t[other].job.effectivePriority <= t[id].job.effectivePriority
  }

  /** The candidates an affinity claim prefers: top priority, and a resident model selected. */
  function AffinityTier(t: Table, now: Instant, affinity: Option<AffinityHint>): set<JobId> {
    if affinity.Some? && affinity.value.streak < affinity.value.maxStreak then
      var ids := Candidates(t, now);
      set id | id in ids && HasTopPriority(t, ids, id) && t[id].job.selectedModel.Some?
               && t[id].job.selectedModel.value in affinity.value.residentModels
    else
      {}
  }

  /** The jobs a claim may return; ties in the claim order are broken arbitrarily. */
  predicate ClaimOutcome(t: Table, now: Instant, affinity: Option<AffinityHint>, claimed: Option<JobId>) {
    var candidates := Candidates(t, now);
    var tier := AffinityTier(t, now, affinity);
    if claimed.None? then candidates == {}
    else IsFirst(t, if tier != {} then tier else candidates, claimed.value)
  }

  /** A finite set of jobs has a first one, so a claim comes away empty only from an empty queue. */
  lemma {:induction false} FirstExists(t: Table, ids: set<JobId>)
    requires ids <= t.Keys && ids != {}
    ensures exists id :: IsFirst(t, ids, id)
    decreases |ids|
  {
    var pick :| pick in ids;
    var rest := ids - {pick};
    if rest == {} {
      assert ids == {pick};
      assert IsFirst(t, ids, pick);
    } else {
      FirstExists(t, rest);
      var best :| IsFirst(t, rest, best);
      assert ids == rest + {pick};
      if MayPrecede(t[best].job, t[pick].job) {
        assert IsFirst(t, ids, best);
      } else {
        assert IsFirst(t, ids, pick);
      }
    }
  }

  // ------------------------------------------------------------------ enqueue and its key

  function Holders(t: Table, source: string, key: string): set<JobId> {
    set id | id in t && t[id].job.source == source && t[id].job.key == Some(key)
  }

  /** The unique index on `(source, idempotency_key)`. */
  ghost predicate KeysUnique(t: Table) {
    forall a, b | a in t && b in t && a != b && t[a].job.key.Some? ::
      t[a].job.source != t[b].job.source || t[a].job.key != t[b].job.key
  }

  predicate KeyExpired(job: Job, now: Instant) {
    job.keyExpires.Some? && job.keyExpires.value <= now
  }

  function KeyReleased(e: Entry): Entry {
    e.(job := e.job.(key := None, keyExpires := None))
  }

  /** What looking a key up leaves: an expired reservation of it is released. */
  function Looked(t: Table, source: string, key: string, now: Instant): Table {
    map id | id in t ::
      if t[id].job.source == source && t[id].job.key == Some(key) && KeyExpired(t[id].job, now)
      then KeyReleased(t[id]) else t[id]
  }

  /** The table a submission's depth check and insert see. */
  function BeforeInsert(t: Table, s: Submission, now: Instant): Table {
    if s.key.Some? then Looked(t, s.source, s.key.value, now) else t
  }

  function KeyHolders(t: Table, s: Submission): set<JobId> {
    if s.key.Some? then Holders(t, s.source, s.key.value) else {}
  }

  /** The row a submission inserts. */
  function NewEntry(s: Submission, priority: int, now: Instant, settings: QueueSettings): Entry {
    Entry(
      Job(Queued, None, None, None, 0, s.jobClass, priority, priority, now, now, now, None,
          if s.maxWaitSeconds.Some? && s.maxWaitSeconds.value != 0 then s.maxWaitSeconds.value
          else settings.maxWaitSeconds,
          s.idempotent, false, None, s.model, s.source, s.key,
          if s.key.Some? then Some(now + settings.idempotencyTtl) else None),
      [],
      [JobEvent(Queued, now)])
  }

  function ActiveJobs(t: Table): set<JobId> {
    set id | id in t && t[id].job.state in ACTIVE_STATES
  }

  function ActiveJobsOf(t: Table, source: string): set<JobId> {
    set id | id in t && t[id].job.state in ACTIVE_STATES && t[id].job.source == source
  }

  predicate DepthReached(t: Table, source: string, settings: QueueSettings) {
    |ActiveJobs(t)| >= settings.maxDepth
    || (settings.maxActivePerSource > 0 && |ActiveJobsOf(t, source)| >= settings.maxActivePerSource)
  }

  /** What a submission that nothing interleaves with comes to, and the table it leaves: a bad priority, the
      holder of the key, a full queue, or one new row. */
  ghost predicate EnqueueOutcome(
    before: Table, newId: JobId, s: Submission, now: Instant, settings: QueueSettings,
    outcome: Result<(JobId, bool), QueueError>, after: Table)
  {
    var priority := BasePriority(s.jobClass, s.priority);
    var t := BeforeInsert(before, s, now);
    if priority.Err? then
      outcome == Err(InvalidPriority) && after == before
    else if KeyHolders(t, s) != {} then
      outcome.Ok? && KeyHolders(t, s) == {outcome.value.0} && !outcome.value.1 && after == t
    else if DepthReached(t, s.source, settings) then
      outcome == Err(QueueFull) && after == t
    else
      outcome == Ok((newId, true)) && after == t[newId := NewEntry(s, priority.value, now, settings)]
  }

  // ------------------------------------------------------------------ the store

  /** The queue's tables and the transactions over them. A method that reports an error has rolled
      its transaction back: `rows` is what it was. */
  class JobStore {
    var rows: Table

    constructor ()
      ensures rows == map[]
    {
      rows := map[];
    }

    /** `transition` and the event it is always followed by, inside the caller's transaction. */
    method TransitionRow(id: JobId, current: JobState, target: JobState, now: Instant, owner: Option<string>,
                         reason: Option<string>, values: Values)
      returns (error: Option<QueueError>)
      modifies this
      ensures error == TransitionError(if id in old(rows) then Some(old(rows)[id].job) else None,
                                       current, target, owner)
      ensures error.Some? ==> rows == old(rows)
      ensures error.None? ==>
        id in old(rows) && rows == old(rows)[id := Advanced(old(rows)[id], target, now, reason, values)]
      ensures error.None? <==>
        && IsLegal(current, target) && id in old(rows) && old(rows)[id].job.state == current
        && (owner.Some? ==> old(rows)[id].job.owner == owner)
      ensures error == Some(IllegalTransition) <==> !IsLegal(current, target)
    {
      if !IsLegal(current, target) {
        return Some(IllegalTransition);
      }
      if id !in rows || rows[id].job.state != current || !Fenced(rows[id].job, owner) {
        return Some(TransitionRefused);
      }
      rows := rows[id := Advanced(rows[id], target, now, reason, values)];
      return None;
    }

    /** The increment happens first; a number that disagrees rolls it back with the transaction. */
    method WriteAttemptRow(id: JobId, record: AttemptRecord, owner: Option<string>)
      returns (error: Option<QueueError>)
      modifies this
      ensures error.None? <==>
        id in old(rows) && Fenced(old(rows)[id].job, owner) && record.attempt == old(rows)[id].job.attempt + 1
      ensures error.Some? ==> error.value == AttemptRefused
      ensures error.None? ==> rows == old(rows)[id := old(rows)[id].(
                job := old(rows)[id].job.(attempt := old(rows)[id].job.attempt + 1),
                attempts := old(rows)[id].attempts + [record])]
    {
      if id !in rows || !Fenced(rows[id].job, owner) {
        return Some(AttemptRefused);
      }
      var number := rows[id].job.attempt + 1;
      rows := rows[id := rows[id].(job := rows[id].job.(attempt := number))];
      if number != record.attempt {
        return Some(AttemptRefused);
      }
      rows := rows[id := rows[id].(attempts := rows[id].attempts + [record])];
      return None;
    }

    /** One operation inside a transaction; an error leaves the rows to the caller's rollback. */
    method Perform(id: JobId, op: Op, owner: Option<string>, now: Instant) returns (error: Option<QueueError>)
      modifies this
      ensures id !in old(rows) ==> error.Some?
      ensures id in old(rows) ==>
        match OpOutcome(old(rows)[id], op, owner, now)
        case Ok(e) => error.None? && rows == old(rows)[id := e]
        case Err(refusal) => error == Some(refusal)
    {
      match op {
        case Transition(current, target, reason, values) =>
          error := TransitionRow(id, current, target, now, owner, reason, values);
        case WriteAttempt(record) =>
          error := WriteAttemptRow(id, record, owner);
      }
    }

    /** A worker's write scope: every operation, or nothing at all. */
    method Transact(id: JobId, ops: seq<Op>, owner: Option<string>, now: Instant) returns (error: Option<QueueError>)
      modifies this
      ensures id in old(rows) ==>
        match TransactionOutcome(old(rows)[id], ops, owner, now)
        case Ok(e) => error.None? && rows == old(rows)[id := e]
        case Err(refusal) => error == Some(refusal) && rows == old(rows)
      ensures id !in old(rows) && ops != [] ==> error.Some?
      ensures error.Some? ==> rows == old(rows)
    {
      var before := rows;
      var i := 0;
      while i < |ops|
        invariant Underway(before, rows, id, ops, owner, now, i)
        decreases |ops| - i
      {
        UnderwayStep(before, rows, id, ops, owner, now, i);
        error := Perform(id, ops[i], owner, now);
        if error.Some? {
          rows := before;
          return;
        }
        i := i + 1;
      }
      error := None;
    }

    /** `move`: one transition as one committed unit of work. */
    method Move(id: JobId, current: JobState, target: JobState, now: Instant, owner: Option<string>,
                reason: Option<string>, values: Values)
      returns (error: Option<QueueError>)
      modifies this
      ensures error == TransitionError(if id in old(rows) then Some(old(rows)[id].job) else None,
                                       current, target, owner)
      ensures rows == if error.Some? then old(rows)
                      else old(rows)[id := Advanced(old(rows)[id], target, now, reason, values)]
    {
      error := TransitionRow(id, current, target, now, owner, reason, values);
    }

    /** The claim statement over one set of candidates. */
    method ClaimMatching(ids: set<JobId>, owner: string, now: Instant,
                         leaseSeconds: real) returns (claimed: Option<JobId>)
      requires ids <= rows.Keys
      modifies this
      ensures claimed.None? <==> ids == {}
      ensures claimed.None? ==> rows == old(rows)
      ensures claimed.Some? ==> IsFirst(old(rows), ids, claimed.value)
      ensures claimed.Some? ==>
        rows == old(rows)[claimed.value := Leases(old(rows)[claimed.value], owner, now, leaseSeconds)]
    {
      if ids == {} {
        return None;
      }
      FirstExists(rows, ids);
      var id :| id in ids && IsFirst(rows, ids, id);
      rows := rows[id := Leases(rows[id], owner, now, leaseSeconds)];
      return Some(id);
    }

    method Claim(owner: string, now: Instant, leaseSeconds: real, affinity: Option<AffinityHint>)
      returns (claimed: Option<JobId>, byAffinity: bool)
      modifies this
      ensures ClaimOutcome(old(rows), now, affinity, claimed)
      ensures byAffinity <==> AffinityTier(old(rows), now, affinity) != {}
      ensures claimed.None? ==> rows == old(rows)
      ensures claimed.Some? ==>
        rows == old(rows)[claimed.value := Leases(old(rows)[claimed.value], owner, now, leaseSeconds)]
    {
      claimed := ClaimMatching(AffinityTier(rows, now, affinity), owner, now, leaseSeconds);
      byAffinity := claimed.Some?;
      if claimed.None? {
        claimed := ClaimMatching(Candidates(rows, now), owner, now, leaseSeconds);
      }
    }

    method CancelJob(id: JobId, now: Instant) returns (outcome: Result<(JobState, bool), QueueError>)
      modifies this
      ensures id !in old(rows) ==> outcome == Err(JobNotFound) && rows == old(rows)
      ensures id in old(rows) && old(rows)[id].job.state in TERMINAL_STATES ==>
        outcome == Err(JobNotCancellable) && rows == old(rows)
      ensures id in old(rows) && old(rows)[id].job.state !in TERMINAL_STATES ==>
        && rows == old(rows)[id := CancelRequested(old(rows)[id], now)]
        && outcome == Ok((rows[id].job.state, old(rows)[id].job.state == Cancelling))
        && rows[id].job.state in {Cancelling, Cancelled}
    {
      if id !in rows {
        return Err(JobNotFound);
      }
      var current := rows[id].job.state;
      if current in TERMINAL_STATES {
        return Err(JobNotCancellable);
      }
      var target := CancelTarget(current);
      if target.None? {
        return Ok((current, true));
      }
      var error := TransitionRow(id, current, target.value, now, None, Some(CancelReason(target.value)),
                                 CancelValues(target.value));
      assert error.None?;
      return Ok((target.value, false));
    }

    /** Extends every lease the owner still holds and returns the ids it does not hold. */
    method RenewLeases(owner: string, ids: set<JobId>, now: Instant, leaseSeconds: real) returns (lost: set<JobId>)
      modifies this
      ensures rows == Renew(old(rows), owner, ids, now + leaseSeconds)
      ensures lost == set id | id in ids && !(id in old(rows) && Holds(old(rows)[id].job, owner))
    {
      var renewed := set id | id in ids && id in rows && Holds(rows[id].job, owner);
      rows := map id | id in rows ::
        if id in renewed then rows[id].(job := rows[id].job.(expires := Some(now + leaseSeconds))) else rows[id];
      lost := ids - renewed;
    }

    method ReapRow(id: JobId, now: Instant) returns (target: Option<JobState>)
      requires id in rows && LeaseExpired(rows[id].job, now)
      modifies this
      ensures target == ReapTarget(old(rows)[id].job, now)
      ensures rows == old(rows)[id := Reaped(old(rows)[id], now)]
    {
      target := RecoveryTarget(rows[id].job.state, rows[id].job.idempotent);
      if target.Some? {
        var error := TransitionRow(id, rows[id].job.state, target.value, now, None, Some(ReapReason(target.value)),
                                   ReapValues(target.value));
        assert error.None?;
      }
    }

    /** Every row whose lease has expired moves, one transition at a time; no transition is refused.
        `failed` also lists the jobs whose cancellation completed. */
    method ReapExpiredLeases(now: Instant) returns (requeued: set<JobId>, failed: set<JobId>)
      modifies this
      ensures rows == Reap(old(rows), now)
      ensures requeued == SentTo(ReapTargets(old(rows), now), {Queued})
      ensures failed == SentTo(ReapTargets(old(rows), now), {Failed, Cancelled})
      ensures forall id :: id in requeued <==>
        && id in old(rows) && old(rows)[id].job.expires.Some? && old(rows)[id].job.expires.value < now
        && old(rows)[id].job.state in LEASE_HOLDING_STATES && old(rows)[id].job.idempotent
      ensures forall id :: id in failed <==>
        && id in old(rows) && old(rows)[id].job.expires.Some? && old(rows)[id].job.expires.value < now
        && (old(rows)[id].job.state == Cancelling
            || (old(rows)[id].job.state in LEASE_HOLDING_STATES && !old(rows)[id].job.idempotent))
    {
      requeued, failed := {}, {};
      ghost var before := rows;
      ghost var targets := ReapTargets(rows, now);
      ghost var goal := Reap(rows, now);
      var pending := set id | id in rows && LeaseExpired(rows[id].job, now);
      MidwayStart(before, goal, pending);
      ghost var expired := pending;
      while pending != {}
        invariant pending <= expired
        invariant rows == Midway(before, goal, pending)
        invariant requeued == SentTo(targets - pending, {Queued})
        invariant failed == SentTo(targets - pending, {Failed, Cancelled})
        decreases pending
      {
        var id :| id in pending;
        MidwayStep(before, goal, pending, id);
        var target := ReapRow(id, now);
        requeued := Tally(targets, pending, requeued, id, target, {Queued});
        failed := Tally(targets, pending, failed, id, target, {Failed, Cancelled});
        pending := pending - {id};
      }
      assert targets - pending == targets;
    }

    method AgeingSweep(now: Instant, rate: real, overflow: nat) returns (changed: nat)
      modifies this
      ensures rows == Age(old(rows), now, rate, overflow)
      ensures changed == |set id | id in old(rows) && rows[id] != old(rows)[id]|
    {
      ghost var before := rows;
      var stale := set id | id in rows && rows[id].job.state in WAITING_STATES
        && rows[id].job.effectivePriority
           != SweepPriority(rows[id].job.basePriority, rows[id].job.jobClass, rows[id].job.queuedAt,
                            now, rate, overflow);
      rows := map id | id in rows :: if id in stale then Aged(rows[id], now, rate, overflow) else rows[id];
      changed := |stale|;
      assert stale == set id | id in before && rows[id] != before[id];
    }

    method ExpireMaxWait(now: Instant) returns (expired: set<JobId>)
      modifies this
      ensures rows == Expire(old(rows), now)
      ensures expired == set id | id in old(rows) && WaitedTooLong(old(rows)[id].job, now)
    {
      expired := {};
      ghost var before := rows;
      ghost var goal := Expire(rows, now);
      var pending := set id | id in rows && WaitedTooLong(rows[id].job, now);
      ghost var overdue := pending;
      MidwayStart(before, goal, pending);
      while pending != {}
        invariant pending <= overdue && expired == overdue - pending
        invariant rows == Midway(before, goal, pending)
        decreases pending
      {
        var id :| id in pending;
        MidwayStep(before, goal, pending, id);
        pending := pending - {id};
        var error := TransitionRow(id, rows[id].job.state, Failed, now, None, Some("MAX_WAIT_EXCEEDED"),
          NO_VALUES.(errorCode := Some("MAX_WAIT_EXCEEDED")));
        assert error.None?;
        expired := expired + {id};
      }
    }

    method ReleaseRow(id: JobId, prefix: string, now: Instant) returns (target: Option<JobState>)
      requires id in rows && rows[id].job.state in IN_FLIGHT_STATES
      modifies this
      ensures target == ReleaseTarget(old(rows)[id].job, prefix)
      ensures rows == old(rows)[id := Released(old(rows)[id], prefix, now)]
    {
      if Ours(rows[id].job, prefix) {
        return None;
      }
      target := RecoveryTarget(rows[id].job.state, rows[id].job.idempotent);
      var error := TransitionRow(id, rows[id].job.state, target.value, now, None,
                                 Some(RecoveryReason(target.value)), RecoveryValues(target.value));
      assert error.None?;
    }

    /** The first half of startup recovery: every lease of another process is released. */
    method ReleaseForeignLeases(now: Instant, prefix: string)
      returns (requeued: set<JobId>, failed: set<JobId>, cancelled: set<JobId>)
      modifies this
      ensures rows == Release(old(rows), prefix, now)
      ensures requeued == SentTo(ReleaseTargets(old(rows), prefix), {Queued})
      ensures failed == SentTo(ReleaseTargets(old(rows), prefix), {Failed})
      ensures cancelled == SentTo(ReleaseTargets(old(rows), prefix), {Cancelled})
    {
      requeued, failed, cancelled := {}, {}, {};
      ghost var before := rows;
      ghost var targets := ReleaseTargets(rows, prefix);
      ghost var goal := Release(rows, prefix, now);
      var pending := set id | id in rows && rows[id].job.state in IN_FLIGHT_STATES;
      MidwayStart(before, goal, pending);
      ghost var inFlight := pending;
      while pending != {}
        invariant pending <= inFlight
        invariant rows == Midway(before, goal, pending)
        invariant requeued == SentTo(targets - pending, {Queued})
        invariant failed == SentTo(targets - pending, {Failed})
        invariant cancelled == SentTo(targets - pending, {Cancelled})
        decreases pending
      {
        var id :| id in pending;
        MidwayStep(before, goal, pending, id);
        var target := ReleaseRow(id, prefix, now);
        requeued := Tally(targets, pending, requeued, id, target, {Queued});
        failed := Tally(targets, pending, failed, id, target, {Failed});
        cancelled := Tally(targets, pending, cancelled, id, target, {Cancelled});
        pending := pending - {id};
      }
      assert targets - pending == targets;
    }

    /** Startup recovery with no re-evaluation callback and nothing in between: release foreign leases,
        then sweep. */
    method RecoverJobs(now: Instant, prefix: string, rate: real, overflow: nat)
      returns (requeued: set<JobId>, failed: set<JobId>, cancelled: set<JobId>, aged: nat)
      modifies this
      ensures rows == Recover(old(rows), prefix, now, rate, overflow)
      ensures requeued == SentTo(ReleaseTargets(old(rows), prefix), {Queued})
      ensures failed == SentTo(ReleaseTargets(old(rows), prefix), {Failed})
      ensures cancelled == SentTo(ReleaseTargets(old(rows), prefix), {Cancelled})
      ensures aged == |set id | id in old(rows) && rows[id] != Release(old(rows), prefix, now)[id]|
    {
      requeued, failed, cancelled := ReleaseForeignLeases(now, prefix);
      assert rows.Keys == old(rows).Keys;
      ghost var released := rows;
      aged := AgeingSweep(now, rate, overflow);
      assert (set id | id in released && rows[id] != released[id])
          == (set id | id in old(rows) && rows[id] != Release(old(rows), prefix, now)[id]);
    }

    /** The unexpired job holding the key, releasing an expired one. */
    method ExistingJobForKey(source: string, key: string, now: Instant) returns (found: Option<JobId>)
      requires KeysUnique(rows)
      modifies this
      ensures KeysUnique(rows)
      ensures rows == Looked(old(rows), source, key, now)
      ensures Holders(rows, source, key) == if found.Some? then {found.value} else {}
      ensures found.Some? ==> !KeyExpired(rows[found.value].job, now)
    {
      var holders := Holders(rows, source, key);
      ghost var before := rows;
      if holders == {} {
        NothingToRelease(rows, source, key, now);
        return None;
      }
      var id :| id in holders;
      OneHolder(rows, source, key, id);
      if KeyExpired(rows[id].job, now) {
        rows := rows[id := KeyReleased(rows[id])];
        ReleasedByLookup(before, source, key, now, id);
        return None;
      }
      NothingToRelease(rows, source, key, now);
      return Some(id);
    }

    /** The insert, guarded by the unique index. */
    method Insert(id: JobId, s: Submission, priority: int, now: Instant,
                  settings: QueueSettings) returns (error: Option<QueueError>)
      requires KeysUnique(rows) && id !in rows
      modifies this
      ensures error.Some? <==> s.key.Some? && Holders(old(rows), s.source, s.key.value) != {}
      ensures error.Some? ==> error.value == KeyTaken && rows == old(rows)
      ensures error.None? ==> rows == old(rows)[id := NewEntry(s, priority, now, settings)]
      ensures KeysUnique(rows)
    {
      if s.key.Some? && Holders(rows, s.source, s.key.value) != {} {
        return Some(KeyTaken);
      }
      rows := rows[id := NewEntry(s, priority, now, settings)];
      assert s.key.Some? ==> forall other | other in old(rows) :: other !in Holders(old(rows), s.source, s.key.value);
      return None;
    }

    /** `enqueue`, run without interleaving: `newId` is the identifier the new row would take. The
        holder of the key, if there is one, answers before the depth is looked at. */
    method Enqueue(newId: JobId, s: Submission, now: Instant, settings: QueueSettings)
      returns (outcome: Result<(JobId, bool), QueueError>)
      requires KeysUnique(rows) && newId !in rows
      modifies this
      ensures KeysUnique(rows)
      ensures EnqueueOutcome(old(rows), newId, s, now, settings, outcome, rows)
    {
      var priority := BasePriority(s.jobClass, s.priority);
      if priority.Err? {
        return Err(InvalidPriority);
      }
      if s.key.Some? {
        var existing := ExistingJobForKey(s.source, s.key.value, now);
        if existing.Some? {
          return Ok((existing.value, false));
        }
      }
      if DepthReached(rows, s.source, settings) {
        return Err(QueueFull);
      }
      var error := Insert(newId, s, priority.value, now, settings);
      assert error.None?;
      return Ok((newId, true));
    }
  }

  lemma OneHolder(t: Table, source: string, key: string, id: JobId)
    requires KeysUnique(t)
    requires id in Holders(t, source, key)
    ensures Holders(t, source, key) == {id}
  {
  }

  lemma NothingToRelease(t: Table, source: string, key: string, now: Instant)
    requires forall id | id in Holders(t, source, key) :: !KeyExpired(t[id].job, now)
    ensures Looked(t, source, key, now) == t
  {
    assert forall id | id in t && t[id].job.source == source && t[id].job.key == Some(key) ::
      id in Holders(t, source, key);
  }

  lemma ReleasedByLookup(t: Table, source: string, key: string, now: Instant, id: JobId)
    requires Holders(t, source, key) == {id} && KeyExpired(t[id].job, now)
    ensures id in t && Looked(t, source, key, now) == t[id := KeyReleased(t[id])]
    ensures Holders(t[id := KeyReleased(t[id])], source, key) == {}
  {
    assert id in Holders(t, source, key);
    assert forall other | other in t && t[other].job.source == source && t[other].job.key == Some(key) ::
      other in Holders(t, source, key);
  }
}
