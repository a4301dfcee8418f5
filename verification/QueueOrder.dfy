/** The order of claims over runs: how far a later job can overtake an earlier one. */
module QueueOrder {
  import opened Wrappers
  import opened QueueState
  import opened Priority
  import opened Queue
  import opened QueueRuns

  /** A claim, with or without affinity, takes a job of maximal stored priority. */
  lemma ClaimTakesTopPriority(t: Table, now: Instant, affinity: Option<AffinityHint>, claimed: JobId)
    requires ClaimOutcome(t, now, affinity, Some(claimed))
    ensures claimed in Candidates(t, now)
    ensures HasTopPriority(t, Candidates(t, now), claimed)
  {
    var candidates := Candidates(t, now);
    forall other | other in candidates
      ensures t[other].job.effectivePriority <= t[claimed].job.effectivePriority
    {
      assert AffinityTier(t, now, affinity) == {} ==> MayPrecede(t[claimed].job, t[other].job);
    }
  }

  predicate Waits(t: Table, id: JobId) {
    id in t && t[id].job.state in WAITING_STATES
  }

  function AgedPriority(job: Job, now: Instant, settings: QueueSettings): int {
    SweepPriority(job.basePriority, job.jobClass, job.queuedAt, now, settings.rate, settings.overflow)
  }

  /** What never changes about a row once it is inserted. */
  predicate SameOrigin(a: Job, b: Job) {
    && a.jobClass == b.jobClass && a.basePriority == b.basePriority && a.source == b.source
    && a.queuedAt == b.queuedAt && a.createdAt == b.createdAt
    && a.idempotent == b.idempotent && a.maxWaitSeconds == b.maxWaitSeconds
  }

  lemma {:induction false} TransactionKeepsPriority(e: Entry, ops: seq<Op>, owner: Option<string>, now: Instant)
    requires TransactionOutcome(e, ops, owner, now).Ok?
    ensures SameOrigin(e.job, TransactionOutcome(e, ops, owner, now).value.job)
    ensures TransactionOutcome(e, ops, owner, now).value.job.effectivePriority == e.job.effectivePriority
    decreases |ops|
  {
    if ops != [] {
      TransactionKeepsPriority(OpOutcome(e, ops[0], owner, now).value, ops[1..], owner, now);
    }
  }

  /** Only a sweep that finds the row waiting writes its priority. */
  lemma PriorityStep(b: Behavior, i: nat, id: JobId)
    requires IsRun(b) && i < |b.steps| && id in b.states[i]
    ensures id in b.states[i + 1]
    ensures SameOrigin(b.states[i][id].job, b.states[i + 1][id].job)
    ensures b.states[i + 1][id].job.effectivePriority ==
      if b.steps[i].AgeStep? && Waits(b.states[i], id)
      then AgedPriority(b.states[i][id].job, b.steps[i].now, b.settings)
      else b.states[i][id].job.effectivePriority
  {
    assert Linked(b, i);
    var t, step := b.states[i], b.steps[i];
    if step.WorkStep? && step.id == id && Commits(t, id, step.ops, step.owner, step.now) {
      TransactionKeepsPriority(t[id], step.ops, step.owner, step.now);
    }
  }

  lemma {:induction false} OriginsStay(b: Behavior, i: nat, j: nat, id: JobId)
    requires IsRun(b) && i <= j <= |b.steps| && id in b.states[i]
    ensures id in b.states[j] && SameOrigin(b.states[i][id].job, b.states[j][id].job)
    decreases j - i
  {
    if i < j {
      OriginsStay(b, i, j - 1, id);
      PriorityStep(b, j - 1, id);
    }
  }

  /** Every sweep in `[i, j)` that ages `later` also ages `earlier`, and their clock never steps back
      below `start`. */
  ghost predicate SweptTogether(b: Behavior, i: nat, j: nat, earlier: JobId, later: JobId)
    requires |b.states| == |b.steps| + 1 && i <= j <= |b.steps|
  {
    && (forall k | i <= k < j && b.steps[k].AgeStep? :: Waits(b.states[k], later) ==> Waits(b.states[k], earlier))
    && (forall k, l | i <= k < l < j && b.steps[k].AgeStep? && b.steps[l].AgeStep? :: b.steps[k].now <= b.steps[l].now)
  }

  /** Of two jobs of a class, queued by `now`, the earlier one's extra waiting in minutes times the rate
      is worth at least the later one's head start. */
  predicate WorthTheHeadStart(earlier: Job, later: Job, now: Instant, rate: real) {
    && earlier.jobClass == later.jobClass
    && earlier.queuedAt < later.queuedAt <= now
    && (later.queuedAt - earlier.queuedAt) / 60.0 * rate >= (later.basePriority - earlier.basePriority) as real
  }

  lemma WorthStays(a: Job, c: Job, a2: Job, c2: Job, clock: Instant, next: Instant, rate: real)
    requires WorthTheHeadStart(a, c, clock, rate) && SameOrigin(a, a2) && SameOrigin(c, c2) && clock <= next
    ensures WorthTheHeadStart(a2, c2, next, rate)
  {
  }

  /** A sweep that ages both ranks the earlier one no lower. */
  lemma AgedTogether(a: Job, c: Job, now: Instant, s: QueueSettings)
    requires s.rate >= 0.0 && WorthTheHeadStart(a, c, now, s.rate)
    ensures AgedPriority(a, now, s) >= AgedPriority(c, now, s)
  {
    SweepOrdersByWaiting(a.basePriority, c.basePriority, a.jobClass, a.queuedAt, c.queuedAt, now, s.rate, s.overflow);
  }

  lemma AgedLater(a: Job, a2: Job, clock: Instant, next: Instant, s: QueueSettings)
    requires s.rate >= 0.0 && SameOrigin(a, a2) && clock <= next
    ensures AgedPriority(a, clock, s) <= AgedPriority(a, next, s) == AgedPriority(a2, next, s)
  {
    SweepIsMonotone(a.basePriority, a.jobClass, a.queuedAt, clock, next, s.rate, s.overflow);
  }

  /** What a sweep of both jobs at `clock` establishes and the later sweeps keep. */
  predicate JobsRanked(earlier: Job, later: Job, settings: QueueSettings, clock: Instant) {
    && WorthTheHeadStart(earlier, later, clock, settings.rate)
    && earlier.effectivePriority >= later.effectivePriority
    && earlier.effectivePriority <= AgedPriority(earlier, clock, settings)
  }

  ghost predicate Ranked(t: Table, settings: QueueSettings, earlier: JobId, later: JobId, clock: Instant) {
    earlier in t && later in t && JobsRanked(t[earlier].job, t[later].job, settings, clock)
  }

  /** A row after a sweep at `now` that aged it or passed it over. */
  predicate AgedOrKept(before: Job, after: Job, aged: bool, now: Instant, settings: QueueSettings) {
    && SameOrigin(before, after)
    && after.effectivePriority == if aged then AgedPriority(before, now, settings) else before.effectivePriority
  }

  /** A sweep that ages the earlier job keeps the two ranked, and so does one that ages neither. */
  lemma AgeingKeepsRanked(a: Job, c: Job, a2: Job, c2: Job, agedA: bool, agedC: bool, clock: Instant, next: Instant,
                          s: QueueSettings)
    requires s.rate >= 0.0 && clock <= next && JobsRanked(a, c, s, clock)
    requires AgedOrKept(a, a2, agedA, next, s) && AgedOrKept(c, c2, agedC, next, s) && (agedC ==> agedA)
    ensures JobsRanked(a2, c2, s, next)
  {
    WorthStays(a, c, a2, c2, clock, next, s.rate);
    WorthStays(a, c, a, c, clock, next, s.rate);
    AgedTogether(a, c, next, s);
    AgedLater(a, a2, clock, next, s);
  }

  /** Any step that does not age the later job alone keeps the two ranked. */
  lemma RankedStep(b: Behavior, i: nat, earlier: JobId, later: JobId, clock: Instant, next: Instant)
    requires IsRun(b) && b.settings.rate >= 0.0 && i < |b.steps| && clock <= next
    requires Ranked(b.states[i], b.settings, earlier, later, clock)
    requires b.steps[i].AgeStep? ==> b.steps[i].now == next
    requires b.steps[i].AgeStep? && Waits(b.states[i], later) ==> Waits(b.states[i], earlier)
    ensures Ranked(b.states[i + 1], b.settings, earlier, later, next)
  {
    PriorityStep(b, i, earlier);
    PriorityStep(b, i, later);
    AgeingKeepsRanked(b.states[i][earlier].job, b.states[i][later].job,
                      b.states[i + 1][earlier].job, b.states[i + 1][later].job,
                      b.steps[i].AgeStep? && Waits(b.states[i], earlier),
                      b.steps[i].AgeStep? && Waits(b.states[i], later), clock, next, b.settings);
  }

  /** The first sweep that finds both jobs waiting ranks them. */
  lemma FirstSweepRanks(b: Behavior, i: nat, earlier: JobId, later: JobId)
    requires IsRun(b) && b.settings.rate >= 0.0 && i < |b.steps| && b.steps[i].AgeStep?
    requires Waits(b.states[i], earlier) && Waits(b.states[i], later)
    requires WorthTheHeadStart(b.states[i][earlier].job, b.states[i][later].job, b.steps[i].now, b.settings.rate)
    ensures Ranked(b.states[i + 1], b.settings, earlier, later, b.steps[i].now)
  {
    var a, c, now := b.states[i][earlier].job, b.states[i][later].job, b.steps[i].now;
    PriorityStep(b, i, earlier);
    PriorityStep(b, i, later);
    var a2, c2 := b.states[i + 1][earlier].job, b.states[i + 1][later].job;
    WorthStays(a, c, a2, c2, now, now, b.settings.rate);
    AgedTogether(a, c, now, b.settings);
    AgedLater(a, a2, now, now, b.settings);
  }

  lemma {:induction false} StaysRanked(b: Behavior, i: nat, j: nat, earlier: JobId,
                                       later: JobId) returns (clock: Instant)
    requires IsRun(b) && b.settings.rate >= 0.0 && i < j <= |b.steps| && b.steps[i].AgeStep?
    requires Ranked(b.states[i + 1], b.settings, earlier, later, b.steps[i].now)
    requires SweptTogether(b, i, j, earlier, later)
    ensures Ranked(b.states[j], b.settings, earlier, later, clock)
    ensures exists k :: i <= k < j && b.steps[k].AgeStep? && b.steps[k].now == clock
    decreases j - i
  {
    if j == i + 1 {
      clock := b.steps[i].now;
    } else {
      clock := StaysRanked(b, i, j - 1, earlier, later);
      var next := if b.steps[j - 1].AgeStep? then b.steps[j - 1].now else clock;
      RankedStep(b, j - 1, earlier, later, clock, next);
      clock := next;
    }
  }

  /** The setting of the overtaking bound: the sweep at `i` found both jobs waiting, the earlier one's extra
      waiting worth the head start, and the claim at `j` ignores affinity and could take the earlier one. */
  ghost predicate Contest(b: Behavior, i: nat, j: nat, earlier: JobId, later: JobId) {
    && IsRun(b) && b.settings.rate >= 0.0 && i < j < |b.steps| && b.steps[i].AgeStep?
    && Waits(b.states[i], earlier) && Waits(b.states[i], later)
    && WorthTheHeadStart(b.states[i][earlier].job, b.states[i][later].job, b.steps[i].now, b.settings.rate)
    && b.steps[j].ClaimStep? && b.steps[j].affinity == None
    && earlier in Candidates(b.states[j], b.steps[j].now)
  }

  /** The overtaking bound: while every sweep that ages the later job also ages the earlier one, the claim
      never takes the later job. */
  lemma NeverOvertaken(b: Behavior, i: nat, j: nat, earlier: JobId, later: JobId)
    requires Contest(b, i, j, earlier, later)
    requires SweptTogether(b, i, j, earlier, later)
    ensures b.steps[j].claimed != Some(later)
  {
    FirstSweepRanks(b, i, earlier, later);
    var clock := StaysRanked(b, i, j, earlier, later);
    ReachableRowsAreWellFormed(b, j);
    assert RowWf(b.states[j], earlier, b.settings.overflow) && RowWf(b.states[j], later, b.settings.overflow);
    assert Linked(b, j);
    assert !MayPrecede(b.states[j][later].job, b.states[j][earlier].job);
  }
}
