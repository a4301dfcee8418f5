/** Why the overtaking bound needs its sweeps to age both jobs: a sweep that finds one of them leased
    lets the other pass it, at every positive ageing rate and at no other. */
module Overtaking {
  import opened Wrappers
  import opened QueueState
  import opened Priority
  import opened Queue
  import opened QueueRuns
  import opened QueueOrder

  /** Batch job "a" is queued at 0 with base 0 and "b" at `queued` with base `base`. A sweep at `swept`
      ages both, a worker takes "a", a sweep at `missed` ages "b" alone, "a" is reaped at `reaped`, and
      another worker claims at `again`. */
  datatype Schedule = Schedule(settings: QueueSettings, base: int, queued: Instant, swept: Instant, missed: Instant,
                               reaped: Instant, again: Instant)

  const EARLIER: JobId := "a"
  const LATER: JobId := "b"

  function BatchJob(base: int): Submission {
    Submission(Batch, Some(base), None, true, "caller", None, None)
  }

  /** What a sweep at `now` makes of a batch job. */
  function SweptTo(s: Schedule, base: int, queued: Instant, now: Instant): int {
    SweepPriority(base, Batch, queued, now, s.settings.rate, s.settings.overflow)
  }

  predicate Fits(s: Schedule) {
    && s.settings.Valid() && 0 <= s.base <= 99
    && 0.0 < s.queued <= s.swept <= s.missed <= s.reaped <= s.again && s.swept + s.settings.leaseSeconds < s.reaped
    && SweptTo(s, 0, 0.0, s.swept) >= SweptTo(s, s.base, s.queued, s.swept)
    && SweptTo(s, 0, 0.0, s.swept) < SweptTo(s, s.base, s.queued, s.missed)
  }

  // ------------------------------------------------------------------ the tables of the run

  function OneQueued(s: Schedule): Table {
    map[EARLIER := NewEntry(BatchJob(0), 0, 0.0, s.settings)]
  }

  function BothQueued(s: Schedule): Table {
    map[EARLIER := NewEntry(BatchJob(0), 0, 0.0, s.settings),
        LATER := NewEntry(BatchJob(s.base), s.base, s.queued, s.settings)]
  }

  function BothSwept(s: Schedule): Table {
    Age(BothQueued(s), s.swept, s.settings.rate, s.settings.overflow)
  }

  function Taken(s: Schedule): Table {
    var t := BothSwept(s);
    t[EARLIER := Leases(t[EARLIER], "worker/1", s.swept, s.settings.leaseSeconds)]
  }

  function OneSwept(s: Schedule): Table {
    Age(Taken(s), s.missed, s.settings.rate, s.settings.overflow)
  }

  function Returned(s: Schedule): Table {
    Reap(OneSwept(s), s.reaped)
  }

  function Overtook(s: Schedule): Table {
    var t := Returned(s);
    t[LATER := Leases(t[LATER], "worker/2", s.again, s.settings.leaseSeconds)]
  }

  function Run(s: Schedule): Behavior {
    Behavior(
      [map[], OneQueued(s), BothQueued(s), BothSwept(s), Taken(s), OneSwept(s), Returned(s), Overtook(s)],
      [InsertStep(EARLIER, BatchJob(0), 0.0), InsertStep(LATER, BatchJob(s.base), s.queued), AgeStep(s.swept),
       ClaimStep("worker/1", None, s.swept, Some(EARLIER)), AgeStep(s.missed), ReapStep(s.reaped),
       ClaimStep("worker/2", None, s.again, Some(LATER))],
      s.settings)
  }

  lemma FirstClaim(s: Schedule)
    requires Fits(s)
    ensures ClaimOutcome(BothSwept(s), s.swept, None, Some(EARLIER))
  {
    var t := BothSwept(s);
    assert Candidates(t, s.swept) == {EARLIER, LATER};
    assert MayPrecede(t[EARLIER].job, t[LATER].job) && MayPrecede(t[EARLIER].job, t[EARLIER].job);
  }

  /** After the reaping both jobs are candidates, and the later one ranks higher. */
  lemma SecondClaim(s: Schedule)
    requires Fits(s)
    ensures Candidates(Returned(s), s.again) == {EARLIER, LATER}
    ensures ClaimOutcome(Returned(s), s.again, None, Some(LATER))
  {
    ReturnedRows(s);
    var t := Returned(s);
    assert Candidates(t, s.again) == {EARLIER, LATER};
    assert MayPrecede(t[LATER].job, t[EARLIER].job) && MayPrecede(t[LATER].job, t[LATER].job);
  }

  lemma ReturnedEarlier(s: Schedule)
    requires Fits(s)
    ensures EARLIER in Returned(s)
    ensures var job := Returned(s)[EARLIER].job;
            Eligible(job, s.again) && job.effectivePriority == SweptTo(s, 0, 0.0, s.swept)
  {
    var e := OneSwept(s)[EARLIER];
    assert e == Taken(s)[EARLIER];
    assert ReapTarget(e.job, s.reaped) == Some(Queued);
  }

  lemma ReturnedLater(s: Schedule)
    requires Fits(s)
    ensures LATER in Returned(s)
    ensures var job := Returned(s)[LATER].job;
            Eligible(job, s.again) && job.effectivePriority == SweptTo(s, s.base, s.queued, s.missed)
  {
    assert ReapTarget(OneSwept(s)[LATER].job, s.reaped) == None;
  }

  lemma ReturnedRows(s: Schedule)
    requires Fits(s)
    ensures var t := Returned(s);
            && t.Keys == {EARLIER, LATER}
            && Eligible(t[EARLIER].job, s.again) && Eligible(t[LATER].job, s.again)
            && t[EARLIER].job.effectivePriority == SweptTo(s, 0, 0.0, s.swept)
            && t[LATER].job.effectivePriority == SweptTo(s, s.base, s.queued, s.missed)
  {
    ReturnedEarlier(s);
    ReturnedLater(s);
  }

  /** Wherever a behavior has this step between these tables, it is linked there. */
  ghost predicate Leads(t: Table, step: Step, next: Table, settings: QueueSettings) {
    forall b: Behavior, i: nat | PlacedAt(b, i, t, step, next, settings) :: Linked(b, i)
  }

  ghost predicate PlacedAt(b: Behavior, i: nat, t: Table, step: Step, next: Table, settings: QueueSettings) {
    && i < |b.steps| && |b.states| == |b.steps| + 1 && b.settings == settings
    && b.states[i] == t && b.steps[i] == step && b.states[i + 1] == next
  }

  lemma InsertsLead(s: Schedule)
    requires Fits(s)
    ensures Leads(map[], InsertStep(EARLIER, BatchJob(0), 0.0), OneQueued(s), s.settings)
    ensures Leads(OneQueued(s), InsertStep(LATER, BatchJob(s.base), s.queued), BothQueued(s), s.settings)
  {
    assert OneQueued(s)[LATER := NewEntry(BatchJob(s.base), s.base, s.queued, s.settings)] == BothQueued(s);
  }

  lemma SweepsLead(s: Schedule)
    ensures Leads(BothQueued(s), AgeStep(s.swept), BothSwept(s), s.settings)
    ensures Leads(Taken(s), AgeStep(s.missed), OneSwept(s), s.settings)
    ensures Leads(OneSwept(s), ReapStep(s.reaped), Returned(s), s.settings)
  {
    AgeLeads(BothQueued(s), s.swept, s.settings);
    AgeLeads(Taken(s), s.missed, s.settings);
    ReapLeads(OneSwept(s), s.reaped, s.settings);
  }

  lemma AgeLeads(t: Table, now: Instant, settings: QueueSettings)
    ensures Leads(t, AgeStep(now), Age(t, now, settings.rate, settings.overflow), settings)
  {
  }

  lemma ReapLeads(t: Table, now: Instant, settings: QueueSettings)
    ensures Leads(t, ReapStep(now), Reap(t, now), settings)
  {
  }

  lemma FirstClaimLeads(s: Schedule)
    requires Fits(s)
    ensures Leads(BothSwept(s), ClaimStep("worker/1", None, s.swept, Some(EARLIER)), Taken(s), s.settings)
  {
    FirstClaim(s);
  }

  lemma SecondClaimLeads(s: Schedule)
    requires Fits(s)
    ensures Leads(Returned(s), ClaimStep("worker/2", None, s.again, Some(LATER)), Overtook(s), s.settings)
  {
    SecondClaim(s);
  }

  function Extended(b: Behavior, step: Step, next: Table): Behavior {
    b.(states := b.states + [next], steps := b.steps + [step])
  }

  lemma OneMoreStep(b: Behavior, t: Table, step: Step, next: Table)
    requires IsRun(b) && b.states[|b.steps|] == t && Leads(t, step, next, b.settings)
    ensures IsRun(Extended(b, step, next))
    ensures Extended(b, step, next).states[|b.steps| + 1] == next
  {
    var longer := Extended(b, step, next);
    forall i | 0 <= i < |longer.steps|
      ensures Linked(longer, i)
    {
      if i < |b.steps| {
        assert Linked(b, i);
      } else {
        assert PlacedAt(longer, i, t, step, next, b.settings);
      }
    }
  }

  lemma ThreeMoreSteps(b0: Behavior, t0: Table, a: Step, t1: Table, b: Step, t2: Table, c: Step, t3: Table)
    requires IsRun(b0) && b0.states[|b0.steps|] == t0
    requires Leads(t0, a, t1, b0.settings) && Leads(t1, b, t2, b0.settings) && Leads(t2, c, t3, b0.settings)
    ensures var b3 := Extended(Extended(Extended(b0, a, t1), b, t2), c, t3); IsRun(b3) && b3.states[|b3.steps|] == t3
  {
    var b1 := Extended(b0, a, t1);
    var b2 := Extended(b1, b, t2);
    OneMoreStep(b0, t0, a, t1);
    OneMoreStep(b1, t1, b, t2);
    OneMoreStep(b2, t2, c, t3);
  }

  lemma InSequence(t0: Table, a: Step, t1: Table, b: Step, t2: Table, c: Step, t3: Table, d: Step, t4: Table, e: Step,
                   t5: Table, f: Step, t6: Table, g: Step, t7: Table, settings: QueueSettings)
    requires t0 == map[]
    requires Leads(t0, a, t1, settings) && Leads(t1, b, t2, settings) && Leads(t2, c, t3, settings)
    requires Leads(t3, d, t4, settings) && Leads(t4, e, t5, settings) && Leads(t5, f, t6, settings)
    requires Leads(t6, g, t7, settings)
    ensures IsRun(Behavior([t0, t1, t2, t3, t4, t5, t6, t7], [a, b, c, d, e, f, g], settings))
  {
    var b0 := Behavior([t0], [], settings);
    ThreeMoreSteps(b0, t0, a, t1, b, t2, c, t3);
    var b3 := Extended(Extended(Extended(b0, a, t1), b, t2), c, t3);
    ThreeMoreSteps(b3, t3, d, t4, e, t5, f, t6);
    var b6 := Extended(Extended(Extended(b3, d, t4), e, t5), f, t6);
    OneMoreStep(b6, t6, g, t7);
    AllInARow(t0, t1, t2, t3, t4, t5, t6, t7);
    AllInARow(a, b, c, d, e, f, g, g);
  }

  lemma AllInARow<T>(a: T, b: T, c: T, d: T, e: T, f: T, g: T, h: T)
    ensures [a] + [b] + [c] + [d] + [e] + [f] + [g] + [h] == [a, b, c, d, e, f, g, h]
    ensures [] + [a] + [b] + [c] + [d] + [e] + [f] + [g] == [a, b, c, d, e, f, g]
  {
  }

  lemma RunIsARun(s: Schedule)
    requires Fits(s)
    ensures IsRun(Run(s))
  {
    InsertsLead(s);
    SweepsLead(s);
    FirstClaimLeads(s);
    SecondClaimLeads(s);
    InSequence(map[], InsertStep(EARLIER, BatchJob(0), 0.0), OneQueued(s),
               InsertStep(LATER, BatchJob(s.base), s.queued),
               BothQueued(s), AgeStep(s.swept), BothSwept(s), ClaimStep("worker/1", None, s.swept, Some(EARLIER)),
               Taken(s), AgeStep(s.missed), OneSwept(s), ReapStep(s.reaped), Returned(s),
               ClaimStep("worker/2", None, s.again, Some(LATER)), Overtook(s), s.settings);
  }

  lemma BothWait(s: Schedule)
    requires Fits(s) && s.queued / 60.0 * s.settings.rate >= s.base as real
    ensures Waits(BothQueued(s), EARLIER) && Waits(BothQueued(s), LATER)
    ensures WorthTheHeadStart(BothQueued(s)[EARLIER].job, BothQueued(s)[LATER].job, s.swept, s.settings.rate)
  {
    assert (s.queued - 0.0) / 60.0 * s.settings.rate == s.queued / 60.0 * s.settings.rate;
  }

  lemma OneWaits(s: Schedule)
    requires Fits(s)
    ensures Waits(Taken(s), LATER) && !Waits(Taken(s), EARLIER)
  {
  }

  /** The later job is taken at step 6 of a run in which a sweep at step 2 found both waiting. */
  ghost predicate Overtakes(b: Behavior) {
    Contest(b, 2, 6, EARLIER, LATER) && b.steps[6].claimed == Some(LATER) && !SweptTogether(b, 2, 6, EARLIER, LATER)
  }

  lemma EightInARow<T>(all: seq<T>, a: T, b: T, c: T, d: T, e: T, f: T, g: T, h: T)
    requires all == [a, b, c, d, e, f, g, h]
    ensures |all| == 8 && all[0] == a && all[1] == b && all[2] == c && all[4] == e && all[6] == g
  {
  }

  lemma SevenInARow<T>(all: seq<T>, a: T, b: T, c: T, d: T, e: T, f: T, g: T)
    requires all == [a, b, c, d, e, f, g]
    ensures |all| == 7 && all[2] == c && all[4] == e && all[6] == g
  {
  }

  lemma TablesOf(b: Behavior, s: Schedule)
    requires b == Run(s)
    ensures |b.states| == 8 && |b.steps| == 7
    ensures b.states[0] == map[] && b.states[1] == OneQueued(s)
    ensures b.states[2] == BothQueued(s) && b.states[4] == Taken(s) && b.states[6] == Returned(s)
    ensures b.steps[2] == AgeStep(s.swept) && b.steps[4] == AgeStep(s.missed)
    ensures b.steps[6] == ClaimStep("worker/2", None, s.again, Some(LATER))
  {
    EightInARow(b.states, map[], OneQueued(s), BothQueued(s), BothSwept(s), Taken(s), OneSwept(s), Returned(s),
                Overtook(s));
    SevenInARow(b.steps, InsertStep(EARLIER, BatchJob(0), 0.0), InsertStep(LATER, BatchJob(s.base), s.queued),
                AgeStep(s.swept), ClaimStep("worker/1", None, s.swept, Some(EARLIER)), AgeStep(s.missed),
                ReapStep(s.reaped), ClaimStep("worker/2", None, s.again, Some(LATER)));
  }

  /** The claim takes the later job although the earlier one is eligible; what is missing is that the
      sweep in between aged only the later one. */
  lemma LaterOvertakes(s: Schedule) returns (b: Behavior)
    requires Fits(s) && s.queued / 60.0 * s.settings.rate >= s.base as real
    ensures Overtakes(b) && b.settings == s.settings
    ensures b.states[0] == map[] && b.states[1] == OneQueued(s) && b.states[6] == Returned(s)
  {
    b := Run(s);
    RunIsARun(s);
    BothWait(s);
    OneWaits(s);
    SecondClaim(s);
    TablesOf(b, s);
    FromTheTables(b, s);
  }

  lemma FromTheTables(b: Behavior, s: Schedule)
    requires IsRun(b) && b.settings == s.settings && |b.steps| == 7 && s.settings.rate >= 0.0
    requires b.states[2] == BothQueued(s) && b.states[4] == Taken(s) && b.states[6] == Returned(s)
    requires b.steps[2] == AgeStep(s.swept) && b.steps[4] == AgeStep(s.missed)
    requires b.steps[6] == ClaimStep("worker/2", None, s.again, Some(LATER))
    requires Waits(BothQueued(s), EARLIER) && Waits(BothQueued(s), LATER)
    requires WorthTheHeadStart(BothQueued(s)[EARLIER].job, BothQueued(s)[LATER].job, s.swept, s.settings.rate)
    requires Waits(Taken(s), LATER) && !Waits(Taken(s), EARLIER)
    requires EARLIER in Candidates(Returned(s), s.again)
    ensures Overtakes(b)
  {
  }

  // ------------------------------------------------------------------ two schedules

  /** One point a minute; "b" starts ten points ahead and is queued ten minutes later. At the second
      claim both are candidates, at 20 and 21 points. */
  lemma OvertakingAtOnePointAMinute() returns (b: Behavior)
    ensures b.settings.rate == 1.0 && Overtakes(b) && BothAdmitted(b)
    ensures EARLIER in b.states[6] && LATER in b.states[6]
    ensures b.states[6][EARLIER].job.effectivePriority == 20 && b.states[6][LATER].job.effectivePriority == 21
  {
    var settings := QueueSettings(100, 0, 3600, 86400.0, 60.0, 1.0, 100);
    var s := Schedule(settings, 10, 600.0, 1200.0, 1260.0, 1300.0, 1310.0);
    WholePoints(s, 0, 0.0, 1200.0, 20);
    WholePoints(s, 10, 600.0, 1200.0, 10);
    WholePoints(s, 10, 600.0, 1260.0, 11);
    b := LaterOvertakes(s);
    ReturnedRows(s);
    BothAdmittedExactlyWhen(b, s);
  }

  lemma WholePoints(s: Schedule, base: int, queued: Instant, now: Instant, points: int)
    requires s.settings.rate == 1.0 && now - queued == points as real * 60.0 && points >= 0 && base + points <= 99
    ensures SweptTo(s, base, queued, now) == base + points
  {
    var minutes := (now - queued) / 60.0;
    assert minutes == points as real;
    assert AgedPoints(queued, now, 1.0) == points as real + AGEING_EPSILON_POINTS;
    FloorOfPoints(points as real, points);
  }

  lemma FloorOfPoints(x: real, whole: int)
    requires whole as real <= x <= whole as real + 0.75
    ensures (x + AGEING_EPSILON_POINTS).Floor == whole
  {
  }

  /** The time in which a job gains one point. */
  function PointTime(rate: real): real
    requires rate > 0.0
  {
    60.0 / rate
  }

  lemma OnePoint(rate: real)
    requires rate > 0.0
    ensures PointTime(rate) * rate == 60.0
  {
  }

  /** In a share of that time it gains that share of a point. */
  lemma ShareOfAPoint(share: real, u: real, rate: real, waited: real)
    requires u * rate == 60.0 && waited == share * u
    ensures waited / 60.0 * rate == share
  {
    assert waited / 60.0 * rate == share * (u * rate) / 60.0;
  }

  lemma SweptPoints(s: Schedule, queued: Instant, now: Instant, waited: real, points: real, whole: int)
    requires now - queued == waited && waited / 60.0 * s.settings.rate == points
    requires 0 <= whole <= 99 && whole as real <= points <= whole as real + 0.75
    ensures SweptTo(s, 0, queued, now) == whole
  {
    assert AgedPoints(queued, now, s.settings.rate) == points + AGEING_EPSILON_POINTS;
    FloorOfPoints(points, whole);
  }

  /** Whether the depth check lets the submissions of both inserts pass. */
  ghost predicate BothAdmitted(b: Behavior)
    requires |b.states| > 2
  {
    !DepthReached(b.states[0], "caller", b.settings) && !DepthReached(b.states[1], "caller", b.settings)
  }

  lemma OneIsActive(t: Table, e: Entry)
    requires t == map[EARLIER := e] && e.job.state == Queued && e.job.source == "caller"
    ensures ActiveJobs(t) == {EARLIER} && ActiveJobsOf(t, "caller") == {EARLIER}
  {
  }

  lemma BothAdmittedExactlyWhen(b: Behavior, s: Schedule)
    requires b.settings == s.settings && s.settings.Valid()
    requires |b.states| > 2 && b.states[0] == map[] && b.states[1] == OneQueued(s)
    ensures BothAdmitted(b) <==> s.settings.maxDepth >= 2 && s.settings.maxActivePerSource != 1
  {
    assert ActiveJobs(map[]) == {} && ActiveJobsOf(map[], "caller") == {};
    OneIsActive(OneQueued(s), NewEntry(BatchJob(0), 0, 0.0, s.settings));
  }

  /** At every positive rate some run overtakes: the hypothesis that sweeps age both jobs cannot be dropped.
      Where one source may hold one active job only, the second insert is one that won the race between the
      depth check and the insert. */
  lemma OvertakingAtEveryRate(settings: QueueSettings) returns (b: Behavior)
    requires settings.Valid() && settings.rate > 0.0
    ensures b.settings == settings && Overtakes(b)
    ensures BothAdmitted(b) <==> settings.maxDepth >= 2 && settings.maxActivePerSource != 1
  {
    var u := PointTime(settings.rate);
    var reaped := 3.0 * u + settings.leaseSeconds;
    var s := Schedule(settings, 0, 0.25 * u, 0.5 * u, 2.0 * u, reaped, reaped);
    OnePoint(settings.rate);
    ShareOfAPoint(0.25, u, settings.rate, 0.25 * u);
    ShareOfAPoint(0.5, u, settings.rate, 0.5 * u);
    ShareOfAPoint(1.75, u, settings.rate, 1.75 * u);
    SweptPoints(s, 0.0, 0.5 * u, 0.5 * u, 0.5, 0);
    SweptPoints(s, 0.25 * u, 0.5 * u, 0.25 * u, 0.25, 0);
    SweptPoints(s, 0.25 * u, 2.0 * u, 1.75 * u, 1.75, 1);
    b := LaterOvertakes(s);
    BothAdmittedExactlyWhen(b, s);
  }

  // ------------------------------------------------------------------ the plain bound

  /** The bound without its hypothesis about the sweeps. */
  ghost predicate PlainBound(settings: QueueSettings) {
    forall b: Behavior, i: nat, j: nat, earlier: JobId, later: JobId
      | b.settings == settings && Contest(b, i, j, earlier, later) :: b.steps[j].claimed != Some(later)
  }

  /** Without ageing every stored priority is the base one. */
  lemma {:induction false} UnagedPriorities(b: Behavior, i: nat, id: JobId)
    requires IsRun(b) && b.settings.rate == 0.0 && i <= |b.steps| && id in b.states[i]
    ensures b.states[i][id].job.effectivePriority == b.states[i][id].job.basePriority
    decreases i
  {
    if i > 0 {
      assert Linked(b, i - 1);
      ReachableRowsAreWellFormed(b, i - 1);
      if id in b.states[i - 1] {
        assert RowWf(b.states[i - 1], id, b.settings.overflow);
        UnagedPriorities(b, i - 1, id);
        PriorityStep(b, i - 1, id);
        if b.steps[i - 1].AgeStep? {
          UnagedSweep(b.states[i - 1][id].job, b.steps[i - 1].now, b.settings);
        }
      } else {
        NewPriority(b.states[i - 1], b.steps[i - 1], b.settings, id);
      }
    }
  }

  lemma UnagedSweep(job: Job, now: Instant, settings: QueueSettings)
    requires settings.rate == 0.0 && InBand(job.jobClass, job.basePriority)
    ensures AgedPriority(job, now, settings) == job.basePriority
  {
    var minutes := (now - job.queuedAt) / 60.0;
    assert Points(minutes, 0.0) == AGEING_EPSILON_POINTS;
  }

  lemma NewPriority(t: Table, step: Step, settings: QueueSettings, id: JobId)
    requires QueueRuns.Enabled(t, step) && id !in t && id in QueueRuns.After(t, step, settings)
    ensures var job := QueueRuns.After(t, step, settings)[id].job; job.effectivePriority == job.basePriority
  {
  }

  lemma NotOvertakenUnaged(b: Behavior, i: nat, j: nat, earlier: JobId, later: JobId)
    requires Contest(b, i, j, earlier, later) && b.settings.rate == 0.0
    ensures b.steps[j].claimed != Some(later)
  {
    OriginsStay(b, i, j, earlier);
    OriginsStay(b, i, j, later);
    UnagedPriorities(b, j, earlier);
    UnagedPriorities(b, j, later);
    ReachableRowsAreWellFormed(b, j);
    assert RowWf(b.states[j], earlier, b.settings.overflow) && RowWf(b.states[j], later, b.settings.overflow);
    assert Linked(b, j);
    assert !MayPrecede(b.states[j][later].job, b.states[j][earlier].job);
  }

  /** The plain bound, for any two jobs that one sweep found waiting, holds if and only if nothing ages. */
  lemma PlainBoundHoldsExactlyWithoutAgeing(settings: QueueSettings)
    requires settings.Valid()
    ensures PlainBound(settings) <==> settings.rate == 0.0
  {
    if settings.rate == 0.0 {
      forall b: Behavior, i: nat, j: nat, earlier: JobId, later: JobId
        | b.settings == settings && Contest(b, i, j, earlier, later)
        ensures b.steps[j].claimed != Some(later)
      {
        NotOvertakenUnaged(b, i, j, earlier, later);
      }
    } else {
      var b := OvertakingAtEveryRate(settings);
    }
  }
}
