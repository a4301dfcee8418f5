/** What one evaluation of a breaker comes to, told from the samples and the columns of the verdict before. */
module BreakerOutcomes {
  import opened Wrappers
  import opened CircuitBreaker

  /** The sample counts: inside the window, not in the future, and newer than the last close. */
  predicate Counts(s: Sample, now: Instant, closedAt: Option<Instant>, th: Thresholds) {
    now - th.window < s.at <= now && (closedAt.Some? ==> s.at > closedAt.value)
  }

  /** Of the samples that count, the latest; of several at that instant, the one supplied last. */
  ghost predicate IsLatest(samples: seq<Sample>, i: nat, counts: Sample -> bool) {
    && i < |samples| && counts(samples[i])
    && forall j | 0 <= j < |samples| && counts(samples[j]) ::
         samples[j].at < samples[i].at || (samples[j].at == samples[i].at && j <= i)
  }

  function Counter(now: Instant, closedAt: Option<Instant>, th: Thresholds): Sample -> bool {
    (s: Sample) => Counts(s, now, closedAt, th)
  }

  predicate Anything(s: Sample) {
    true
  }

  function Between(after: Instant, upto: Instant): Sample -> bool {
    (s: Sample) => after < s.at <= upto
  }

  /** How many samples satisfy `p`. */
  function CountOf(samples: seq<Sample>, p: Sample -> bool): nat {
    if samples == [] then 0 else (if p(samples[0]) then 1 else 0) + CountOf(samples[1..], p)
  }

  // ------------------------------------------------------------------ the latest sample is the last one counted

  lemma {:induction false} LatestIsSortedLast(samples: seq<Sample>, i: nat)
    requires IsLatest(samples, i, Anything)
    ensures Sorted(samples) != [] && Last(Sorted(samples)) == samples[i]
    decreases |samples|
  {
    var front, last := samples[..|samples| - 1], samples[|samples| - 1];
    SortedOrders(front);
    if i == |samples| - 1 {
      forall s | s in Sorted(front)
        ensures s.at <= last.at
      {
        assert s in front;
      }
    } else {
      assert IsLatest(front, i, Anything);
      LatestIsSortedLast(front, i);
    }
  }

  lemma FirstIsWithin(samples: seq<Sample>, after: Instant, upto: Instant)
    requires IsLatest(samples, 0, Between(after, upto))
    ensures var all := Within(samples, after, upto);
            all != [] && all[0] == samples[0] && IsLatest(all, 0, Anything)
  {
    var rest := Within(samples[1..], after, upto);
    WithinMembers(samples[1..], after, upto);
    forall s | s in rest
      ensures s.at < samples[0].at
    {
      var j :| 0 <= j < |samples[1..]| && samples[1..][j] == s;
      assert samples[j + 1] == s;
    }
  }

  lemma LaterIsLatest(samples: seq<Sample>, i: nat, after: Instant, upto: Instant)
    requires i > 0 && IsLatest(samples, i, Between(after, upto))
    ensures IsLatest(samples[1..], i - 1, Between(after, upto))
  {
    forall j | 0 <= j < |samples[1..]| && after < samples[1..][j].at <= upto
      ensures samples[1..][j].at < samples[i].at || (samples[1..][j].at == samples[i].at && j <= i - 1)
    {
      assert samples[j + 1] == samples[1..][j];
    }
  }

  lemma {:induction false} LatestIsWithin(samples: seq<Sample>, i: nat, after: Instant, upto: Instant) returns (k: nat)
    requires IsLatest(samples, i, Between(after, upto))
    ensures k < |Within(samples, after, upto)| && Within(samples, after, upto)[k] == samples[i]
    ensures IsLatest(Within(samples, after, upto), k, Anything)
  {
    if i == 0 {
      k := 0;
      FirstIsWithin(samples, after, upto);
    } else {
      LaterIsLatest(samples, i, after, upto);
      var k0 := LatestIsWithin(samples[1..], i - 1, after, upto);
      var kept := after < samples[0].at <= upto;
      k := if kept then k0 + 1 else k0;
      LatestShifts(Within(samples[1..], after, upto), k0, samples[0], samples[i], kept);
    }
  }

  lemma LatestShifts(rest: seq<Sample>, k: nat, first: Sample, latest: Sample, kept: bool)
    requires IsLatest(rest, k, Anything) && rest[k] == latest && (kept ==> first.at <= latest.at)
    ensures var all := (if kept then [first] else []) + rest;
            var at := if kept then k + 1 else k;
            IsLatest(all, at, Anything) && all[at] == latest
  {
  }

  lemma LatestIsLast(samples: seq<Sample>, i: nat, now: Instant, closedAt: Option<Instant>, th: Thresholds)
    requires IsLatest(samples, i, Counter(now, closedAt, th))
    ensures Recent(samples, now, closedAt, th) != [] && Last(Recent(samples, now, closedAt, th)) == samples[i]
  {
    var after := Horizon(now, closedAt, th);
    assert IsLatest(samples, i, Between(after, now));
    var k := LatestIsWithin(samples, i, after, now);
    LatestIsSortedLast(Within(samples, after, now), k);
  }

  // ------------------------------------------------------------------ open and half-open

  /** The verdict before an evaluation is due for a report: half-open, or open with its cool-down over. */
  predicate AwaitsReport(v: Verdict, now: Instant) {
    v.state == HalfOpen || (v.state == Open && v.expiresAt.Some? && now >= v.expiresAt.value)
  }

  /** The latest counted sample after the opening decides: a success closes the breaker at its instant, with
      nothing left of the opening and nothing counted yet; a failure opens it again from its instant. */
  lemma ReportDecides(samples: seq<Sample>, now: Instant, v: Verdict, th: Thresholds, i: nat)
    requires VerdictWf(v, th) && AwaitsReport(v, now)
    requires IsLatest(samples, i, Counter(now, v.closedAt, th)) && samples[i].at > v.openedAt.value
    ensures samples[i].succeeded ==>
      NextVerdict(samples, now, Some(v), th) == Verdict(Closed, None, 0, None, None, false, Some(samples[i].at), None)
    ensures !samples[i].succeeded ==>
      var next := NextVerdict(samples, now, Some(v), th);
      && next.state == Open && next.openedAt == Some(samples[i].at)
      && next.expiresAt == Some(samples[i].at + th.cooldown)
      && !next.probeInFlight && next.probeStartedAt == None && next.closedAt == v.closedAt
  {
    LatestIsLast(samples, i, now, v.closedAt, th);
  }

  /** Without one the breaker is half-open, under the opening it had; a probe stays out that was granted less
      than a cool-down ago. */
  lemma NoReportHalfOpens(samples: seq<Sample>, now: Instant, v: Verdict, th: Thresholds)
    requires VerdictWf(v, th) && AwaitsReport(v, now)
    requires forall s | s in samples && Counts(s, now, v.closedAt, th) :: s.at <= v.openedAt.value
    ensures var next := NextVerdict(samples, now, Some(v), th);
            var out := v.probeInFlight && now < v.probeStartedAt.value + th.cooldown;
            && next.state == HalfOpen && next.openedAt == v.openedAt && next.expiresAt == v.expiresAt
            && next.closedAt == v.closedAt && next.probeInFlight == out
            && next.probeStartedAt == if out then v.probeStartedAt else None
  {
    RecentMembers(samples, now, v.closedAt, th);
    var recent := Recent(samples, now, v.closedAt, th);
    if recent != [] {
      assert Last(recent) in recent;
    }
  }

  /** Until the cool-down is over an open breaker stays open as it was opened, whatever is sampled. */
  lemma OpenWaits(samples: seq<Sample>, now: Instant, v: Verdict, th: Thresholds)
    requires VerdictWf(v, th) && v.state == Open && now < v.openedAt.value + th.cooldown
    ensures var next := NextVerdict(samples, now, Some(v), th);
            next == v.(failureRate := next.failureRate, samples := next.samples)
  {
  }

  // ------------------------------------------------------------------ closed, and the two statistics

  lemma {:induction false} FailuresAppend(samples: seq<Sample>, s: Sample)
    ensures Failures(samples + [s]) == Failures(samples) + (if s.succeeded then 0 else 1)
  {
    if samples != [] {
      assert (samples + [s])[1..] == samples[1..] + [s];
      FailuresAppend(samples[1..], s);
    }
  }

  lemma {:induction false} FailuresPlaced(sorted: seq<Sample>, s: Sample)
    ensures Failures(Place(sorted, s)) == Failures(sorted) + (if s.succeeded then 0 else 1)
    decreases |sorted|
  {
    if sorted == [] || Last(sorted).at <= s.at {
      FailuresAppend(sorted, s);
    } else {
      var front := sorted[..|sorted| - 1];
      assert sorted == front + [Last(sorted)];
      FailuresPlaced(front, s);
      FailuresAppend(front, Last(sorted));
      FailuresAppend(Place(front, s), Last(sorted));
    }
  }

  lemma {:induction false} FailuresSorted(samples: seq<Sample>)
    ensures Failures(Sorted(samples)) == Failures(samples)
    decreases |samples|
  {
    if samples != [] {
      var front := samples[..|samples| - 1];
      assert samples == front + [Last(samples)];
      FailuresSorted(front);
      FailuresPlaced(Sorted(front), Last(samples));
      FailuresAppend(front, Last(samples));
    }
  }

  lemma {:induction false} WithinCounts(samples: seq<Sample>, after: Instant, upto: Instant, p: Sample -> bool,
                                        q: Sample -> bool)
    requires forall s :: p(s) <==> after < s.at <= upto
    requires forall s :: q(s) <==> p(s) && !s.succeeded
    ensures |Within(samples, after, upto)| == CountOf(samples, p)
    ensures Failures(Within(samples, after, upto)) == CountOf(samples, q)
  {
    if samples != [] {
      WithinCounts(samples[1..], after, upto, p, q);
      var rest := Within(samples[1..], after, upto);
      assert ([samples[0]] + rest)[1..] == rest && [] + rest == rest;
    }
  }

  function FailureCounter(now: Instant, closedAt: Option<Instant>, th: Thresholds): Sample -> bool {
    (s: Sample) => Counts(s, now, closedAt, th) && !s.succeeded
  }

  /** The samples counted, and the failures among them. */
  lemma RecentCounts(samples: seq<Sample>, now: Instant, closedAt: Option<Instant>, th: Thresholds)
    ensures |Recent(samples, now, closedAt, th)| == CountOf(samples, Counter(now, closedAt, th))
    ensures Failures(Recent(samples, now, closedAt, th)) == CountOf(samples, FailureCounter(now, closedAt, th))
  {
    var after := Horizon(now, closedAt, th);
    WithinCounts(samples, after, now, Counter(now, closedAt, th), FailureCounter(now, closedAt, th));
    SortedOrders(Within(samples, after, now));
    FailuresSorted(Within(samples, after, now));
  }

  /** The share of failures, if anything counts. */
  function Share(failed: nat, n: nat): Option<real> {
    if n == 0 then None else Some(failed as real / n as real)
  }

  /** Something counts, enough of it does, and the share of failures is as high as it may get. */
  predicate TooManyFail(failed: nat, n: nat, th: Thresholds) {
    n >= th.minSamples && Share(failed, n).Some? && Share(failed, n).value >= th.failureRate
  }

  lemma TripsByShare(recent: seq<Sample>, th: Thresholds)
    ensures Rate(recent) == Share(Failures(recent), |recent|)
    ensures Trips(recent, th) <==> TooManyFail(Failures(recent), |recent|, th)
  {
  }

  lemma ClosedByTrips(recent: seq<Sample>, now: Instant, v: Verdict, th: Thresholds)
    requires VerdictWf(v, th) && v.state == Closed
    ensures var next := VerdictFrom(recent, now, Some(v), th);
            next == if Trips(recent, th)
                    then Verdict(Open, Rate(recent), |recent|, Some(Last(recent).at),
                                 Some(Last(recent).at + th.cooldown), false, v.closedAt, None)
                    else v.(failureRate := Rate(recent), samples := |recent|)
  {
  }

  /** A closed breaker opens at the latest sample if and only if too many fail; otherwise it stays closed. */
  lemma ClosedDecides(samples: seq<Sample>, now: Instant, v: Verdict, th: Thresholds) returns (i: nat)
    requires VerdictWf(v, th) && v.state == Closed
    ensures var n := CountOf(samples, Counter(now, v.closedAt, th));
            var failed := CountOf(samples, FailureCounter(now, v.closedAt, th));
            var next := NextVerdict(samples, now, Some(v), th);
            if TooManyFail(failed, n, th)
            then IsLatest(samples, i, Counter(now, v.closedAt, th))
                 && next == Verdict(Open, Share(failed, n), n, Some(samples[i].at), Some(samples[i].at + th.cooldown),
                                    false, v.closedAt, None)
            else next == v.(failureRate := Share(failed, n), samples := n)
  {
    var recent := Recent(samples, now, v.closedAt, th);
    RecentCounts(samples, now, v.closedAt, th);
    TripsByShare(recent, th);
    ClosedByTrips(recent, now, v, th);
    i := 0;
    if Trips(recent, th) {
      i := LatestCounted(samples, now, v.closedAt, th);
    }
  }

  lemma LatestCounted(samples: seq<Sample>, now: Instant, closedAt: Option<Instant>, th: Thresholds) returns (i: nat)
    requires Recent(samples, now, closedAt, th) != []
    ensures IsLatest(samples, i, Counter(now, closedAt, th))
    ensures Last(Recent(samples, now, closedAt, th)) == samples[i]
  {
    RecentMembers(samples, now, closedAt, th);
    assert Last(Recent(samples, now, closedAt, th)) in Recent(samples, now, closedAt, th);
    i := SomeLatest(samples, Counter(now, closedAt, th), Last(Recent(samples, now, closedAt, th)));
    LatestIsLast(samples, i, now, closedAt, th);
  }

  lemma {:induction false} SomeLatest(samples: seq<Sample>, counts: Sample -> bool, s: Sample) returns (i: nat)
    requires s in samples && counts(s)
    ensures IsLatest(samples, i, counts)
    decreases |samples|
  {
    var front, last := samples[..|samples| - 1], samples[|samples| - 1];
    if other :| other in front && counts(other) {
      i := SomeLatest(front, counts, other);
      if counts(last) && last.at >= samples[i].at {
        i := |samples| - 1;
      }
    } else {
      i := |samples| - 1;
      assert forall j | 0 <= j < i :: samples[j] in front;
    }
  }

  /** Unless the evaluation closes the breaker, its verdict reports how many samples counted, and the share of
      failures among them. */
  lemma StatisticsAreReported(samples: seq<Sample>, now: Instant, v: Verdict, th: Thresholds)
    requires VerdictWf(v, th)
    ensures var next := NextVerdict(samples, now, Some(v), th);
            var n := CountOf(samples, Counter(now, v.closedAt, th));
            var failed := CountOf(samples, FailureCounter(now, v.closedAt, th));
            next.closedAt == v.closedAt ==> next.samples == n && next.failureRate == Share(failed, n)
  {
    var recent := Recent(samples, now, v.closedAt, th);
    RecentCounts(samples, now, v.closedAt, th);
    RecentMembers(samples, now, v.closedAt, th);
    TripsByShare(recent, th);
    if recent != [] {
      assert Last(recent) in recent;
    }
    StatisticsOf(recent, now, v, th);
  }

  lemma StatisticsOf(recent: seq<Sample>, now: Instant, v: Verdict, th: Thresholds)
    requires VerdictWf(v, th) && (recent != [] && v.closedAt.Some? ==> Last(recent).at > v.closedAt.value)
    ensures var next := VerdictFrom(recent, now, Some(v), th);
            next.closedAt == v.closedAt ==> next.samples == |recent| && next.failureRate == Rate(recent)
  {
  }
}
