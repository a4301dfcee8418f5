/** The per-model circuit breaker: three states over a sliding window of attempt outcomes. */
module CircuitBreaker {
  import opened Wrappers

  type Instant = real

  datatype BreakerState = Closed | Open | HalfOpen

  datatype Sample = Sample(at: Instant, succeeded: bool)

  datatype Thresholds = Thresholds(window: real, minSamples: int, failureRate: real, cooldown: real)

  datatype Verdict = Verdict(
    state: BreakerState,
    failureRate: Option<real>,
    samples: nat,
    openedAt: Option<Instant>,
    expiresAt: Option<Instant>,
    probeInFlight: bool,
    closedAt: Option<Instant>,
    probeStartedAt: Option<Instant>)
  {
    /** Whether routing must skip the model. */
    predicate Excludes() {
      state == Open || (state == HalfOpen && probeInFlight)
    }
  }

  // ------------------------------------------------------------------ samples

  /** The samples in `(after, upto]`, in their given order. */
  function Within(samples: seq<Sample>, after: Instant, upto: Instant): seq<Sample> {
    if samples == [] then []
    else (if after < samples[0].at <= upto then [samples[0]] else []) + Within(samples[1..], after, upto)
  }

  /** The samples after an instant. */
  function Newer(samples: seq<Sample>, after: Instant): seq<Sample> {
    if samples == [] then []
    else (if after < samples[0].at then [samples[0]] else []) + Newer(samples[1..], after)
  }

  predicate Ascending(samples: seq<Sample>) {
    forall i, j | 0 <= i < j < |samples| :: samples[i].at <= samples[j].at
  }

  /** `s` put after every sample that is not later. */
  function Place(sorted: seq<Sample>, s: Sample): seq<Sample> {
    if sorted == [] || Last(sorted).at <= s.at then sorted + [s]
    else Place(sorted[..|sorted| - 1], s) + [Last(sorted)]
  }

  /** The stable sort by instant. */
  function Sorted(samples: seq<Sample>): seq<Sample> {
    if samples == [] then [] else Place(Sorted(samples[..|samples| - 1]), Last(samples))
  }

  lemma {:induction false} WithinMembers(samples: seq<Sample>, after: Instant, upto: Instant)
    ensures forall s :: s in Within(samples, after, upto) <==> s in samples && after < s.at <= upto
  {
    if samples != [] {
      WithinMembers(samples[1..], after, upto);
    }
  }

  lemma {:induction false} PlaceOrders(sorted: seq<Sample>, s: Sample)
    ensures forall x :: x in Place(sorted, s) <==> x in sorted || x == s
    ensures Ascending(sorted) ==> Ascending(Place(sorted, s))
    ensures |Place(sorted, s)| == |sorted| + 1
    decreases |sorted|
  {
    if sorted != [] && Last(sorted).at > s.at {
      var front := sorted[..|sorted| - 1];
      PlaceOrders(front, s);
      var r := Place(front, s) + [Last(sorted)];
      assert sorted == front + [Last(sorted)];
      assert forall i | 0 <= i < |r| - 1 :: r[i] in Place(front, s);
    }
  }

  /** Sorting orders the samples and keeps exactly the ones there were. */
  lemma {:induction false} SortedOrders(samples: seq<Sample>)
    ensures forall x :: x in Sorted(samples) <==> x in samples
    ensures Ascending(Sorted(samples)) && |Sorted(samples)| == |samples|
    decreases |samples|
  {
    if samples != [] {
      var front := samples[..|samples| - 1];
      SortedOrders(front);
      PlaceOrders(Sorted(front), Last(samples));
      assert samples == front + [Last(samples)];
    }
  }

  function Last(samples: seq<Sample>): Sample
    requires samples != []
  {
    samples[|samples| - 1]
  }

  function Failures(samples: seq<Sample>): (n: nat)
    ensures n <= |samples|
  {
    if samples == [] then 0 else (if samples[0].succeeded then 0 else 1) + Failures(samples[1..])
  }

  function Rate(samples: seq<Sample>): Option<real> {
    if samples == [] then None else Some(Failures(samples) as real / |samples| as real)
  }

  /** In ascending order only the latest sample matters to the question "is any of them newer". */
  lemma {:induction false} NewerOfAscending(samples: seq<Sample>, after: Instant)
    requires Ascending(samples)
    ensures Newer(samples, after) != [] <==> samples != [] && Last(samples).at > after
    ensures Newer(samples, after) != [] ==> Last(Newer(samples, after)) == Last(samples)
  {
    if samples != [] {
      NewerOfAscending(samples[1..], after);
      if |samples| > 1 {
        assert Last(samples) == Last(samples[1..]);
      }
    }
  }

  // ------------------------------------------------------------------ the verdict, stage by stage

  function Horizon(now: Instant, closedAt: Option<Instant>, th: Thresholds): Instant {
    var horizon := now - th.window;
    if closedAt.Some? && closedAt.value > horizon then closedAt.value else horizon
  }

  /** The counted samples: inside the window, not after `now`, and newer than the last close. */
  function Recent(samples: seq<Sample>, now: Instant, closedAt: Option<Instant>, th: Thresholds): seq<Sample> {
    Sorted(Within(samples, Horizon(now, closedAt, th), now))
  }

  lemma RecentMembers(samples: seq<Sample>, now: Instant, closedAt: Option<Instant>, th: Thresholds)
    ensures Ascending(Recent(samples, now, closedAt, th))
    ensures forall s ::
      s in Recent(samples, now, closedAt, th) <==> s in samples && Horizon(now, closedAt, th) < s.at <= now
  {
    WithinMembers(samples, Horizon(now, closedAt, th), now);
    SortedOrders(Within(samples, Horizon(now, closedAt, th), now));
  }

  /** A verdict in the making, with the samples that still count. */
  datatype Draft = Draft(
    state: BreakerState,
    openedAt: Option<Instant>,
    expiresAt: Option<Instant>,
    probe: bool,
    probeStartedAt: Option<Instant>,
    closedAt: Option<Instant>,
    recent: seq<Sample>)

  function Start(recent: seq<Sample>, previous: Option<Verdict>): Draft {
    match previous
    case None => Draft(Closed, None, None, false, None, None, recent)
    case Some(v) => Draft(v.state, v.openedAt, v.expiresAt, v.probeInFlight, v.probeStartedAt, v.closedAt, recent)
  }

  /** Open to half-open once the cool-down has elapsed. */
  function CoolDown(d: Draft, now: Instant): Draft {
    if d.state == Open && d.expiresAt.Some? && now >= d.expiresAt.value then
      d.(state := HalfOpen, probe := false, probeStartedAt := None)
    else d
  }

  /** A probe that has not reported within a cool-down is given up. */
  function DropLostProbe(d: Draft, now: Instant, th: Thresholds): Draft {
    if d.state == HalfOpen && d.probe && d.probeStartedAt.Some? && now >= d.probeStartedAt.value + th.cooldown then
      d.(probe := false, probeStartedAt := None)
    else d
  }

  /** The latest sample after the opening decides a half-open breaker. */
  function Report(d: Draft, th: Thresholds): Draft {
    if d.state == HalfOpen && d.openedAt.Some? && d.recent != [] && Last(d.recent).at > d.openedAt.value then
      var last := Last(d.recent);
      if last.succeeded then
        Draft(Closed, None, None, false, None, Some(last.at), [])
      else
        d.(state := Open, openedAt := Some(last.at), expiresAt := Some(last.at + th.cooldown), probe := false,
           probeStartedAt := None)
    else d
  }

  /** Whether the counted samples open a closed breaker. */
  predicate Trips(recent: seq<Sample>, th: Thresholds) {
    recent != [] && |recent| >= th.minSamples && Rate(recent).value >= th.failureRate
  }

  function Trip(d: Draft, th: Thresholds): Draft {
    if d.state == Closed && Trips(d.recent, th) then
      d.(state := Open, openedAt := Some(Last(d.recent).at), expiresAt := Some(Last(d.recent).at + th.cooldown),
         probe := false)
    else d
  }

  function Conclude(d: Draft): Verdict {
    Verdict(d.state, Rate(d.recent), |d.recent|, d.openedAt, d.expiresAt, d.probe, d.closedAt, d.probeStartedAt)
  }

  /** The verdict the counted samples lead to. */
  function VerdictFrom(recent: seq<Sample>, now: Instant, previous: Option<Verdict>, th: Thresholds): Verdict {
    Conclude(Trip(Report(DropLostProbe(CoolDown(Start(recent, previous), now), now, th), th), th))
  }

  function ClosedAt(previous: Option<Verdict>): Option<Instant> {
    if previous.None? then None else previous.value.closedAt
  }

  function NextVerdict(samples: seq<Sample>, now: Instant, previous: Option<Verdict>, th: Thresholds): Verdict {
    VerdictFrom(Recent(samples, now, ClosedAt(previous), th), now, previous, th)
  }

  /** Rendering an open verdict's reason formats its failure rate, which raises when there is none. */
  predicate ReasonRaises(v: Verdict) {
    v.state == Open && v.failureRate.None?
  }

  /** The last of the samples after the opening. */
  method LatestAfter(recent: seq<Sample>, openedAt: Instant) returns (latest: Option<Sample>)
    requires Ascending(recent)
    ensures latest == if recent != [] && Last(recent).at > openedAt then Some(Last(recent)) else None
  {
    var after := Newer(recent, openedAt);
    NewerOfAscending(recent, openedAt);
    latest := if after == [] then None else Some(Last(after));
  }

  /** What still counts after a close at the latest sample: nothing. */
  method DropUpTo(recent: seq<Sample>, closedAt: Instant) returns (rest: seq<Sample>)
    requires Ascending(recent) && recent != [] && Last(recent).at <= closedAt
    ensures rest == []
  {
    rest := Newer(recent, closedAt);
    NewerOfAscending(recent, closedAt);
  }

  /** `evaluate`; `None` when rendering the reason raises. */
  method Evaluate(samples: seq<Sample>, now: Instant, previous: Option<Verdict>,
                  th: Thresholds) returns (r: Option<Verdict>)
    ensures var v := NextVerdict(samples, now, previous, th); r == if ReasonRaises(v) then None else Some(v)
  {
    RecentMembers(samples, now, ClosedAt(previous), th);
    r := EvaluateCounted(Recent(samples, now, ClosedAt(previous), th), now, previous, th);
  }

  /** One variable per column, reassigned branch by branch. */
  method EvaluateCounted(counted: seq<Sample>, now: Instant, previous: Option<Verdict>,
                         th: Thresholds) returns (r: Option<Verdict>)
    requires Ascending(counted)
    ensures var v := VerdictFrom(counted, now, previous, th); r == if ReasonRaises(v) then None else Some(v)
  {
    var closedAt, recent := ClosedAt(previous), counted;
    var count, rate := |recent|, Rate(recent);
    var state := if previous.None? then Closed else previous.value.state;
    var openedAt := if previous.None? then None else previous.value.openedAt;
    var expiresAt := if previous.None? then None else previous.value.expiresAt;
    var probe := if previous.None? then false else previous.value.probeInFlight;
    var probeStartedAt := if previous.None? then None else previous.value.probeStartedAt;
    ghost var d := Start(recent, previous);
    assert d == Draft(state, openedAt, expiresAt, probe, probeStartedAt, closedAt, recent);

    if state == Open && expiresAt.Some? && now >= expiresAt.value {
      state, probe, probeStartedAt := HalfOpen, false, None;
    }
    ghost var cooled := CoolDown(d, now);
    assert cooled == Draft(state, openedAt, expiresAt, probe, probeStartedAt, closedAt, recent);

    if state == HalfOpen && probe && probeStartedAt.Some? && now >= probeStartedAt.value + th.cooldown {
      probe, probeStartedAt := false, None;
    }
    ghost var dropped := DropLostProbe(cooled, now, th);
    assert dropped == Draft(state, openedAt, expiresAt, probe, probeStartedAt, closedAt, recent);

    if state == HalfOpen && openedAt.Some? {
      var latest := LatestAfter(recent, openedAt.value);
      if latest.Some? && latest.value.succeeded {
        state, closedAt := Closed, Some(latest.value.at);
        recent := DropUpTo(recent, closedAt.value);
        count, rate := |recent|, Rate(recent);
        openedAt, expiresAt, probe, probeStartedAt := None, None, false, None;
      } else if latest.Some? {
        state, openedAt := Open, Some(latest.value.at);
        expiresAt := Some(openedAt.value + th.cooldown);
        probe, probeStartedAt := false, None;
      }
    }
    ghost var reported := Report(dropped, th);
    assert reported == Draft(state, openedAt, expiresAt, probe, probeStartedAt, closedAt, recent);
    assert count == |recent| && rate == Rate(recent);

    if state == Closed && rate.Some? && count >= th.minSamples && rate.value >= th.failureRate {
      state, openedAt := Open, Some(Last(recent).at);
      expiresAt := Some(openedAt.value + th.cooldown);
      probe := false;
    }
    ghost var tripped := Trip(reported, th);
    assert tripped == Draft(state, openedAt, expiresAt, probe, probeStartedAt, closedAt, recent);
    assert VerdictFrom(counted, now, previous, th) == Conclude(tripped);

    if state == Open && rate.None? {
      return None;
    }
    return Some(Verdict(state, rate, count, openedAt, expiresAt, probe, closedAt, probeStartedAt));
  }

  // ------------------------------------------------------------------ invariants

  ghost predicate VerdictWf(v: Verdict, th: Thresholds) {
    && (v.state == Closed ==> v.openedAt.None? && v.expiresAt.None?)
    && (v.state != Closed ==> v.openedAt.Some? && v.expiresAt == Some(v.openedAt.value + th.cooldown))
    && (v.openedAt.Some? && v.closedAt.Some? ==> v.closedAt.value < v.openedAt.value)
    && (v.probeInFlight <==> v.probeStartedAt.Some?)
    && (v.probeInFlight ==> v.state == HalfOpen)
  }

  ghost predicate PreviousWf(previous: Option<Verdict>, th: Thresholds) {
    previous.Some? ==> VerdictWf(previous.value, th)
  }

  /** The same of a verdict in the making, whose counted samples are newer than the last close. */
  ghost predicate DraftWf(d: Draft, th: Thresholds) {
    && VerdictWf(Conclude(d), th)
    && (d.recent != [] && d.closedAt.Some? ==> d.closedAt.value < Last(d.recent).at)
  }

  lemma StartWf(samples: seq<Sample>, now: Instant, previous: Option<Verdict>, th: Thresholds)
    requires PreviousWf(previous, th)
    ensures DraftWf(Start(Recent(samples, now, ClosedAt(previous), th), previous), th)
  {
    var d := Start(Recent(samples, now, ClosedAt(previous), th), previous);
    RecentMembers(samples, now, d.closedAt, th);
    if d.recent != [] {
      assert Last(d.recent) in d.recent;
    }
  }

  lemma StagesKeepWf(d: Draft, now: Instant, th: Thresholds)
    requires DraftWf(d, th)
    ensures DraftWf(DropLostProbe(CoolDown(d, now), now, th), th)
    ensures DraftWf(Report(d, th), th)
    ensures DraftWf(Trip(d, th), th)
  {
  }

  /** Evaluating keeps a verdict's columns consistent with its state. */
  lemma NextVerdictWf(samples: seq<Sample>, now: Instant, previous: Option<Verdict>, th: Thresholds)
    requires PreviousWf(previous, th)
    ensures VerdictWf(NextVerdict(samples, now, previous, th), th)
  {
    StartWf(samples, now, previous, th);
    var d := Start(Recent(samples, now, ClosedAt(previous), th), previous);
    StagesKeepWf(d, now, th);
    var dropped := DropLostProbe(CoolDown(d, now), now, th);
    StagesKeepWf(dropped, now, th);
    StagesKeepWf(Report(dropped, th), now, th);
  }

  /** The close instant never goes away, and each close is later than the one before and than the
      opening it ends. */
  lemma ClosesAdvance(samples: seq<Sample>, now: Instant, previous: Verdict, th: Thresholds)
    requires VerdictWf(previous, th)
    ensures var v := NextVerdict(samples, now, Some(previous), th);
            v.closedAt != previous.closedAt ==>
              && v.closedAt.Some? && previous.openedAt.Some?
              && v.closedAt.value > previous.openedAt.value
              && (previous.closedAt.Some? ==> v.closedAt.value > previous.closedAt.value)
  {
  }

  /** A closed breaker opens exactly when the samples that are in the window and newer than the last
      close number at least the minimum and reach the failure rate. */
  lemma ClosedOpensExactlyWhenTripped(samples: seq<Sample>, now: Instant, previous: Option<Verdict>, th: Thresholds)
    requires PreviousWf(previous, th)
    requires previous.Some? ==> previous.value.state == Closed
    ensures var v := NextVerdict(samples, now, previous, th);
            var closedAt := ClosedAt(previous);
            var recent := Recent(samples, now, closedAt, th);
            && (v.state == Open <==> Trips(recent, th))
            && (v.state != Open ==> v.state == Closed)
            && (v.state == Open ==> v.samples == |recent| >= th.minSamples && v.openedAt == Some(Last(recent).at))
            && (forall s | s in recent && closedAt.Some? :: s.at > closedAt.value)
  {
    RecentMembers(samples, now, ClosedAt(previous), th);
  }

  // ------------------------------------------------------------------ the order of samples

  predicate DistinctInstants(samples: seq<Sample>) {
    forall i, j | 0 <= i < j < |samples| :: samples[i].at != samples[j].at
  }

  lemma {:induction false} AscendingIsUnique(a: seq<Sample>, b: seq<Sample>)
    requires Ascending(a) && Ascending(b) && DistinctInstants(a) && DistinctInstants(b)
    requires forall s :: s in a <==> s in b
    ensures a == b
    decreases |a|
  {
    assert |a| > 0 ==> a[0] in b;
    assert |b| > 0 ==> b[0] in a;
    if a != [] && b != [] {
      assert a[0] == b[0];
      forall s
        ensures s in a[1..] <==> s in b[1..]
      {
        assert s in a <==> s in b;
        assert a == [a[0]] + a[1..] && b == [b[0]] + b[1..];
        assert a[0] !in a[1..] && b[0] !in b[1..];
      }
      AscendingIsUnique(a[1..], b[1..]);
    }
  }

  lemma {:induction false} PlaceKeepsDistinct(sorted: seq<Sample>, s: Sample)
    requires DistinctInstants(sorted) && forall x | x in sorted :: x.at != s.at
    ensures DistinctInstants(Place(sorted, s))
    decreases |sorted|
  {
    if sorted != [] && sorted[|sorted| - 1].at > s.at {
      var front, last := sorted[..|sorted| - 1], sorted[|sorted| - 1];
      PlaceKeepsDistinct(front, s);
      PlaceOrders(front, s);
      var r := Place(front, s) + [last];
      forall i, j | 0 <= i < j < |r|
        ensures r[i].at != r[j].at
      {
        if j == |r| - 1 {
          assert r[i] in Place(front, s);
          assert r[i] == s || r[i] in front;
        }
      }
    }
  }

  lemma {:induction false} SortedKeepsDistinct(samples: seq<Sample>)
    requires DistinctInstants(samples)
    ensures DistinctInstants(Sorted(samples))
    decreases |samples|
  {
    if samples != [] {
      var front, last := samples[..|samples| - 1], samples[|samples| - 1];
      SortedKeepsDistinct(front);
      SortedOrders(front);
      forall x | x in Sorted(front)
        ensures x.at != last.at
      {
        assert x in front;
      }
      PlaceKeepsDistinct(Sorted(front), last);
    }
  }

  lemma {:induction false} WithinKeepsDistinct(samples: seq<Sample>, after: Instant, upto: Instant)
    requires DistinctInstants(samples)
    ensures DistinctInstants(Within(samples, after, upto))
  {
    if samples != [] {
      WithinKeepsDistinct(samples[1..], after, upto);
      WithinMembers(samples[1..], after, upto);
      var rest := Within(samples[1..], after, upto);
      forall x | x in rest
        ensures x.at != samples[0].at
      {
        assert x in samples[1..];
      }
    }
  }

  /** The order in which samples are supplied does not matter, as long as no two share an instant. */
  lemma OrderOfSamplesIsIrrelevant(a: seq<Sample>, b: seq<Sample>, now: Instant, previous: Option<Verdict>,
                                   th: Thresholds)
    requires DistinctInstants(a) && DistinctInstants(b) && forall s :: s in a <==> s in b
    ensures NextVerdict(a, now, previous, th) == NextVerdict(b, now, previous, th)
  {
    var closedAt := ClosedAt(previous);
    var horizon := Horizon(now, closedAt, th);
    RecentMembers(a, now, closedAt, th);
    RecentMembers(b, now, closedAt, th);
    WithinKeepsDistinct(a, horizon, now);
    WithinKeepsDistinct(b, horizon, now);
    SortedKeepsDistinct(Within(a, horizon, now));
    SortedKeepsDistinct(Within(b, horizon, now));
    AscendingIsUnique(Recent(a, now, closedAt, th), Recent(b, now, closedAt, th));
  }
}
