/** The breakers of all models, and what holds of one model's breaker over every run. */
module BreakerRuns {
  import opened Wrappers
  import opened CircuitBreaker

  function SamplesOf(byModel: map<string, seq<Sample>>, id: string): seq<Sample> {
    if id in byModel then byModel[id] else []
  }

  function Known(verdicts: map<string, Verdict>, id: string): Option<Verdict> {
    if id in verdicts then Some(verdicts[id]) else None
  }

  /** Every model named in the samples, and every known one, at its next verdict. */
  function Updated(verdicts: map<string, Verdict>, byModel: map<string, seq<Sample>>, now: Instant,
                   th: Thresholds): map<string, Verdict> {
    map id | id in byModel.Keys + verdicts.Keys :: NextVerdict(SamplesOf(byModel, id), now, Known(verdicts, id), th)
  }

  /** Each model is evaluated on its own samples, or on none, against its own verdict before, or none. */
  lemma UpdatedInWords(verdicts: map<string, Verdict>, byModel: map<string, seq<Sample>>, now: Instant, th: Thresholds,
                       id: string)
    ensures var after := Updated(verdicts, byModel, now, th);
            && (id in after <==> id in byModel || id in verdicts)
            && (id in byModel && id in verdicts ==> after[id] == NextVerdict(byModel[id], now, Some(verdicts[id]), th))
            && (id in byModel && id !in verdicts ==> after[id] == NextVerdict(byModel[id], now, None, th))
            && (id !in byModel && id in verdicts ==> after[id] == NextVerdict([], now, Some(verdicts[id]), th))
  {
  }

  ghost predicate GoalAt(goal: map<string, Verdict>, before: map<string, Verdict>, byModel: map<string, seq<Sample>>,
                         now: Instant, th: Thresholds, id: string) {
    id in goal ==> goal[id] == NextVerdict(SamplesOf(byModel, id), now, Known(before, id), th)
  }

  /** An update in progress: the models still `pending` are as they were, if they were known at all. */
  function Midway(before: map<string, Verdict>, goal: map<string, Verdict>, pending: set<string>)
    : map<string, Verdict> {
    map id | id in goal && (id !in pending || id in before) :: if id in pending then before[id] else goal[id]
  }

  lemma MidwayStep(before: map<string, Verdict>, goal: map<string, Verdict>, pending: set<string>, id: string)
    requires id in pending && id in goal
    ensures Known(Midway(before, goal, pending), id) == Known(before, id)
    ensures Midway(before, goal, pending)[id := goal[id]] == Midway(before, goal, pending - {id})
  {
  }

  /** A grant of the half-open probe at `now`; refused when the breaker is not half-open or is busy. */
  predicate Grants(v: Option<Verdict>) {
    v.Some? && v.value.state == HalfOpen && !v.value.probeInFlight
  }

  function Probing(v: Verdict, now: Instant): Verdict {
    v.(probeInFlight := true, probeStartedAt := Some(now))
  }

  function Unprobed(v: Verdict): Verdict {
    v.(probeInFlight := false, probeStartedAt := None)
  }

  class CircuitBreakers {
    var verdicts: map<string, Verdict>
    const th: Thresholds

    constructor (th: Thresholds)
      ensures verdicts == map[] && this.th == th
    {
      verdicts := map[];
      this.th := th;
    }

    method Revisit(byModel: map<string, seq<Sample>>, now: Instant, id: string, ghost before: map<string, Verdict>,
                   ghost goal: map<string, Verdict>)
      returns (completed: bool)
      requires id in goal && GoalAt(goal, before, byModel, now, th, id)
      requires Known(verdicts, id) == Known(before, id)
      modifies this`verdicts
      ensures completed <==> !ReasonRaises(goal[id])
      ensures verdicts == if completed then old(verdicts)[id := goal[id]] else old(verdicts)
    {
      var v := Evaluate(SamplesOf(byModel, id), now, Known(verdicts, id), th);
      completed := v.Some?;
      if completed {
        verdicts := verdicts[id := v.value];
      }
    }

    /** Visits the models of `names` in some order. */
    method RevisitAll(byModel: map<string, seq<Sample>>, now: Instant, names: set<string>,
                      ghost goal: map<string, Verdict>)
      returns (completed: bool)
      requires names == goal.Keys && verdicts.Keys <= names
      requires forall id :: GoalAt(goal, verdicts, byModel, now, th, id)
      modifies this`verdicts
      ensures completed ==> verdicts == goal
      ensures completed <==> forall id | id in goal :: !ReasonRaises(goal[id])
      ensures exists pending :: verdicts == Midway(old(verdicts), goal, pending)
    {
      ghost var before := verdicts;
      var pending := names;
      assert verdicts == Midway(before, goal, pending);
      while pending != {}
        invariant pending <= names
        invariant verdicts == Midway(before, goal, pending)
        invariant forall id | id in goal && id !in pending :: !ReasonRaises(goal[id])
        decreases pending
      {
        var id :| id in pending;
        MidwayStep(before, goal, pending, id);
        completed := Revisit(byModel, now, id, before, goal);
        if !completed {
          return;
        }
        pending := pending - {id};
      }
      assert Midway(before, goal, {}) == goal;
      return true;
    }

    /** Re-evaluates every model. When rendering one model's reason raises, the models already visited
        keep their new verdicts and the others their old ones. */
    method Update(byModel: map<string, seq<Sample>>, now: Instant) returns (completed: bool)
      modifies this`verdicts
      ensures var goal := Updated(old(verdicts), byModel, now, th);
              && (completed ==> verdicts == goal)
              && (completed <==> forall id | id in goal :: !ReasonRaises(goal[id]))
              && exists pending :: verdicts == Midway(old(verdicts), goal, pending)
    {
      completed := RevisitAll(byModel, now, byModel.Keys + verdicts.Keys, Updated(verdicts, byModel, now, th));
    }

    method AllowProbe(id: string, now: Instant) returns (granted: bool)
      modifies this`verdicts
      ensures granted <==> Grants(Known(old(verdicts), id))
      ensures verdicts == if granted then old(verdicts)[id := Probing(old(verdicts)[id], now)] else old(verdicts)
    {
      if id !in verdicts || verdicts[id].state != HalfOpen || verdicts[id].probeInFlight {
        return false;
      }
      verdicts := verdicts[id := Probing(verdicts[id], now)];
      return true;
    }

    method ReleaseProbe(id: string) returns (released: bool)
      modifies this`verdicts
      ensures released <==> id in old(verdicts) && old(verdicts)[id].probeInFlight
      ensures verdicts == if released then old(verdicts)[id := Unprobed(old(verdicts)[id])] else old(verdicts)
    {
      if id !in verdicts || !verdicts[id].probeInFlight {
        return false;
      }
      verdicts := verdicts[id := Unprobed(verdicts[id])];
      return true;
    }

    /** The models routing must skip. */
    method Excluded() returns (ids: set<string>)
      ensures forall id :: id in ids <==> id in verdicts && verdicts[id].Excludes()
      ensures forall id | id in ids :: !Grants(Known(verdicts, id))
      ensures forall id | id in verdicts && id !in ids :: verdicts[id].state == Closed || Grants(Known(verdicts, id))
    {
      ids := set id | id in verdicts && verdicts[id].Excludes();
    }
  }

  // ------------------------------------------------------------------ one model's run

  /** What happens to one model. A sweep that raises leaves the model's verdict as it was. */
  datatype Event = UpdateEvent(samples: seq<Sample>, now: Instant) | ProbeEvent(now: Instant) | ReleaseEvent

  function After(v: Option<Verdict>, e: Event, th: Thresholds): Option<Verdict> {
    match e
    case UpdateEvent(samples, now) =>
      var next := NextVerdict(samples, now, v, th);
      if ReasonRaises(next) then v else Some(next)
    case ProbeEvent(now) => if Grants(v) then Some(Probing(v.value, now)) else v
    case ReleaseEvent => if v.Some? && v.value.probeInFlight then Some(Unprobed(v.value)) else v
  }

  /** `states[i]` is the verdict before `events[i]`. */
  datatype Behavior = Behavior(states: seq<Option<Verdict>>, events: seq<Event>, th: Thresholds)

  ghost predicate Linked(b: Behavior, i: nat)
    requires i < |b.events| && |b.states| == |b.events| + 1
  {
    b.states[i + 1] == After(b.states[i], b.events[i], b.th)
  }

  ghost predicate IsRun(b: Behavior) {
    && |b.states| == |b.events| + 1
    && b.states[0] == None
    && forall i | 0 <= i < |b.events| :: Linked(b, i)
  }

  lemma EventKeepsWf(v: Option<Verdict>, e: Event, th: Thresholds)
    requires PreviousWf(v, th)
    ensures PreviousWf(After(v, e, th), th)
  {
    if e.UpdateEvent? {
      NextVerdictWf(e.samples, e.now, v, th);
    }
  }

  /** Every reachable verdict is consistent: a closed breaker has no opening, an open or half-open one
      expires one cool-down after it opened, it closed before it opened again, and a probe is in
      flight only in half-open, exactly while its start is recorded. */
  lemma {:induction false} ReachableVerdictsAreConsistent(b: Behavior, i: nat)
    requires IsRun(b) && i <= |b.events|
    ensures PreviousWf(b.states[i], b.th)
    decreases i
  {
    if i > 0 {
      ReachableVerdictsAreConsistent(b, i - 1);
      assert Linked(b, i - 1);
      EventKeepsWf(b.states[i - 1], b.events[i - 1], b.th);
    }
  }

  // ------------------------------------------------------------------ one probe at a time

  predicate GrantedAt(b: Behavior, i: nat)
    requires i < |b.events| < |b.states|
  {
    b.events[i].ProbeEvent? && Grants(b.states[i])
  }

  /** What may end a probe granted at `granted`: a release, an update that counts a sample newer than
      the opening, or an update one cool-down after the grant. */
  ghost predicate EndsProbe(v: Option<Verdict>, e: Event, granted: Instant, th: Thresholds) {
    match e
    case ReleaseEvent => v.Some? && v.value.probeInFlight
    case ProbeEvent(_) => false
    case UpdateEvent(samples, now) =>
      || now >= granted + th.cooldown
      || (v.Some? && CountsNewer(v.value, samples, now, th))
  }

  /** An update counts a sample newer than the opening. */
  ghost predicate CountsNewer(v: Verdict, samples: seq<Sample>, now: Instant, th: Thresholds) {
    v.openedAt.Some? && exists s :: s in Recent(samples, now, v.closedAt, th) && s.at > v.openedAt.value
  }

  ghost predicate ProbeOut(v: Option<Verdict>, granted: Instant) {
    v.Some? && v.value.state == HalfOpen && v.value.probeInFlight && v.value.probeStartedAt == Some(granted)
  }

  lemma ProbeStaysOut(v: Option<Verdict>, e: Event, granted: Instant, th: Thresholds)
    requires ProbeOut(v, granted) && !EndsProbe(v, e, granted, th)
    ensures ProbeOut(After(v, e, th), granted)
  {
    if e.UpdateEvent? {
      var recent := Recent(e.samples, e.now, v.value.closedAt, th);
      if recent != [] && v.value.openedAt.Some? {
        assert Last(recent) in recent;
      }
    }
  }

  lemma ProbeEndsHere(b: Behavior, k: nat, granted: Instant)
    requires IsRun(b) && k < |b.events|
    requires ProbeOut(b.states[k], granted) && !ProbeOut(b.states[k + 1], granted)
    ensures EndsProbe(b.states[k], b.events[k], granted, b.th)
  {
    assert Linked(b, k);
    if !EndsProbe(b.states[k], b.events[k], granted, b.th) {
      ProbeStaysOut(b.states[k], b.events[k], granted, b.th);
    }
  }

  lemma {:induction false} ProbeEnds(b: Behavior, i: nat, j: nat, granted: Instant) returns (k: nat)
    requires IsRun(b) && i <= j <= |b.events|
    requires ProbeOut(b.states[i], granted) && !ProbeOut(b.states[j], granted)
    ensures i <= k < j && EndsProbe(b.states[k], b.events[k], granted, b.th)
    decreases j - i
  {
    if ProbeOut(b.states[j - 1], granted) {
      k := j - 1;
      ProbeEndsHere(b, k, granted);
    } else {
      k := ProbeEnds(b, i, j - 1, granted);
    }
  }

  /** Between two grants of a probe on one model, something ended the first one. */
  lemma OneProbeAtATime(b: Behavior, i: nat, j: nat) returns (k: nat)
    requires IsRun(b) && i < j < |b.events| && GrantedAt(b, i) && GrantedAt(b, j)
    ensures i < k < j && EndsProbe(b.states[k], b.events[k], b.events[i].now, b.th)
  {
    assert Linked(b, i);
    k := ProbeEnds(b, i + 1, j, b.events[i].now);
  }

  // ------------------------------------------------------------------ when an open verdict has no rate

  /** A clock that never steps back, and a source that keeps every sample while it is in the window. */
  ghost predicate Faithful(b: Behavior) {
    forall i, j | 0 <= i <= j < |b.events| && b.events[i].UpdateEvent? && b.events[j].UpdateEvent? ::
      Retains(b.events[i], b.events[j], b.th)
  }

  ghost predicate Retains(earlier: Event, later: Event, th: Thresholds)
    requires earlier.UpdateEvent? && later.UpdateEvent?
  {
    && earlier.now <= later.now
    && forall s | s in earlier.samples && s.at > later.now - th.window :: s in later.samples
  }

  ghost predicate RaisesAt(b: Behavior, i: nat)
    requires i < |b.events| < |b.states|
  {
    b.events[i].UpdateEvent? && ReasonRaises(NextVerdict(b.events[i].samples, b.events[i].now, b.states[i], b.th))
  }

  /** The opening instant of a verdict is that of a sample some earlier update saw. */
  ghost predicate OpeningSeen(b: Behavior, i: nat)
    requires i <= |b.events| && |b.states| == |b.events| + 1
  {
    b.states[i].Some? && b.states[i].value.openedAt.Some? ==>
      exists k, s :: 0 <= k < i && b.events[k].UpdateEvent? && s in b.events[k].samples
                     && s.at == b.states[i].value.openedAt.value && s.at <= b.events[k].now
  }

  /** An update either keeps the opening instant or takes that of a sample it counted. */
  lemma OpeningStep(v: Option<Verdict>, samples: seq<Sample>, now: Instant, th: Thresholds)
    ensures var next := NextVerdict(samples, now, v, th);
            next.openedAt.Some? ==>
              || (v.Some? && v.value.openedAt == next.openedAt)
              || (exists s :: s in samples && s.at <= now && next.openedAt == Some(s.at))
  {
    var recent := Recent(samples, now, ClosedAt(v), th);
    RecentMembers(samples, now, ClosedAt(v), th);
    if recent != [] {
      assert Last(recent) in recent;
    }
  }

  lemma {:induction false} OpeningsAreSeen(b: Behavior, i: nat)
    requires IsRun(b) && i <= |b.events|
    ensures OpeningSeen(b, i)
    decreases i
  {
    if i > 0 {
      OpeningsAreSeen(b, i - 1);
      assert Linked(b, i - 1);
      var e, v := b.events[i - 1], b.states[i];
      if e.UpdateEvent? && v.Some? && v.value.openedAt.Some? {
        OpeningStep(b.states[i - 1], e.samples, e.now, b.th);
      }
    }
  }

  /** An open verdict with nothing counted was open before, and its cool-down has not elapsed. */
  lemma RaisingMeansStillOpen(v: Option<Verdict>, samples: seq<Sample>, now: Instant, th: Thresholds)
    requires PreviousWf(v, th) && ReasonRaises(NextVerdict(samples, now, v, th))
    ensures v.Some? && v.value.state == Open && now < v.value.openedAt.value + th.cooldown
    ensures Recent(samples, now, v.value.closedAt, th) == []
  {
  }

  /** When the cool-down is no longer than the window, an open verdict always has a counted sample. */
  lemma OpenVerdictsHaveARate(b: Behavior, i: nat)
    requires IsRun(b) && Faithful(b) && b.th.cooldown <= b.th.window && i < |b.events|
    ensures !RaisesAt(b, i)
  {
    if RaisesAt(b, i) {
      var e, th := b.events[i], b.th;
      ReachableVerdictsAreConsistent(b, i);
      RaisingMeansStillOpen(b.states[i], e.samples, e.now, th);
      OpeningsAreSeen(b, i);
      var v := b.states[i].value;
      RecentMembers(e.samples, e.now, v.closedAt, th);
    }
  }

  function AllFailing(n: nat): (samples: seq<Sample>)
    ensures |samples| == n && forall s | s in samples :: s == Sample(0.0, false)
  {
    seq(n, _ => Sample(0.0, false))
  }

  lemma {:induction false} AllFail(samples: seq<Sample>)
    requires forall s | s in samples :: !s.succeeded
    ensures Failures(samples) == |samples|
    ensures samples != [] ==> Rate(samples) == Some(1.0)
  {
    if samples != [] {
      assert samples[0] in samples;
      AllFail(samples[1..]);
      var n := |samples| as real;
      assert n / n == 1.0;
    }
  }

  lemma {:induction false} WithinNone(samples: seq<Sample>, after: Instant, upto: Instant)
    requires forall s | s in samples :: !(after < s.at <= upto)
    ensures Within(samples, after, upto) == []
  {
    if samples != [] {
      assert samples[0] in samples;
      WithinNone(samples[1..], after, upto);
    }
  }

  /** An open breaker whose cool-down runs on with nothing counted raises. */
  lemma StillOpenRaises(v: Verdict, samples: seq<Sample>, now: Instant, th: Thresholds)
    requires v.state == Open && v.expiresAt.Some? && now < v.expiresAt.value
    requires Recent(samples, now, v.closedAt, th) == []
    ensures ReasonRaises(NextVerdict(samples, now, Some(v), th))
  {
  }

  lemma RecentFailures(samples: seq<Sample>, th: Thresholds)
    requires th.window > 0.0 && |samples| >= 1 && forall s | s in samples :: s == Sample(0.0, false)
    ensures var recent := Recent(samples, 0.0, None, th);
            |recent| == |samples| && (forall s | s in recent :: s == Sample(0.0, false))
  {
    var horizon := Horizon(0.0, None, th);
    WithinAll(samples, horizon, 0.0);
    assert Recent(samples, 0.0, None, th) == Sorted(samples);
    SortedOrders(samples);
    forall s | s in Sorted(samples)
      ensures s == Sample(0.0, false)
    {
      assert s in samples;
    }
  }

  /** Enough failures at instant zero trip an unknown breaker. */
  lemma FailuresTrip(samples: seq<Sample>, th: Thresholds)
    requires th.window > 0.0 && th.failureRate <= 1.0 && |samples| >= th.minSamples && |samples| >= 1
    requires forall s | s in samples :: s == Sample(0.0, false)
    ensures var recent := Recent(samples, 0.0, None, th); Trips(recent, th) && Last(recent).at == 0.0
  {
    var recent := Recent(samples, 0.0, None, th);
    RecentFailures(samples, th);
    AllFail(recent);
    assert Last(recent) in recent;
  }

  lemma FailuresOpen(samples: seq<Sample>, th: Thresholds)
    requires th.window > 0.0 && th.failureRate <= 1.0 && |samples| >= th.minSamples && |samples| >= 1
    requires forall s | s in samples :: s == Sample(0.0, false)
    ensures var v := NextVerdict(samples, 0.0, None, th);
            v.state == Open && v.openedAt == Some(0.0) && v.closedAt == None
  {
    FailuresTrip(samples, th);
    ClosedOpensExactlyWhenTripped(samples, 0.0, None, th);
    FirstVerdictKeepsNoClose(samples, 0.0, th);
  }

  lemma FirstVerdictKeepsNoClose(samples: seq<Sample>, now: Instant, th: Thresholds)
    ensures NextVerdict(samples, now, None, th).closedAt == None
  {
  }

  /** With a longer cool-down, a breaker that opens and then sees no more samples raises. */
  lemma LongCoolDownRaises(th: Thresholds) returns (b: Behavior)
    requires 0.0 < th.window < th.cooldown && th.failureRate <= 1.0
    ensures IsRun(b) && b.th == th && Faithful(b) && |b.events| == 2 && RaisesAt(b, 1)
  {
    var samples := AllFailing(if th.minSamples > 1 then th.minSamples else 1);
    FailuresOpen(samples, th);
    var v := NextVerdict(samples, 0.0, None, th);
    NextVerdictWf(samples, 0.0, None, th);
    assert !ReasonRaises(v) by {
      ClosedOpensExactlyWhenTripped(samples, 0.0, None, th);
    }
    WithinNone(samples, 0.0, th.window);
    StillOpenRaises(v, samples, th.window, th);
    b := Behavior([None, Some(v), Some(v)], [UpdateEvent(samples, 0.0), UpdateEvent(samples, th.window)], th);
    assert Linked(b, 0) && Linked(b, 1);
  }

  lemma {:induction false} WithinAll(samples: seq<Sample>, after: Instant, upto: Instant)
    requires forall s | s in samples :: after < s.at <= upto
    ensures Within(samples, after, upto) == samples
  {
    if samples != [] {
      assert samples[0] in samples;
      WithinAll(samples[1..], after, upto);
    }
  }

  ghost predicate NeverRaises(th: Thresholds) {
    forall b: Behavior, i: nat | IsRun(b) && b.th == th && Faithful(b) && i < |b.events| :: !RaisesAt(b, i)
  }

  /** Rendering a verdict can never raise exactly when the cool-down is no longer than the window. */
  lemma NeverRaisesExactlyWhenCoolDownFits(th: Thresholds)
    requires th.window > 0.0 && th.failureRate <= 1.0
    ensures NeverRaises(th) <==> th.cooldown <= th.window
  {
    if th.cooldown <= th.window {
      forall b: Behavior, i: nat | IsRun(b) && b.th == th && Faithful(b) && i < |b.events|
        ensures !RaisesAt(b, i)
      {
        OpenVerdictsHaveARate(b, i);
      }
    } else {
      var b := LongCoolDownRaises(th);
    }
  }

  // ------------------------------------------------------------------ nothing is excluded for ever

  /** Nothing has happened to the model since `quiet`: no sample, no opening, no probe. */
  ghost predicate QuietSince(v: Verdict, samples: seq<Sample>, quiet: Instant) {
    && (forall s | s in samples :: s.at <= quiet)
    && (v.openedAt.Some? ==> v.openedAt.value <= quiet)
    && (v.probeStartedAt.Some? ==> v.probeStartedAt.value <= quiet)
  }

  /** Half-open, idle, and with no sample after its opening: nothing but a probe can change it. */
  ghost predicate Settled(v: Verdict, samples: seq<Sample>) {
    && v.state == HalfOpen && !v.probeInFlight && v.openedAt.Some?
    && forall s | s in samples :: s.at <= v.openedAt.value || (v.closedAt.Some? && s.at <= v.closedAt.value)
  }

  /** One update at least a cool-down into the quiet: an excluded verdict is a fresh opening at the
      latest counted sample; otherwise the model is not excluded. */
  lemma QuietUpdate(v: Verdict, samples: seq<Sample>, now: Instant, quiet: Instant, th: Thresholds)
    requires VerdictWf(v, th) && QuietSince(v, samples, quiet) && now >= quiet + th.cooldown
    ensures var next := NextVerdict(samples, now, Some(v), th);
            var recent := Recent(samples, now, v.closedAt, th);
            && VerdictWf(next, th) && QuietSince(next, samples, quiet) && !next.probeInFlight
            && (next.state == Open ==>
                  recent != [] && next.openedAt == Some(Last(recent).at) && next.closedAt == v.closedAt)
            && (v.state == Closed ==>
                  (next.state == Open <==> Trips(recent, th)) && (next.state != Open ==> next.state == Closed))
            && (next.state == HalfOpen ==>
                  && next.closedAt == v.closedAt && next.openedAt == v.openedAt && v.state != Closed
                  && (recent == [] || Last(recent).at <= v.openedAt.value))
  {
    NextVerdictWf(samples, now, Some(v), th);
    RecentMembers(samples, now, v.closedAt, th);
    var recent := Recent(samples, now, v.closedAt, th);
    if recent != [] {
      assert Last(recent) in recent;
    }
  }

  /** A later window counts no sample an earlier one did not. */
  lemma WindowOnlySlides(samples: seq<Sample>, early: Instant, late: Instant, quiet: Instant,
                         closedAt: Option<Instant>, th: Thresholds, s: Sample)
    requires early <= late && quiet <= early && (forall x | x in samples :: x.at <= quiet)
    requires s in Recent(samples, late, closedAt, th)
    ensures s in Recent(samples, early, closedAt, th)
  {
    RecentMembers(samples, early, closedAt, th);
    RecentMembers(samples, late, closedAt, th);
  }

  /** An opening or a half-open verdict reached in the quiet is half-open, idle, at the next update. */
  lemma OpeningSettles(v0: Verdict, samples: seq<Sample>, t1: Instant, t2: Instant, quiet: Instant, th: Thresholds)
    requires VerdictWf(v0, th) && QuietSince(v0, samples, quiet) && th.cooldown >= 0.0
      && quiet + th.cooldown <= t1 <= t2
    requires NextVerdict(samples, t1, Some(v0), th).state != Closed
    ensures var v1 := NextVerdict(samples, t1, Some(v0), th);
            var v2 := NextVerdict(samples, t2, Some(v1), th);
            && v2.state == HalfOpen && !v2.probeInFlight && v2.openedAt == v1.openedAt && v2.closedAt == v1.closedAt
  {
    QuietUpdate(v0, samples, t1, quiet, th);
    var v1 := NextVerdict(samples, t1, Some(v0), th);
    var recent := Recent(samples, t2, v1.closedAt, th);
    if recent != [] {
      assert Last(recent) in recent;
      WindowOnlySlides(samples, t1, t2, quiet, v1.closedAt, th, Last(recent));
      RecentMembers(samples, t1, v1.closedAt, th);
      LastIsLatest(Recent(samples, t1, v1.closedAt, th), Last(recent));
    }
  }

  lemma LastIsLatest(recent: seq<Sample>, s: Sample)
    requires Ascending(recent) && s in recent
    ensures recent != [] && s.at <= Last(recent).at
  {
  }

  /** In terms of the first update's verdict: the model is excluded after the second in one case only. */
  lemma ExcludedAfterTheSecond(v0: Verdict, samples: seq<Sample>, t1: Instant, t2: Instant, quiet: Instant,
                               th: Thresholds)
    requires VerdictWf(v0, th) && QuietSince(v0, samples, quiet) && th.cooldown >= 0.0
    requires quiet + th.cooldown <= t1 <= t2
    ensures var v1 := NextVerdict(samples, t1, Some(v0), th);
            NextVerdict(samples, t2, Some(v1), th).Excludes() <==>
              v1.state == Closed && Trips(Recent(samples, t2, v1.closedAt, th), th)
  {
    QuietUpdate(v0, samples, t1, quiet, th);
    var v1 := NextVerdict(samples, t1, Some(v0), th);
    QuietUpdate(v1, samples, t2, quiet, th);
    if v1.state != Closed {
      OpeningSettles(v0, samples, t1, t2, quiet, th);
    }
  }

  /** A breaker that closes does so at the latest sample it counted. */
  lemma ClosesAtTheLatest(recent: seq<Sample>, now: Instant, v: Verdict, th: Thresholds)
    requires VerdictWf(v, th) && v.state != Closed && VerdictFrom(recent, now, Some(v), th).state == Closed
    ensures recent != [] && VerdictFrom(recent, now, Some(v), th).closedAt == Some(Last(recent).at)
  {
  }

  /** Nothing that a later window counts is newer than the latest sample an earlier one counted. */
  lemma NothingNewerThanTheLatest(samples: seq<Sample>, t1: Instant, t2: Instant, quiet: Instant,
                                  before: Option<Instant>,
                                  closedAt: Option<Instant>, th: Thresholds)
    requires t1 <= t2 && quiet <= t1 && forall s | s in samples :: s.at <= quiet
    requires Recent(samples, t1, before, th) != [] && closedAt == Some(Last(Recent(samples, t1, before, th)).at)
    ensures Recent(samples, t2, closedAt, th) == []
  {
    var counted, recent := Recent(samples, t1, before, th), Recent(samples, t2, closedAt, th);
    RecentMembers(samples, t1, before, th);
    RecentMembers(samples, t2, closedAt, th);
    assert Last(counted) in counted;
    if recent != [] {
      assert recent[0] in recent;
      assert recent[0] in counted;
      LastIsLatest(counted, recent[0]);
    }
  }

  /** A breaker that the first update closes is not opened by the second. */
  lemma ClosingLasts(v0: Verdict, samples: seq<Sample>, t1: Instant, t2: Instant, quiet: Instant, th: Thresholds)
    requires VerdictWf(v0, th) && QuietSince(v0, samples, quiet) && th.cooldown >= 0.0
    requires quiet + th.cooldown <= t1 <= t2
    requires v0.state != Closed && NextVerdict(samples, t1, Some(v0), th).state == Closed
    ensures !Trips(Recent(samples, t2, NextVerdict(samples, t1, Some(v0), th).closedAt, th), th)
  {
    ClosesAtTheLatest(Recent(samples, t1, v0.closedAt, th), t1, v0, th);
    NothingNewerThanTheLatest(samples, t1, t2, quiet, v0.closedAt, NextVerdict(samples, t1, Some(v0), th).closedAt, th);
  }

  /** What an update makes of a model without a verdict: closed, and never closed before. */
  const UNSEEN: Verdict := Verdict(Closed, None, 0, None, None, false, None, None)

  function Standing(previous: Option<Verdict>): Verdict {
    if previous.None? then UNSEEN else previous.value
  }

  lemma UnseenIsClosed(samples: seq<Sample>, now: Instant, previous: Option<Verdict>, th: Thresholds)
    ensures NextVerdict(samples, now, previous, th) == NextVerdict(samples, now, Some(Standing(previous)), th)
    ensures ClosedAt(previous) == Standing(previous).closedAt && VerdictWf(UNSEEN, th)
  {
  }

  /** After two updates in the quiet the model is excluded in one case only: it was closed, or had no
      verdict, to begin with, the first update's window does not trip it, and the second's, out of which
      successes have slid, does. */
  lemma TwoQuietUpdates(
    previous: Option<Verdict>, samples: seq<Sample>, t1: Instant, t2: Instant, quiet: Instant, th: Thresholds)
    requires PreviousWf(previous, th) && QuietSince(Standing(previous), samples, quiet) && th.cooldown >= 0.0
    requires quiet + th.cooldown <= t1 <= t2
    ensures NextVerdict(samples, t2, Some(NextVerdict(samples, t1, previous, th)), th).Excludes() <==>
              && (previous.None? || previous.value.state == Closed)
              && !Trips(Recent(samples, t1, ClosedAt(previous), th), th)
              && Trips(Recent(samples, t2, ClosedAt(previous), th), th)
  {
    var v0 := Standing(previous);
    UnseenIsClosed(samples, t1, previous, th);
    ExcludedAfterTheSecond(v0, samples, t1, t2, quiet, th);
    if v0.state == Closed {
      ClosedOpensExactlyWhenTripped(samples, t1, Some(v0), th);
      ClosedKeepsItsClose(samples, t1, v0, th);
    } else if NextVerdict(samples, t1, Some(v0), th).state == Closed {
      ClosingLasts(v0, samples, t1, t2, quiet, th);
    }
  }

  lemma ClosedKeepsItsClose(samples: seq<Sample>, now: Instant, v: Verdict, th: Thresholds)
    requires v.state == Closed
    ensures NextVerdict(samples, now, Some(v), th).closedAt == v.closedAt
  {
  }

  /** That case needs two instants, and a cool-down shorter than the window. */
  lemma TwoQuietUpdatesSuffice(
    previous: Option<Verdict>, samples: seq<Sample>, t1: Instant, t2: Instant, quiet: Instant, th: Thresholds)
    requires PreviousWf(previous, th) && QuietSince(Standing(previous), samples, quiet) && th.cooldown >= 0.0
    requires quiet + th.cooldown <= t1 <= t2
    requires th.window <= th.cooldown || t1 == t2
    ensures !NextVerdict(samples, t2, Some(NextVerdict(samples, t1, previous, th)), th).Excludes()
  {
    TwoQuietUpdates(previous, samples, t1, t2, quiet, th);
    var recent := Recent(samples, t2, ClosedAt(previous), th);
    RecentMembers(samples, t2, ClosedAt(previous), th);
    if th.window <= th.cooldown && recent != [] {
      assert recent[0] in recent;
    }
  }

  /** Successive updates with the same samples: `verdicts[i]` is the verdict before the update at
      `times[i]`. */
  ghost predicate UpdateLinked(verdicts: seq<Verdict>, samples: seq<Sample>, times: seq<Instant>, i: nat,
                               th: Thresholds)
    requires i < |times| && |verdicts| == |times| + 1
  {
    verdicts[i + 1] == NextVerdict(samples, times[i], Some(verdicts[i]), th)
  }

  /** Updates that all come at least one cool-down after `quiet`, in order. */
  ghost predicate QuietUpdates(verdicts: seq<Verdict>, samples: seq<Sample>, times: seq<Instant>, quiet: Instant,
                               th: Thresholds) {
    && |verdicts| == |times| + 1
    && VerdictWf(verdicts[0], th) && QuietSince(verdicts[0], samples, quiet)
    && (forall i | 0 <= i < |times| :: UpdateLinked(verdicts, samples, times, i, th))
    && (forall i | 0 <= i < |times| :: times[i] >= quiet + th.cooldown)
    && (forall i, j | 0 <= i <= j < |times| :: times[i] <= times[j])
  }

  lemma {:induction false} QuietUpdatesStayQuiet(verdicts: seq<Verdict>, samples: seq<Sample>, times: seq<Instant>,
                                                 i: nat, quiet: Instant, th: Thresholds)
    requires QuietUpdates(verdicts, samples, times, quiet, th) && i <= |times|
    ensures VerdictWf(verdicts[i], th) && QuietSince(verdicts[i], samples, quiet)
    decreases i
  {
    if i > 0 {
      QuietUpdatesStayQuiet(verdicts, samples, times, i - 1, quiet, th);
      assert UpdateLinked(verdicts, samples, times, i - 1, th);
      QuietUpdate(verdicts[i - 1], samples, times[i - 1], quiet, th);
    }
  }

  lemma SettlesNext(verdicts: seq<Verdict>, samples: seq<Sample>, times: seq<Instant>, i: nat, quiet: Instant,
                    th: Thresholds)
    requires QuietUpdates(verdicts, samples, times, quiet, th) && th.cooldown >= 0.0 && i + 1 < |times|
    requires verdicts[i + 1].state != Closed
    ensures verdicts[i + 2].state == HalfOpen && !verdicts[i + 2].probeInFlight
  {
    QuietUpdatesStayQuiet(verdicts, samples, times, i, quiet, th);
    assert UpdateLinked(verdicts, samples, times, i, th) && UpdateLinked(verdicts, samples, times, i + 1, th);
    OpeningSettles(verdicts[i], samples, times[i], times[i + 1], quiet, th);
  }

  /** Not for ever: however many updates follow, once one of them has excluded the model none does. */
  lemma {:induction false} ExcludedAtMostOnce(verdicts: seq<Verdict>, samples: seq<Sample>, times: seq<Instant>,
                                              i: nat, j: nat, quiet: Instant, th: Thresholds)
    requires QuietUpdates(verdicts, samples, times, quiet, th) && th.cooldown >= 0.0
    requires 0 < i < j <= |times| && verdicts[i].Excludes()
    ensures verdicts[j].state == HalfOpen && !verdicts[j].Excludes()
    decreases j
  {
    if i + 1 < j {
      ExcludedAtMostOnce(verdicts, samples, times, i, j - 1, quiet, th);
    }
    SettlesNext(verdicts, samples, times, j - 2, quiet, th);
  }

  /** A history that two quiet updates leave excluded. */
  ghost predicate StillExcluded(v0: Verdict, samples: seq<Sample>, t1: Instant, t2: Instant, quiet: Instant,
                                th: Thresholds) {
    && VerdictWf(v0, th) && QuietSince(v0, samples, quiet) && th.cooldown >= 0.0 && quiet + th.cooldown <= t1 <= t2
    && NextVerdict(samples, t2, Some(NextVerdict(samples, t1, Some(v0), th)), th).Excludes()
  }

  lemma LateTripExcludes(v0: Verdict, samples: seq<Sample>, t1: Instant, t2: Instant, quiet: Instant, th: Thresholds)
    requires VerdictWf(v0, th) && QuietSince(v0, samples, quiet) && th.cooldown >= 0.0
    requires quiet + th.cooldown <= t1 <= t2 && v0.state == Closed
    requires !Trips(Recent(samples, t1, v0.closedAt, th), th) && Trips(Recent(samples, t2, v0.closedAt, th), th)
    ensures StillExcluded(v0, samples, t1, t2, quiet, th)
  {
    TwoQuietUpdates(Some(v0), samples, t1, t2, quiet, th);
  }

  /** Two updates are not always enough: an early success leaves the ten-second window between the
      updates, and the failure that remains opens the breaker. */
  lemma TwoQuietUpdatesCanExclude() returns (v0: Verdict, samples: seq<Sample>, th: Thresholds)
    ensures v0.state == Closed && th == Thresholds(10.0, 1, 0.6, 1.0)
    ensures samples == [Sample(0.0, true), Sample(6.0, false)]
    ensures StillExcluded(v0, samples, 7.0, 10.5, 6.0, th)
  {
    v0 := UNSEEN;
    th := Thresholds(10.0, 1, 0.6, 1.0);
    var early, late := Sample(0.0, true), Sample(6.0, false);
    samples := [early] + [late];
    EarlyWindow(early, late, 7.0, th);
    LateWindow(early, late, 10.5, th);
    LateTripExcludes(v0, samples, 7.0, 10.5, 6.0, th);
  }

  /** One of two fails in the first window. */
  lemma EarlyWindow(a: Sample, b: Sample, now: Instant, th: Thresholds)
    requires a.at < b.at <= now && now - th.window < a.at && a.succeeded && !b.succeeded
    requires th.failureRate > 0.5
    ensures !Trips(Recent([a] + [b], now, None, th), th)
  {
    var all := [a] + [b];
    assert all == [a, b];
    WithinAll(all, now - th.window, now);
    RecentIs(all, now, th, all);
    RateOfPair(a, b);
  }

  /** One of one fails in the second. */
  lemma LateWindow(a: Sample, b: Sample, now: Instant, th: Thresholds)
    requires a.at <= now - th.window < b.at <= now && !b.succeeded && a.succeeded
    requires th.minSamples <= 1 && th.failureRate <= 1.0
    ensures Trips(Recent([a] + [b], now, None, th), th)
  {
    WithinRest(a, [b], now - th.window, now);
    RecentIs([a] + [b], now, th, [b]);
    RateOfPair(a, b);
  }

  lemma RateOfPair(a: Sample, b: Sample)
    requires a.succeeded && !b.succeeded
    ensures Rate([b]) == Some(1.0) && Rate([a, b]) == Some(0.5)
  {
    assert [a, b][1..] == [b];
  }

  lemma RecentIs(samples: seq<Sample>, now: Instant, th: Thresholds, expected: seq<Sample>)
    requires Within(samples, now - th.window, now) == expected && Ascending(expected)
    ensures Recent(samples, now, None, th) == expected
  {
    SortedOfAscending(expected);
  }

  lemma WithinRest(first: Sample, rest: seq<Sample>, after: Instant, upto: Instant)
    requires first.at <= after && forall s | s in rest :: after < s.at <= upto
    ensures Within([first] + rest, after, upto) == rest
  {
    assert ([first] + rest)[1..] == rest;
    WithinAll(rest, after, upto);
  }

  lemma {:induction false} SortedOfAscending(samples: seq<Sample>)
    requires Ascending(samples)
    ensures Sorted(samples) == samples
    decreases |samples|
  {
    if samples != [] {
      var front := samples[..|samples| - 1];
      SortedOfAscending(front);
      assert samples == front + [Last(samples)];
    }
  }
}
