/** What the reliability statistics say, counted over the history itself. */
module ReliabilityCounts {
  import opened Percentiles
  import opened Reliability
  import opened Wrappers

  /** How many satisfy `p`. */
  function CountOf<T>(items: seq<T>, p: T -> bool): nat {
    if items == [] then 0
    else CountOf(items[..|items| - 1], p) + (if p(items[|items| - 1]) then 1 else 0)
  }

  // ------------------------------------------------------------------ the counts of a window

  /** After the window's far end, which is open, and not in the future. */
  predicate Recent(at: Instant, window: Window, now: Instant) {
    at <= now && (window.seconds.None? || now - at < window.seconds.value)
  }

  function Ended(window: Window, now: Instant, outcomes: set<Outcome>): Attempt -> bool {
    (a: Attempt) => Recent(a.at, window, now) && a.outcome in outcomes
  }

  const ALL_OUTCOMES: set<Outcome> := {Completed, ValidationFailed, ProviderError, Timeout, ContextExceeded, Cancelled}

  ghost predicate CountsAre(c: Counts, attempts: seq<Attempt>, window: Window, now: Instant) {
    && c.attempts == CountOf(attempts, Ended(window, now, ALL_OUTCOMES))
    && c.successes == CountOf(attempts, Ended(window, now, {Completed, ValidationFailed}))
    && c.passes == CountOf(attempts, Ended(window, now, {Completed}))
    && c.timeouts == CountOf(attempts, Ended(window, now, {Timeout}))
    && c.cancellations == CountOf(attempts, Ended(window, now, {Cancelled}))
  }

  lemma EveryOutcome(outcome: Outcome)
    ensures outcome in ALL_OUTCOMES
  {
    match outcome {
      case Completed => case ValidationFailed => case ProviderError =>
      case Timeout => case ContextExceeded => case Cancelled =>
    }
  }

  lemma CountOneMore(c: Counts, front: seq<Attempt>, last: Attempt, window: Window, now: Instant)
    requires CountsAre(c, front, window, now)
    ensures CountsAre(if Recent(last.at, window, now) then Counting(c, last) else c, front + [last], window, now)
  {
    assert (front + [last])[..|front|] == front;
    EveryOutcome(last.outcome);
  }

  /** The statistics of a window count the attempts of that window by how they ended. */
  lemma {:induction false} CountsInWords(attempts: seq<Attempt>, feedback: seq<Feedback>, window: Window, now: Instant)
    ensures CountsAre(ComputeStats(attempts, feedback, window, now).counts, attempts, window, now)
  {
    if attempts != [] {
      var front, last := attempts[..|attempts| - 1], attempts[|attempts| - 1];
      CountsInWords(front, feedback, window, now);
      CountOneMore(CountsOf(AttemptsIn(front, window, now)), front, last, window, now);
      CountsOfMaybe(AttemptsIn(front, window, now), last, InWindow(last.at, window, now));
      assert attempts == front + [last];
    }
  }

  // ------------------------------------------------------------------ percentiles

  lemma RankBounds(q: real, n: nat, k: int)
    ensures k < Rank(q, n) <==> k as real < q * n as real
  {
    var x := -q * n as real;
    assert x.Floor as real <= x < x.Floor as real + 1.0;
    assert x == -(q * n as real);
    if k < Rank(q, n) {
      assert k <= -x.Floor - 1;
    } else {
      assert k >= -x.Floor;
    }
  }

  /** The value has the rank `share * n`, rounded up: fewer values than that are below it, and at least as many
      are not above it. */
  predicate AtShare(values: seq<int>, x: int, share: real) {
    && x in values
    && CountBelow(values, x) as real < share * |values| as real
    && CountUpTo(values, x) as real >= share * |values| as real
  }

  lemma QuantileInWords(values: seq<int>, q: real)
    requires 0.0 < q <= 1.0
    ensures Quantile(values, q).Some? <==> |values| >= 20
    ensures Quantile(values, q).Some? ==> AtShare(values, Quantile(values, q).value, q)
  {
    if |values| >= 20 {
      var x := Quantile(values, q).value;
      PercentileHasItsRank(values, q);
      RankBounds(q, |values|, CountBelow(values, x));
      RankBounds(q, |values|, CountUpTo(values, x));
    }
  }

  /** From twenty latencies on a window reports a median and a 95th percentile, and each is one of the latencies
      at its share. */
  lemma PercentilesInWords(attempts: seq<Attempt>, feedback: seq<Feedback>, window: Window, now: Instant)
    ensures var stats, latencies :=
              ComputeStats(attempts, feedback, window, now), Latencies(AttemptsIn(attempts, window, now));
            && stats.latencyCount == |latencies|
            && (stats.p50.Some? <==> |latencies| >= 20) && (stats.p95.Some? <==> |latencies| >= 20)
            && (stats.p50.Some? ==> AtShare(latencies, stats.p50.value, 0.5))
            && (stats.p95.Some? ==> AtShare(latencies, stats.p95.value, 0.95))
  {
    var latencies := Latencies(AttemptsIn(attempts, window, now));
    QuantileInWords(latencies, 0.5);
    QuantileInWords(latencies, 0.95);
  }

  function Slower(window: Window, now: Instant, x: int): Attempt -> bool {
    (a: Attempt) => Recent(a.at, window, now) && a.latencyMs.Some? && a.latencyMs.value > x
  }

  lemma {:induction false} CountsUpToAppend(values: seq<int>, y: int, x: int)
    ensures CountUpTo(values + [y], x) == CountUpTo(values, x) + (if y <= x then 1 else 0)
  {
    if values != [] {
      assert (values + [y])[1..] == values[1..] + [y];
      CountsUpToAppend(values[1..], y, x);
    } else {
      assert [y][1..] == [];
    }
  }

  /** The latencies are those of the window's attempts: as many lie above a value as attempts were slower. */
  lemma {:induction false} LatenciesInWords(attempts: seq<Attempt>, window: Window, now: Instant, x: int)
    ensures var latencies := Latencies(AttemptsIn(attempts, window, now));
            |latencies| - CountUpTo(latencies, x) == CountOf(attempts, Slower(window, now, x))
  {
    if attempts != [] {
      var front, last := attempts[..|attempts| - 1], attempts[|attempts| - 1];
      var own := AttemptsIn(front, window, now);
      LatenciesInWords(front, window, now, x);
      if InWindow(last.at, window, now) {
        assert (own + [last])[..|own|] == own;
        if last.latencyMs.Some? {
          CountsUpToAppend(Latencies(own), last.latencyMs.value, x);
        } else {
          assert Latencies(own) + [] == Latencies(own);
        }
      } else {
        assert own + [] == own;
      }
    }
  }

  // ------------------------------------------------------------------ means

  /** A throughput is tokens per second: with the milliseconds it gives the tokens. */
  lemma ThroughputInWords(a: Attempt)
    ensures TokensPerSecond(a).Some? <==> a.outputTokens.Some? && a.latencyMs.Some? && a.latencyMs.value > 0
    ensures TokensPerSecond(a).Some? ==>
      TokensPerSecond(a).value * a.latencyMs.value as real == 1000.0 * a.outputTokens.value as real
  {
    if TokensPerSecond(a).Some? {
      var ms, tokens := a.latencyMs.value as real, a.outputTokens.value as real;
      Quotient(tokens, ms / 1000.0);
      assert ms == 1000.0 * (ms / 1000.0);
    }
  }

  lemma Quotient(x: real, y: real)
    requires y != 0.0
    ensures (x / y) * y == x
  {
  }

  /** What the items come to together. */
  function SumOf<T>(items: seq<T>, value: T -> real): real {
    if items == [] then 0.0 else SumOf(items[..|items| - 1], value) + value(items[|items| - 1])
  }

  /** A mean of `n` values, if they are five or more. */
  function MeanOfFive(sum: real, n: nat): Option<real> {
    if n < 5 then None else Some(sum / n as real)
  }

  lemma SumAppend(values: seq<real>, x: real)
    ensures Sum(values + [x]) == Sum(values) + x && Sum([]) == 0.0
  {
    assert (values + [x])[..|values|] == values;
  }

  /** The attempt is in the window and says how many tokens it gave. */
  predicate TellsTokens(a: Attempt, window: Window, now: Instant) {
    Recent(a.at, window, now) && a.outputTokens.Some?
  }

  function TellingTokens(window: Window, now: Instant): Attempt -> bool {
    (a: Attempt) => TellsTokens(a, window, now)
  }

  function TokensTold(window: Window, now: Instant): Attempt -> real {
    (a: Attempt) => if TellsTokens(a, window, now) then a.outputTokens.value as real else 0.0
  }

  lemma {:induction false} TokensInWords(attempts: seq<Attempt>, window: Window, now: Instant)
    ensures |Tokens(AttemptsIn(attempts, window, now))| == CountOf(attempts, TellingTokens(window, now))
    ensures Sum(Tokens(AttemptsIn(attempts, window, now))) == SumOf(attempts, TokensTold(window, now))
  {
    if attempts != [] {
      var front, last := attempts[..|attempts| - 1], attempts[|attempts| - 1];
      var own := AttemptsIn(front, window, now);
      TokensInWords(front, window, now);
      AttemptsInAppend(front, last, window, now);
      assert attempts == front + [last] && (own + [last])[..|own|] == own && own + [] == own;
      assert Tokens(own) + [] == Tokens(own);
      if TellsTokens(last, window, now) {
        SumAppend(Tokens(own), last.outputTokens.value as real);
      }
    }
  }

  /** The attempt is in the window and has a throughput. */
  predicate TellsSpeed(a: Attempt, window: Window, now: Instant) {
    Recent(a.at, window, now) && TokensPerSecond(a).Some?
  }

  function TellingSpeed(window: Window, now: Instant): Attempt -> bool {
    (a: Attempt) => TellsSpeed(a, window, now)
  }

  function SpeedTold(window: Window, now: Instant): Attempt -> real {
    (a: Attempt) => if TellsSpeed(a, window, now) then TokensPerSecond(a).value else 0.0
  }

  lemma {:induction false} ThroughputsInWords(attempts: seq<Attempt>, window: Window, now: Instant)
    ensures |Throughputs(AttemptsIn(attempts, window, now))| == CountOf(attempts, TellingSpeed(window, now))
    ensures Sum(Throughputs(AttemptsIn(attempts, window, now))) == SumOf(attempts, SpeedTold(window, now))
  {
    if attempts != [] {
      var front, last := attempts[..|attempts| - 1], attempts[|attempts| - 1];
      var own := AttemptsIn(front, window, now);
      ThroughputsInWords(front, window, now);
      AttemptsInAppend(front, last, window, now);
      assert attempts == front + [last] && (own + [last])[..|own|] == own && own + [] == own;
      assert Throughputs(own) + [] == Throughputs(own);
      if TellsSpeed(last, window, now) {
        SumAppend(Throughputs(own), TokensPerSecond(last).value);
      }
    }
  }

  /** The verdict is in the window and grades the answer. */
  predicate Grades(f: Feedback, window: Window, now: Instant) {
    Recent(f.at, window, now) && f.quality.Some?
  }

  function Grading(window: Window, now: Instant): Feedback -> bool {
    (f: Feedback) => Grades(f, window, now)
  }

  function GradeGiven(window: Window, now: Instant): Feedback -> real {
    (f: Feedback) => if Grades(f, window, now) then f.quality.value else 0.0
  }

  lemma {:induction false} QualitiesInWords(feedback: seq<Feedback>, window: Window, now: Instant)
    ensures |Qualities(FeedbackIn(feedback, window, now))| == CountOf(feedback, Grading(window, now))
    ensures Sum(Qualities(FeedbackIn(feedback, window, now))) == SumOf(feedback, GradeGiven(window, now))
  {
    if feedback != [] {
      var front, last := feedback[..|feedback| - 1], feedback[|feedback| - 1];
      var heard := FeedbackIn(front, window, now);
      QualitiesInWords(front, window, now);
      FeedbackInAppend(front, last, window, now);
      assert feedback == front + [last] && (heard + [last])[..|heard|] == heard && heard + [] == heard;
      assert Qualities(heard) + [] == Qualities(heard);
      if Grades(last, window, now) {
        SumAppend(Qualities(heard), last.quality.value);
      }
    }
  }

  /** From five values on, the means are those of the tokens, the throughputs and the grades of the window. */
  lemma MeansInWords(attempts: seq<Attempt>, feedback: seq<Feedback>, window: Window, now: Instant)
    ensures var stats := ComputeStats(attempts, feedback, window, now);
            && stats.tokenCount == CountOf(attempts, TellingTokens(window, now))
            && stats.meanTokens == MeanOfFive(SumOf(attempts, TokensTold(window, now)), stats.tokenCount)
            && stats.throughputCount == CountOf(attempts, TellingSpeed(window, now))
            && stats.meanThroughput == MeanOfFive(SumOf(attempts, SpeedTold(window, now)), stats.throughputCount)
            && stats.qualityCount == CountOf(feedback, Grading(window, now))
            && stats.meanQuality == MeanOfFive(SumOf(feedback, GradeGiven(window, now)), stats.qualityCount)
  {
    TokensInWords(attempts, window, now);
    ThroughputsInWords(attempts, window, now);
    QualitiesInWords(feedback, window, now);
  }

  predicate Usable(f: Feedback, window: Window, now: Instant) {
    Recent(f.at, window, now) && f.accepted && f.validationPassed != Some(false)
  }

  function AsDelivered(window: Window, now: Instant, edited: bool): Feedback -> bool {
    (f: Feedback) => Usable(f, window, now) && f.edited == edited
  }

  function Heard(window: Window, now: Instant): Feedback -> bool {
    (f: Feedback) => Recent(f.at, window, now)
  }

  lemma CreditsAppend(heard: seq<Feedback>, f: Feedback)
    ensures Sum(Credits(heard + [f])) == Sum(Credits(heard)) + AcceptanceCredit(f)
  {
    assert (heard + [f])[..|heard|] == heard;
    assert (Credits(heard) + [AcceptanceCredit(f)])[..|Credits(heard)|] == Credits(heard);
  }

  lemma {:induction false} CreditsInWords(feedback: seq<Feedback>, window: Window, now: Instant)
    ensures |Credits(FeedbackIn(feedback, window, now))| == CountOf(feedback, Heard(window, now))
    ensures Sum(Credits(FeedbackIn(feedback, window, now)))
         == CountOf(feedback, AsDelivered(window, now, false)) as real
            + 0.5 * CountOf(feedback, AsDelivered(window, now, true)) as real
  {
    if feedback != [] {
      var front, last := feedback[..|feedback| - 1], feedback[|feedback| - 1];
      var heard := FeedbackIn(front, window, now);
      CreditsInWords(front, window, now);
      CreditsAppend(heard, last);
      CreditsSum(heard);
      CreditsSum(heard + [last]);
      assert heard + [] == heard;
    }
  }

  /** From five verdicts on, the acceptance is the share of usable answers, an edited one counting half. */
  lemma AcceptanceInWords(attempts: seq<Attempt>, feedback: seq<Feedback>, window: Window, now: Instant)
    ensures var stats, n := ComputeStats(attempts, feedback, window, now), CountOf(feedback, Heard(window, now));
            && stats.feedbackCount == n
            && stats.acceptance ==
                 if n < 5 then None
                 else Some((CountOf(feedback, AsDelivered(window, now, false)) as real
                            + 0.5 * CountOf(feedback, AsDelivered(window, now, true)) as real) / n as real)
  {
    CreditsInWords(feedback, window, now);
  }

  // ------------------------------------------------------------------ the factor

  lemma RatesMultiply(p: real, s: real, c: real)
    requires s > 0.0 && c > 0.0
    ensures (s / c) * (p / s) == p / c
  {
    Quotient(p, s);
    Quotient(s, c);
    var x, y := s / c, p / s;
    assert x * y * c == p by {
      assert x * y * c == y * (x * c);
    }
    Quotient(p, c);
    SameQuotient(x * y, p / c, c);
  }

  lemma SameQuotient(a: real, b: real, c: real)
    requires c > 0.0 && a * c == b * c
    ensures a == b
  {
    assert (a - b) * c == 0.0;
  }

  /** A live factor is one half and half the share of counted attempts that passed, damped by up to one half again
      by what callers made of the answers. */
  lemma FactorInWords(stats: Stats)
    requires Consistent(stats) && stats.counts.Counted() > 0
    ensures var passed := stats.counts.passes as real / stats.counts.Counted() as real;
            var damped := if stats.acceptance.None? then 1.0 else 0.5 + 0.5 * stats.acceptance.value;
            LiveFactor(stats).value == 0.5 + 0.5 * (passed * damped)
  {
    var c := stats.counts;
    var passed := c.passes as real / c.Counted() as real;
    if c.successes > 0 {
      RatesMultiply(c.passes as real, c.successes as real, c.Counted() as real);
    } else {
      assert SuccessRate(stats) == 0.0 && passed == 0.0;
    }
    assert SuccessRate(stats) * ValidationRate(stats) == passed;
  }

  /** The last week decides when it has twenty counted attempts; else the last month, when that has. */
  lemma FreshestWindowDecides(attempts: seq<Attempt>, feedback: seq<Feedback>, now: Instant)
    ensures var week, month :=
              ComputeStats(attempts, feedback, WINDOW_7D, now), ComputeStats(attempts, feedback, WINDOW_30D, now);
            FactorAt(attempts, feedback, now) ==
              if week.counts.Counted() >= 20 then LiveFactor(week)
              else if month.counts.Counted() >= 20 then LiveFactor(month)
              else Factor(1.0, None, month.counts.Counted())
  {
    ShorterCountsLess(attempts, WINDOW_7D, WINDOW_30D, now);
    StatsHoldTheCounts(attempts, feedback, WINDOW_7D, now);
    StatsHoldTheCounts(attempts, feedback, WINDOW_30D, now);
    FreshestDecides(ComputeStats(attempts, feedback, WINDOW_7D, now),
                    ComputeStats(attempts, feedback, WINDOW_30D, now));
  }

  lemma FreshestDecides(week: Stats, month: Stats)
    requires week.counts.Counted() <= month.counts.Counted()
    ensures ReliabilityFactor(Some(week), Some(month)) ==
      if week.counts.Counted() >= 20 then LiveFactor(week)
      else if month.counts.Counted() >= 20 then LiveFactor(month)
      else Factor(1.0, None, month.counts.Counted())
  {
  }

  // ------------------------------------------------------------------ the regression test

  /** With `x` of `n` passed lately and `y` of `m` before: the pass rate has dropped by fifteen points or more, and
      by two standard deviations of the pooled rate or more. */
  predicate HasRegressed(x: int, n: int, y: int, m: int) {
    && n >= 20 && m >= 20
    && var drop, pooled := y as real / m as real - x as real / n as real, (x + y) as real / (n + m) as real;
       && drop >= 0.15
       && drop * drop >= 4.0 * (pooled * (1.0 - pooled) * (1.0 / n as real + 1.0 / m as real))
  }

  lemma RegressedProportions(p: Proportions)
    ensures HasRegressed(p.recentPasses, p.recent, p.baselinePasses, p.baseline) <==>
      Enough(p) && p.Drop() >= REGRESSION_MINIMUM_DROP && p.Drop() * p.Drop() >= 4.0 * p.Variance()
  {
  }

  lemma RegressedExactly(attempts: seq<Attempt>, feedback: seq<Feedback>, now: Instant)
    ensures var recent, all :=
              ComputeStats(attempts, feedback, WINDOW_7D, now), ComputeStats(attempts, feedback, WINDOW_ALL, now);
            var p := Comparison(recent, all);
            DetectRegression(recent, all) == Regressed <==>
              HasRegressed(p.recentPasses, p.recent, p.baselinePasses, p.baseline)
  {
    RegressionIsExact(attempts, feedback, now);
    RegressedProportions(Comparison(ComputeStats(attempts, feedback, WINDOW_7D, now),
                                    ComputeStats(attempts, feedback, WINDOW_ALL, now)));
  }

  /** A regression compares the passes among the counted attempts of the last seven days with those among all
      attempts before them. */
  lemma RegressionInCounts(attempts: seq<Attempt>, feedback: seq<Feedback>, now: Instant)
    ensures var recent, all :=
              ComputeStats(attempts, feedback, WINDOW_7D, now), ComputeStats(attempts, feedback, WINDOW_ALL, now);
            var older := CountsOf(Older(attempts, now));
            DetectRegression(recent, all) == Regressed <==>
              HasRegressed(recent.counts.passes, recent.counts.Counted(), older.passes, older.Counted())
    ensures var recent, all :=
              ComputeStats(attempts, feedback, WINDOW_7D, now), ComputeStats(attempts, feedback, WINDOW_ALL, now);
            DetectRegression(recent, all) == InsufficientSamples <==>
              recent.counts.Counted() < 20 || CountsOf(Older(attempts, now)).Counted() < 20
  {
    var older := CountsOf(Older(attempts, now));
    var p := Comparison(ComputeStats(attempts, feedback, WINDOW_7D, now),
                        ComputeStats(attempts, feedback, WINDOW_ALL, now));
    ComparisonIsSensible(attempts, feedback, now);
    RegressedExactly(attempts, feedback, now);
    SameVerdict(p, Proportions(p.recentPasses, p.recent, older.passes, older.Counted()));
  }

  lemma SameVerdict(p: Proportions, q: Proportions)
    requires p == q
    ensures HasRegressed(p.recentPasses, p.recent, p.baselinePasses, p.baseline)
       <==> HasRegressed(q.recentPasses, q.recent, q.baselinePasses, q.baseline)
  {
  }
}
