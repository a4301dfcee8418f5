/** Reliability statistics: windows, percentiles, the incremental ledger, the factor and the regression test. */
module Reliability {
  import opened Percentiles
  import opened Wrappers

  type Instant = real

  datatype Outcome = Completed | ValidationFailed | ProviderError | Timeout | ContextExceeded | Cancelled

  datatype Attempt = Attempt(at: Instant, outcome: Outcome, latencyMs: Option<int>, outputTokens: Option<int>)

  datatype Feedback = Feedback(at: Instant, accepted: bool, quality: Option<real>, edited: bool,
                               validationPassed: Option<bool>)

  /** How far back a window reaches, or nothing for all time. */
  datatype Window = Window(name: string, seconds: Option<real>)

  const SECONDS_PER_DAY := 86400.0
  const WINDOW_7D := Window("7d", Some(7.0 * SECONDS_PER_DAY))
  const WINDOW_30D := Window("30d", Some(30.0 * SECONDS_PER_DAY))
  const WINDOW_ALL := Window("all", None)

  const PRODUCTION_MINIMUM_SAMPLES := 20
  const MINIMUM_RATE_SAMPLES := 5
  const MINIMUM_MEAN_SAMPLES := 5
  const MINIMUM_PERCENTILE_SAMPLES := 20
  const RELIABILITY_FACTOR_FLOOR := 0.5
  const FEEDBACK_WEIGHT := 0.5
  const EDITED_ACCEPTANCE_CREDIT := 0.5
  const REGRESSION_MINIMUM_SAMPLES := 20
  const REGRESSION_MINIMUM_DROP := 0.15
  const REGRESSION_Z_THRESHOLD := 2.0

  // ------------------------------------------------------------------ windows

  /** `horizon < at <= now`. */
  predicate InWindow(at: Instant, window: Window, now: Instant) {
    at <= now && (window.seconds.Some? ==> at > now - window.seconds.value)
  }

  function AttemptsIn(attempts: seq<Attempt>, window: Window, now: Instant): seq<Attempt> {
    if attempts == [] then []
    else
      var last := attempts[|attempts| - 1];
      AttemptsIn(attempts[..|attempts| - 1], window, now) + (if InWindow(last.at, window, now) then [last] else [])
  }

  function FeedbackIn(feedback: seq<Feedback>, window: Window, now: Instant): seq<Feedback> {
    if feedback == [] then []
    else
      var last := feedback[|feedback| - 1];
      FeedbackIn(feedback[..|feedback| - 1], window, now) + (if InWindow(last.at, window, now) then [last] else [])
  }

  // ------------------------------------------------------------------ statistics

  predicate CountsAsSuccess(outcome: Outcome) {
    outcome == Completed || outcome == ValidationFailed
  }

  function AcceptanceCredit(f: Feedback): real {
    if f.validationPassed == Some(false) || !f.accepted then 0.0
    else if f.edited then EDITED_ACCEPTANCE_CREDIT
    else 1.0
  }

  function TokensPerSecond(a: Attempt): Option<real> {
    if a.latencyMs.None? || a.latencyMs.value <= 0 || a.outputTokens.None? then None
    else Some(a.outputTokens.value as real / (a.latencyMs.value as real / 1000.0))
  }

  /** What one attempt adds to the counts. */
  datatype Counts = Counts(attempts: nat, successes: nat, passes: nat, timeouts: nat, cancellations: nat) {
    function Counted(): int { attempts - cancellations }
    function Errors(): int { attempts - successes - timeouts - cancellations }
  }

  function Counting(c: Counts, a: Attempt): Counts {
    Counts(
      c.attempts + 1,
      if CountsAsSuccess(a.outcome) then c.successes + 1 else c.successes,
      if a.outcome == Completed then c.passes + 1 else c.passes,
      if a.outcome == Timeout then c.timeouts + 1 else c.timeouts,
      if a.outcome == Cancelled then c.cancellations + 1 else c.cancellations)
  }

  function CountsOf(attempts: seq<Attempt>): Counts {
    if attempts == [] then Counts(0, 0, 0, 0, 0)
    else Counting(CountsOf(attempts[..|attempts| - 1]), attempts[|attempts| - 1])
  }

  function Latencies(attempts: seq<Attempt>): seq<int> {
    if attempts == [] then []
    else
      var last := attempts[|attempts| - 1];
      Latencies(attempts[..|attempts| - 1]) + (if last.latencyMs.Some? then [last.latencyMs.value] else [])
  }

  function Tokens(attempts: seq<Attempt>): seq<real> {
    if attempts == [] then []
    else
      var last := attempts[|attempts| - 1];
      Tokens(attempts[..|attempts| - 1]) + (if last.outputTokens.Some? then [last.outputTokens.value as real] else [])
  }

  function Throughputs(attempts: seq<Attempt>): seq<real> {
    if attempts == [] then []
    else
      var tps := TokensPerSecond(attempts[|attempts| - 1]);
      Throughputs(attempts[..|attempts| - 1]) + (if tps.Some? then [tps.value] else [])
  }

  function Credits(feedback: seq<Feedback>): seq<real> {
    if feedback == [] then []
    else Credits(feedback[..|feedback| - 1]) + [AcceptanceCredit(feedback[|feedback| - 1])]
  }

  function Qualities(feedback: seq<Feedback>): seq<real> {
    if feedback == [] then []
    else
      var last := feedback[|feedback| - 1];
      Qualities(feedback[..|feedback| - 1]) + (if last.quality.Some? then [last.quality.value] else [])
  }

  function Sum(values: seq<real>): real {
    if values == [] then 0.0 else Sum(values[..|values| - 1]) + values[|values| - 1]
  }

  /** A mean, or nothing below its minimum sample count. */
  function Mean(values: seq<real>, minimum: nat): Option<real>
    requires minimum > 0
  {
    if |values| < minimum then None else Some(Sum(values) / |values| as real)
  }

  function Quantile(values: seq<int>, q: real): Option<int> {
    if |values| < MINIMUM_PERCENTILE_SAMPLES || Percentile(values, q).Err? then None
    else Some(Percentile(values, q).value)
  }

  datatype Stats = Stats(
    window: string,
    counts: Counts,
    latencyCount: nat,
    p50: Option<int>,
    p95: Option<int>,
    tokenCount: nat,
    meanTokens: Option<real>,
    throughputCount: nat,
    meanThroughput: Option<real>,
    feedbackCount: nat,
    acceptance: Option<real>,
    qualityCount: nat,
    meanQuality: Option<real>)

  function ComputeStats(attempts: seq<Attempt>, feedback: seq<Feedback>, window: Window, now: Instant): Stats {
    var counted, heard := AttemptsIn(attempts, window, now), FeedbackIn(feedback, window, now);
    Stats(
      window.name,
      CountsOf(counted),
      |Latencies(counted)|, Quantile(Latencies(counted), 0.50), Quantile(Latencies(counted), 0.95),
      |Tokens(counted)|, Mean(Tokens(counted), MINIMUM_MEAN_SAMPLES),
      |Throughputs(counted)|, Mean(Throughputs(counted), MINIMUM_MEAN_SAMPLES),
      |Credits(heard)|, Mean(Credits(heard), MINIMUM_RATE_SAMPLES),
      |Qualities(heard)|, Mean(Qualities(heard), MINIMUM_MEAN_SAMPLES))
  }

  // ------------------------------------------------------------------ the ledger

  datatype Ledger = Ledger(window: Window, attempts: seq<Attempt>, feedback: seq<Feedback>) {
    function WithAttempt(a: Attempt): Ledger {
      this.(attempts := attempts + [a])
    }

    function WithFeedback(f: Feedback): Ledger {
      this.(feedback := feedback + [f])
    }

    /** Drops what has left the window; a sample dated after `now` is kept. */
    function Trimmed(now: Instant): Ledger {
      if window.seconds.None? then this
      else
        var horizon := now - window.seconds.value;
        Ledger(window, AttemptsAfter(attempts, horizon), FeedbackAfter(feedback, horizon))
    }

    function StatsAt(now: Instant): Stats {
      ComputeStats(attempts, feedback, window, now)
    }
  }

  function AttemptsAfter(attempts: seq<Attempt>, horizon: Instant): seq<Attempt> {
    if attempts == [] then []
    else
      var last := attempts[|attempts| - 1];
      AttemptsAfter(attempts[..|attempts| - 1], horizon) + (if last.at > horizon then [last] else [])
  }

  function FeedbackAfter(feedback: seq<Feedback>, horizon: Instant): seq<Feedback> {
    if feedback == [] then []
    else
      var last := feedback[|feedback| - 1];
      FeedbackAfter(feedback[..|feedback| - 1], horizon) + (if last.at > horizon then [last] else [])
  }

  datatype Event = SawAttempt(attempt: Attempt) | SawFeedback(feedback: Feedback) | Trim(now: Instant)

  function Folded(ledger: Ledger, event: Event): Ledger {
    match event
    case SawAttempt(a) => ledger.WithAttempt(a)
    case SawFeedback(f) => ledger.WithFeedback(f)
    case Trim(now) => ledger.Trimmed(now)
  }

  function Run(window: Window, events: seq<Event>): Ledger {
    if events == [] then Ledger(window, [], [])
    else Folded(Run(window, events[..|events| - 1]), events[|events| - 1])
  }

  /** Everything the ledger was ever told: the same run with nothing trimmed. */
  function AttemptsTold(events: seq<Event>): seq<Attempt> {
    if events == [] then []
    else
      var last := events[|events| - 1];
      AttemptsTold(events[..|events| - 1]) + (if last.SawAttempt? then [last.attempt] else [])
  }

  function FeedbackTold(events: seq<Event>): seq<Feedback> {
    if events == [] then []
    else
      var last := events[|events| - 1];
      FeedbackTold(events[..|events| - 1]) + (if last.SawFeedback? then [last.feedback] else [])
  }

  lemma AttemptsInAppend(attempts: seq<Attempt>, a: Attempt, window: Window, now: Instant)
    ensures AttemptsIn(attempts + [a], window, now)
         == AttemptsIn(attempts, window, now) + (if InWindow(a.at, window, now) then [a] else [])
  {
    assert (attempts + [a])[..|attempts|] == attempts;
  }

  lemma FeedbackInAppend(feedback: seq<Feedback>, f: Feedback, window: Window, now: Instant)
    ensures FeedbackIn(feedback + [f], window, now)
         == FeedbackIn(feedback, window, now) + (if InWindow(f.at, window, now) then [f] else [])
  {
    assert (feedback + [f])[..|feedback|] == feedback;
  }

  lemma {:induction false} TrimmedAttempts(attempts: seq<Attempt>, window: Window, trim: Instant, now: Instant)
    requires window.seconds.Some? && trim <= now
    ensures AttemptsIn(AttemptsAfter(attempts, trim - window.seconds.value), window, now)
      == AttemptsIn(attempts, window, now)
  {
    if attempts != [] {
      var front, last := attempts[..|attempts| - 1], attempts[|attempts| - 1];
      var kept := AttemptsAfter(front, trim - window.seconds.value);
      TrimmedAttempts(front, window, trim, now);
      AttemptsInAppend(kept, last, window, now);
      assert last.at <= trim - window.seconds.value ==> !InWindow(last.at, window, now) && kept + [] == kept;
    }
  }

  lemma {:induction false} TrimmedFeedback(feedback: seq<Feedback>, window: Window, trim: Instant, now: Instant)
    requires window.seconds.Some? && trim <= now
    ensures FeedbackIn(FeedbackAfter(feedback, trim - window.seconds.value), window, now)
      == FeedbackIn(feedback, window, now)
  {
    if feedback != [] {
      var front, last := feedback[..|feedback| - 1], feedback[|feedback| - 1];
      var kept := FeedbackAfter(front, trim - window.seconds.value);
      TrimmedFeedback(front, window, trim, now);
      FeedbackInAppend(kept, last, window, now);
      assert last.at <= trim - window.seconds.value ==> !InWindow(last.at, window, now) && kept + [] == kept;
    }
  }

  /** A run and the history it was told, in the window at `now`. */
  ghost predicate AgreeAt(ledger: Ledger, attempts: seq<Attempt>, feedback: seq<Feedback>, now: Instant) {
    && AttemptsIn(ledger.attempts, ledger.window, now) == AttemptsIn(attempts, ledger.window, now)
    && FeedbackIn(ledger.feedback, ledger.window, now) == FeedbackIn(feedback, ledger.window, now)
  }

  lemma AttemptKeepsAgreement(ledger: Ledger, attempts: seq<Attempt>, feedback: seq<Feedback>, a: Attempt, now: Instant)
    requires AgreeAt(ledger, attempts, feedback, now)
    ensures AgreeAt(ledger.WithAttempt(a), attempts + [a], feedback, now)
  {
    AttemptsInAppend(ledger.attempts, a, ledger.window, now);
    AttemptsInAppend(attempts, a, ledger.window, now);
  }

  lemma FeedbackKeepsAgreement(ledger: Ledger, attempts: seq<Attempt>, feedback: seq<Feedback>, f: Feedback,
                               now: Instant)
    requires AgreeAt(ledger, attempts, feedback, now)
    ensures AgreeAt(ledger.WithFeedback(f), attempts, feedback + [f], now)
  {
    FeedbackInAppend(ledger.feedback, f, ledger.window, now);
    FeedbackInAppend(feedback, f, ledger.window, now);
  }

  lemma TrimKeepsAgreement(ledger: Ledger, attempts: seq<Attempt>, feedback: seq<Feedback>, trim: Instant, now: Instant)
    requires AgreeAt(ledger, attempts, feedback, now) && trim <= now
    ensures AgreeAt(ledger.Trimmed(trim), attempts, feedback, now)
  {
    if ledger.window.seconds.Some? {
      TrimmedAttempts(ledger.attempts, ledger.window, trim, now);
      TrimmedFeedback(ledger.feedback, ledger.window, trim, now);
    }
  }

  lemma {:induction false} RunKeepsWindow(window: Window, events: seq<Event>)
    ensures Run(window, events).window == window
  {
    if events != [] {
      RunKeepsWindow(window, events[..|events| - 1]);
    }
  }

  lemma {:induction false} LedgerAgrees(window: Window, events: seq<Event>, now: Instant)
    requires forall e | e in events && e.Trim? :: e.now <= now
    ensures AgreeAt(Run(window, events), AttemptsTold(events), FeedbackTold(events), now)
    decreases |events|
  {
    if events != [] {
      var front, last := events[..|events| - 1], events[|events| - 1];
      var ledger, attempts, feedback := Run(window, front), AttemptsTold(front), FeedbackTold(front);
      LedgerAgrees(window, front, now);
      match last {
        case SawAttempt(a) =>
          AttemptKeepsAgreement(ledger, attempts, feedback, a, now);
          assert feedback + [] == feedback;
        case SawFeedback(f) =>
          FeedbackKeepsAgreement(ledger, attempts, feedback, f, now);
          assert attempts + [] == attempts;
        case Trim(trim) =>
          assert last in events;
          TrimKeepsAgreement(ledger, attempts, feedback, trim, now);
          assert attempts + [] == attempts && feedback + [] == feedback;
      }
    }
  }

  /** Whatever was folded and trimmed in whatever order, the ledger's statistics are those of the whole
      history, in every field, at every instant no earlier than the trims. */
  lemma LedgerRefinesRecomputation(window: Window, events: seq<Event>, now: Instant)
    requires forall e | e in events && e.Trim? :: e.now <= now
    ensures Run(window, events).StatsAt(now) == ComputeStats(AttemptsTold(events), FeedbackTold(events), window, now)
  {
    LedgerAgrees(window, events, now);
    RunKeepsWindow(window, events);
  }

  lemma StatsCountTheWindow(attempts: seq<Attempt>, feedback: seq<Feedback>, window: Window, now: Instant)
    ensures ComputeStats(attempts, feedback, window, now).counts.attempts == |AttemptsIn(attempts, window, now)|
  {
    CountsAreSound(AttemptsIn(attempts, window, now));
  }

  lemma OneAttempt(a: Attempt, window: Window, now: Instant, horizon: Instant)
    ensures |AttemptsIn([a], window, now)| == if InWindow(a.at, window, now) then 1 else 0
    ensures a.at <= horizon ==> AttemptsAfter([a], horizon) == []
    ensures AttemptsIn([], window, now) == []
  {
    assert [a][..0] == [];
    assert AttemptsIn([a], window, now)
      == AttemptsIn([], window, now) + (if InWindow(a.at, window, now) then [a] else []);
    assert AttemptsAfter([a], horizon) == AttemptsAfter([], horizon) + (if a.at > horizon then [a] else []);
  }

  /** At an instant before the trim it can fail, for every bounded window: the trim may have dropped a
      sample that was still in the window then. */
  lemma TrimmedLedgerForgetsThePast(window: Window, trim: Instant, now: Instant) returns (ledger: Ledger)
    requires window.seconds.Some? && window.seconds.value > 0.0 && now < trim
    ensures ledger.window == window
    ensures ledger.Trimmed(trim).StatsAt(now) != ledger.StatsAt(now)
  {
    var horizon := trim - window.seconds.value;
    var a := Attempt(if now < horizon then now else horizon, Completed, None, None);
    ledger := Ledger(window, [a], []);
    assert InWindow(a.at, window, now);
    OneAttempt(a, window, now, horizon);
    StatsCountTheWindow([a], [], window, now);
    StatsCountTheWindow([], [], window, now);
    assert ledger.Trimmed(trim) == Ledger(window, [], []);
  }

  /** A trim goes unnoticed in a window's statistics at `now`, whatever the ledger holds. */
  ghost predicate TrimUnnoticed(window: Window, trim: Instant, now: Instant) {
    forall ledger: Ledger | ledger.window == window :: ledger.Trimmed(trim).StatsAt(now) == ledger.StatsAt(now)
  }

  lemma TrimKeepsStats(ledger: Ledger, trim: Instant, now: Instant)
    requires ledger.window.seconds.Some? ==> trim <= now
    ensures ledger.Trimmed(trim).StatsAt(now) == ledger.StatsAt(now)
  {
    if ledger.window.seconds.Some? {
      TrimmedAttempts(ledger.attempts, ledger.window, trim, now);
      TrimmedFeedback(ledger.feedback, ledger.window, trim, now);
    }
  }

  /** Exactly when the window is unbounded or the trim was no later than the question. */
  lemma TrimUnnoticedExactlyWhen(window: Window, trim: Instant, now: Instant)
    requires window.seconds.Some? ==> window.seconds.value > 0.0
    ensures TrimUnnoticed(window, trim, now) <==> window.seconds.None? || trim <= now
  {
    if window.seconds.Some? && trim > now {
      var ledger := TrimmedLedgerForgetsThePast(window, trim, now);
    } else {
      forall ledger: Ledger | ledger.window == window
        ensures ledger.Trimmed(trim).StatsAt(now) == ledger.StatsAt(now)
      {
        TrimKeepsStats(ledger, trim, now);
      }
    }
  }

  // ------------------------------------------------------------------ consistency of the counts

  predicate Sound(c: Counts) {
    c.passes <= c.successes && c.successes + c.timeouts + c.cancellations <= c.attempts
  }

  lemma CountingIsSound(c: Counts, a: Attempt)
    requires Sound(c)
    ensures Sound(Counting(c, a))
  {
  }

  /** The attempts that were neither answered nor timed out nor cancelled. */
  function OtherFailures(attempts: seq<Attempt>): nat {
    if attempts == [] then 0
    else
      OtherFailures(attempts[..|attempts| - 1])
      + (if attempts[|attempts| - 1].outcome in {ProviderError, ContextExceeded} then 1 else 0)
  }

  lemma CountingKeepsErrors(c: Counts, a: Attempt)
    ensures Counting(c, a).Errors() == c.Errors() + (if a.outcome in {ProviderError, ContextExceeded} then 1 else 0)
  {
  }

  /** Every attempt is counted once: as answered, timed out, cancelled or an error, and the errors are
      exactly the provider errors and the exceeded contexts. */
  lemma {:induction false} CountsAreSound(attempts: seq<Attempt>)
    ensures Sound(CountsOf(attempts)) && CountsOf(attempts).attempts == |attempts|
    ensures CountsOf(attempts).Errors() == OtherFailures(attempts)
  {
    if attempts != [] {
      CountsAreSound(attempts[..|attempts| - 1]);
      CountingIsSound(CountsOf(attempts[..|attempts| - 1]), attempts[|attempts| - 1]);
      CountingKeepsErrors(CountsOf(attempts[..|attempts| - 1]), attempts[|attempts| - 1]);
    }
  }

  lemma {:induction false} CreditsSum(feedback: seq<Feedback>)
    ensures |Credits(feedback)| == |feedback|
    ensures 0.0 <= Sum(Credits(feedback)) <= |feedback| as real
  {
    if feedback != [] {
      var front := feedback[..|feedback| - 1];
      CreditsSum(front);
      assert Credits(feedback)[..|Credits(feedback)| - 1] == Credits(front);
    }
  }

  lemma RateIsBounded(part: real, whole: real)
    requires 0.0 <= part <= whole && whole > 0.0
    ensures 0.0 <= part / whole <= 1.0
  {
  }

  /** The statistics that the factor and the regression test read are counts and rates that make sense. */
  predicate Consistent(stats: Stats) {
    && stats.counts.passes <= stats.counts.successes <= stats.counts.Counted()
    && (stats.acceptance.Some? ==> 0.0 <= stats.acceptance.value <= 1.0)
    && (stats.acceptance.Some? <==> stats.feedbackCount >= MINIMUM_RATE_SAMPLES)
  }

  lemma ComputedStatsAreConsistent(attempts: seq<Attempt>, feedback: seq<Feedback>, window: Window, now: Instant)
    ensures Consistent(ComputeStats(attempts, feedback, window, now))
  {
    var heard := FeedbackIn(feedback, window, now);
    CountsAreSound(AttemptsIn(attempts, window, now));
    CreditsSum(heard);
    if |heard| >= MINIMUM_RATE_SAMPLES {
      RateIsBounded(Sum(Credits(heard)), |heard| as real);
    }
  }

  // ------------------------------------------------------------------ the factor

  datatype Factor = Factor(value: real, window: Option<string>, attempts: int)

  function SuccessRate(stats: Stats): real
    requires stats.counts.Counted() > 0
  {
    stats.counts.successes as real / stats.counts.Counted() as real
  }

  function ValidationRate(stats: Stats): real {
    if stats.counts.successes == 0 then 1.0 else stats.counts.passes as real / stats.counts.successes as real
  }

  function FeedbackTerm(stats: Stats): real {
    if stats.feedbackCount >= MINIMUM_RATE_SAMPLES && stats.acceptance.Some? then
      1.0 - FEEDBACK_WEIGHT * (1.0 - stats.acceptance.value)
    else
      1.0
  }

  predicate Qualifies(stats: Option<Stats>) {
    stats.Some? && stats.value.counts.Counted() >= PRODUCTION_MINIMUM_SAMPLES
  }

  function FromProduct(product: real): real {
    RELIABILITY_FACTOR_FLOOR + (1.0 - RELIABILITY_FACTOR_FLOOR) * product
  }

  function LiveFactor(stats: Stats): Factor
    requires stats.counts.Counted() > 0
  {
    Factor(FromProduct(TermsProduct(stats)), Some(stats.window), stats.counts.Counted())
  }

  function TermsProduct(stats: Stats): real
    requires stats.counts.Counted() > 0
  {
    SuccessRate(stats) * ValidationRate(stats) * FeedbackTerm(stats)
  }

  function CountedIn(stats: Option<Stats>): int {
    if stats.None? then 0 else stats.value.counts.Counted()
  }

  /** The freshest window with enough samples decides; with none, the factor is neutral. */
  function ReliabilityFactor(week: Option<Stats>, month: Option<Stats>): Factor {
    if Qualifies(week) then LiveFactor(week.value)
    else if Qualifies(month) then LiveFactor(month.value)
    else Factor(1.0, None, if CountedIn(week) >= CountedIn(month) then CountedIn(week) else CountedIn(month))
  }

  lemma ProductIsBounded(x: real, y: real)
    requires 0.0 <= x <= 1.0 && 0.0 <= y <= 1.0
    ensures 0.0 <= x * y <= 1.0
    ensures x * y == 1.0 ==> x == 1.0 && y == 1.0
    ensures x * y == 0.0 ==> x == 0.0 || y == 0.0
  {
    assert x * y <= x && x * y <= y;
  }

  lemma RateIsOne(part: real, whole: real)
    requires whole > 0.0 && part / whole == 1.0
    ensures part == whole
  {
    assert part == (part / whole) * whole;
  }

  lemma TermsAreBounded(stats: Stats)
    requires Consistent(stats) && stats.counts.Counted() > 0
    ensures 0.0 <= SuccessRate(stats) <= 1.0 && 0.0 <= ValidationRate(stats) <= 1.0 && 0.0 <= FeedbackTerm(stats) <= 1.0
    ensures SuccessRate(stats) == 1.0 && ValidationRate(stats) == 1.0 ==>
      stats.counts.passes == stats.counts.successes == stats.counts.Counted()
    ensures FeedbackTerm(stats) == 1.0 && stats.acceptance.Some? ==> stats.acceptance.value == 1.0
  {
    var c := stats.counts;
    RateIsBounded(c.successes as real, c.Counted() as real);
    if c.successes > 0 {
      RateIsBounded(c.passes as real, c.successes as real);
    }
    if SuccessRate(stats) == 1.0 && ValidationRate(stats) == 1.0 {
      RateIsOne(c.successes as real, c.Counted() as real);
      RateIsOne(c.passes as real, c.successes as real);
    }
  }

  lemma LiveFactorIsBounded(stats: Stats)
    requires Consistent(stats) && stats.counts.Counted() > 0
    ensures RELIABILITY_FACTOR_FLOOR <= LiveFactor(stats).value <= 1.0
    ensures LiveFactor(stats).value == 1.0 ==>
      stats.counts.passes == stats.counts.successes == stats.counts.Counted()
        && (stats.acceptance.Some? ==> stats.acceptance.value == 1.0)
  {
    TermsAreBounded(stats);
    FactorOfTerms(SuccessRate(stats), ValidationRate(stats), FeedbackTerm(stats), TermsProduct(stats));
  }

  lemma FactorOfTerms(s: real, v: real, f: real, product: real)
    requires 0.0 <= s <= 1.0 && 0.0 <= v <= 1.0 && 0.0 <= f <= 1.0
    requires product == s * v * f
    ensures RELIABILITY_FACTOR_FLOOR <= FromProduct(product) <= 1.0
    ensures FromProduct(product) == 1.0 ==> s == 1.0 && v == 1.0 && f == 1.0
  {
    ProductIsBounded(s, v);
    ProductIsBounded(s * v, f);
    FloorAndRest(product);
  }

  lemma FloorAndRest(product: real)
    requires 0.0 <= product <= 1.0
    ensures RELIABILITY_FACTOR_FLOOR <= FromProduct(product) <= 1.0
    ensures FromProduct(product) == 1.0 ==> product == 1.0
  {
  }

  /** Production evidence at most halves a candidate, never helps it, and leaves it exactly alone when
      no window has enough samples. A live factor is 1 only for a window with nothing against it. */
  lemma FactorIsBounded(week: Option<Stats>, month: Option<Stats>)
    requires week.Some? ==> Consistent(week.value)
    requires month.Some? ==> Consistent(month.value)
    ensures var factor := ReliabilityFactor(week, month);
            && RELIABILITY_FACTOR_FLOOR <= factor.value <= 1.0
            && (factor.window.None? <==> !Qualifies(week) && !Qualifies(month))
            && (factor.window.None? ==> factor.value == 1.0)
            && (factor.window.Some? && factor.value == 1.0 ==>
                 var stats := if Qualifies(week) then week.value else month.value;
                 stats.counts.passes == stats.counts.successes == stats.counts.Counted()
                 && (stats.acceptance.Some? ==> stats.acceptance.value == 1.0))
  {
    if Qualifies(week) {
      LiveFactorIsBounded(week.value);
    } else if Qualifies(month) {
      LiveFactorIsBounded(month.value);
    }
  }

  lemma CountedMaybe(attempts: seq<Attempt>, a: Attempt, kept: bool)
    ensures CountsOf(attempts + (if kept then [a] else [])).Counted()
         == CountsOf(attempts).Counted() + (if kept && a.outcome != Cancelled then 1 else 0)
  {
    CountsOfMaybe(attempts, a, kept);
  }

  lemma {:induction false} ShorterCountsLess(attempts: seq<Attempt>, short: Window, long: Window, now: Instant)
    requires short.seconds.Some? && long.seconds.Some? && short.seconds.value <= long.seconds.value
    ensures CountsOf(AttemptsIn(attempts, short, now)).Counted() <= CountsOf(AttemptsIn(attempts, long, now)).Counted()
  {
    if attempts != [] {
      var front, last := attempts[..|attempts| - 1], attempts[|attempts| - 1];
      var inShort, inLong := InWindow(last.at, short, now), InWindow(last.at, long, now);
      ShorterCountsLess(front, short, long, now);
      CountedMaybe(AttemptsIn(front, short, now), last, inShort);
      CountedMaybe(AttemptsIn(front, long, now), last, inLong);
      assert inShort ==> inLong;
    }
  }

  /** The factor of a history at `now`. */
  function FactorAt(attempts: seq<Attempt>, feedback: seq<Feedback>, now: Instant): Factor {
    ReliabilityFactor(Some(ComputeStats(attempts, feedback, WINDOW_7D, now)),
                      Some(ComputeStats(attempts, feedback, WINDOW_30D, now)))
  }

  /** On one history the factor is within its bounds and neutral exactly when a month has too few samples. */
  lemma FactorOfOneHistory(attempts: seq<Attempt>, feedback: seq<Feedback>, now: Instant)
    ensures RELIABILITY_FACTOR_FLOOR <= FactorAt(attempts, feedback, now).value <= 1.0
    ensures FactorAt(attempts, feedback, now).window.None?
       <==> CountsOf(AttemptsIn(attempts, WINDOW_30D, now)).Counted() < PRODUCTION_MINIMUM_SAMPLES
  {
    ComputedStatsAreConsistent(attempts, feedback, WINDOW_7D, now);
    ComputedStatsAreConsistent(attempts, feedback, WINDOW_30D, now);
    ShorterCountsLess(attempts, WINDOW_7D, WINDOW_30D, now);
    FactorIsBounded(Some(ComputeStats(attempts, feedback, WINDOW_7D, now)),
                    Some(ComputeStats(attempts, feedback, WINDOW_30D, now)));
  }

  // ------------------------------------------------------------------ regression

  datatype Status = Regressed | Stable | InsufficientSamples

  /** The two proportions the test compares. */
  datatype Proportions = Proportions(recentPasses: int, recent: int, baselinePasses: int, baseline: int) {
    predicate Sensible() {
      0 <= recentPasses <= recent && 0 <= baselinePasses <= baseline
    }

    function Drop(): real
      requires recent > 0 && baseline > 0
    {
      baselinePasses as real / baseline as real - recentPasses as real / recent as real
    }

    function Pooled(): real
      requires recent > 0 && baseline > 0
    {
      (recentPasses + baselinePasses) as real / (recent + baseline) as real
    }

    function Variance(): real
      requires recent > 0 && baseline > 0
    {
      Pooled() * (1.0 - Pooled()) * (1.0 / recent as real + 1.0 / baseline as real)
    }
  }

  function Comparison(recent: Stats, allTime: Stats): Proportions {
    Proportions(recent.counts.passes, recent.counts.Counted(),
                allTime.counts.passes - recent.counts.passes, allTime.counts.Counted() - recent.counts.Counted())
  }

  predicate Enough(p: Proportions) {
    p.recent >= REGRESSION_MINIMUM_SAMPLES && p.baseline >= REGRESSION_MINIMUM_SAMPLES
  }

  /** `z >= 2` said without the square root; a zero variance gives a score of zero. */
  predicate ZReaches(drop: real, variance: real) {
    variance != 0.0 && drop >= 0.0 && drop * drop >= REGRESSION_Z_THRESHOLD * REGRESSION_Z_THRESHOLD * variance
  }

  function DetectRegression(recent: Stats, allTime: Stats): Status {
    var p := Comparison(recent, allTime);
    if !Enough(p) then InsufficientSamples
    else if p.Drop() >= REGRESSION_MINIMUM_DROP && ZReaches(p.Drop(), p.Variance()) then Regressed
    else Stable
  }

  /** The attempts before the recent window. */
  function Older(attempts: seq<Attempt>, now: Instant): seq<Attempt> {
    if attempts == [] then []
    else
      var last := attempts[|attempts| - 1];
      Older(attempts[..|attempts| - 1], now)
      + (if InWindow(last.at, WINDOW_ALL, now) && !InWindow(last.at, WINDOW_7D, now) then [last] else [])
  }

  lemma CountsOfMaybe(attempts: seq<Attempt>, a: Attempt, kept: bool)
    ensures CountsOf(attempts + (if kept then [a] else []))
      == if kept then Counting(CountsOf(attempts), a) else CountsOf(attempts)
  {
    assert (attempts + [a])[..|attempts|] == attempts;
    assert attempts + [] == attempts;
  }

  /** `all` is `recent` and `older` together. */
  predicate AddsUp(all: Counts, recent: Counts, older: Counts) {
    all.Counted() == recent.Counted() + older.Counted() && all.passes == recent.passes + older.passes
  }

  lemma AddsUpStep(all: Counts, recent: Counts, older: Counts, a: Attempt)
    requires AddsUp(all, recent, older)
    ensures AddsUp(Counting(all, a), Counting(recent, a), older) && AddsUp(Counting(all, a), recent, Counting(older, a))
  {
  }

  /** Counts subtract exactly: all time minus the recent window is what came before it. */
  lemma {:induction false} BaselineIsTheOlderAttempts(attempts: seq<Attempt>, now: Instant)
    ensures AddsUp(CountsOf(AttemptsIn(attempts, WINDOW_ALL, now)), CountsOf(AttemptsIn(attempts, WINDOW_7D, now)),
                   CountsOf(Older(attempts, now)))
  {
    if attempts != [] {
      var front, last := attempts[..|attempts| - 1], attempts[|attempts| - 1];
      var all, recent, older := AttemptsIn(front, WINDOW_ALL, now), AttemptsIn(front, WINDOW_7D, now),
        Older(front, now);
      var inAll, inRecent := InWindow(last.at, WINDOW_ALL, now), InWindow(last.at, WINDOW_7D, now);
      BaselineIsTheOlderAttempts(front, now);
      AddsUpStep(CountsOf(all), CountsOf(recent), CountsOf(older), last);
      CountsOfMaybe(all, last, inAll);
      CountsOfMaybe(recent, last, inRecent);
      CountsOfMaybe(older, last, inAll && !inRecent);
    }
  }

  lemma StatsHoldTheCounts(attempts: seq<Attempt>, feedback: seq<Feedback>, window: Window, now: Instant)
    ensures ComputeStats(attempts, feedback, window, now).counts == CountsOf(AttemptsIn(attempts, window, now))
  {
  }

  lemma ProportionsAreSensible(recent: Stats, all: Stats, older: Counts)
    requires AddsUp(all.counts, recent.counts, older) && Sound(recent.counts) && Sound(older)
    ensures var p := Comparison(recent, all);
            p.Sensible() && p.baseline == older.Counted() && p.baselinePasses == older.passes
  {
  }

  /** On one history both proportions are proportions, so the rates are in `[0, 1]`. */
  lemma ComparisonIsSensible(attempts: seq<Attempt>, feedback: seq<Feedback>, now: Instant)
    ensures var recent := ComputeStats(attempts, feedback, WINDOW_7D, now);
            var all := ComputeStats(attempts, feedback, WINDOW_ALL, now);
            var p, older := Comparison(recent, all), CountsOf(Older(attempts, now));
            p.Sensible() && p.baseline == older.Counted() && p.baselinePasses == older.passes
  {
    var recent := ComputeStats(attempts, feedback, WINDOW_7D, now);
    var all := ComputeStats(attempts, feedback, WINDOW_ALL, now);
    BaselineIsTheOlderAttempts(attempts, now);
    StatsHoldTheCounts(attempts, feedback, WINDOW_7D, now);
    StatsHoldTheCounts(attempts, feedback, WINDOW_ALL, now);
    CountsAreSound(AttemptsIn(attempts, WINDOW_7D, now));
    CountsAreSound(Older(attempts, now));
    ProportionsAreSensible(recent, all, CountsOf(Older(attempts, now)));
  }

  lemma FactorIsZero(x: real, y: real, z: real)
    requires z > 0.0 && x * y * z == 0.0
    ensures x == 0.0 || y == 0.0
  {
  }

  lemma RateOfNone(whole: real)
    requires whole > 0.0
    ensures 0.0 / whole == 0.0 && whole / whole == 1.0
  {
  }

  lemma RateIsZero(part: real, whole: real)
    requires whole > 0.0 && part / whole == 0.0
    ensures part == 0.0
  {
    assert part == (part / whole) * whole;
  }

  /** With no variance every attempt passed, or none did: there is no drop for a zero score to hide. */
  lemma NoVarianceNoDrop(p: Proportions)
    requires p.Sensible() && p.recent > 0 && p.baseline > 0 && p.Variance() == 0.0
    ensures p.Drop() == 0.0
  {
    var n, m := p.recent as real, p.baseline as real;
    assert 1.0 / n > 0.0 && 1.0 / m > 0.0;
    FactorIsZero(p.Pooled(), 1.0 - p.Pooled(), 1.0 / n + 1.0 / m);
    if p.Pooled() == 0.0 {
      RateIsZero((p.recentPasses + p.baselinePasses) as real, (p.recent + p.baseline) as real);
    } else {
      RateIsOne((p.recentPasses + p.baselinePasses) as real, (p.recent + p.baseline) as real);
    }
    RateOfNone(n);
    RateOfNone(m);
  }

  /** The verdict on one history: a regression is a drop of at least fifteen points whose square is at
      least four variances, with enough samples on both sides; the guard on the variance costs nothing. */
  lemma RegressionIsExact(attempts: seq<Attempt>, feedback: seq<Feedback>, now: Instant)
    ensures var recent, all :=
              ComputeStats(attempts, feedback, WINDOW_7D, now), ComputeStats(attempts, feedback, WINDOW_ALL, now);
            var p := Comparison(recent, all);
            && (DetectRegression(recent, all) == Regressed <==>
                 Enough(p) && p.Drop() >= REGRESSION_MINIMUM_DROP && p.Drop() * p.Drop() >= 4.0 * p.Variance())
            && (Enough(p) ==> -1.0 <= p.Drop() <= 1.0)
  {
    var p := Comparison(ComputeStats(attempts, feedback, WINDOW_7D, now),
                        ComputeStats(attempts, feedback, WINDOW_ALL, now));
    ComparisonIsSensible(attempts, feedback, now);
    if Enough(p) {
      RateIsBounded(p.recentPasses as real, p.recent as real);
      RateIsBounded(p.baselinePasses as real, p.baseline as real);
      if p.Variance() == 0.0 {
        NoVarianceNoDrop(p);
      }
    }
  }
}
