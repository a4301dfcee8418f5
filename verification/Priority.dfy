/** Job classes, priority bands and the ageing arithmetic. */
module Priority {
  import opened Wrappers

  datatype JobClass = Interactive | Normal | Background | Batch

  /** Instants and durations are in seconds. */
  type Instant = real

  const AGEING_EPSILON_POINTS: real := 0.000001

  /** The inclusive `(bottom, top)` band of a class. */
  function Band(jobClass: JobClass): (int, int) {
    match jobClass
    case Interactive => (800, 999)
    case Normal => (400, 799)
    case Background => (100, 399)
    case Batch => (0, 99)
  }

  predicate InBand(jobClass: JobClass, priority: int) {
    Band(jobClass).0 <= priority <= Band(jobClass).1
  }

  /** The base priority of a submission; a number outside the class's band is refused. */
  function BasePriority(jobClass: JobClass, requested: Option<int>): (r: Result<int, string>)
    ensures r.Ok? <==> (requested.Some? ==> InBand(jobClass, requested.value))
    ensures r.Ok? ==> InBand(jobClass, r.value)
    ensures r.Ok? && requested.Some? ==> r.value == requested.value
    ensures requested.None? ==> forall n | InBand(jobClass, n) :: r.value <= n
  {
    var (bottom, top) := Band(jobClass);
    if requested.None? then
      Ok(bottom)
    else if requested.value < bottom || requested.value > top then
      Err("VALIDATION_ERROR")
    else
      Ok(requested.value)
  }

  function Cap(jobClass: JobClass, overflow: nat): int {
    Band(jobClass).1 + overflow
  }

  function Min(a: int, b: int): int { if a <= b then a else b }

  function MaxReal(a: real, b: real): real { if a >= b then a else b }

  function Points(minutes: real, rate: real): real { minutes * rate + AGEING_EPSILON_POINTS }

  /** The definition: `base + floor(minutes * rate)`, capped. */
  function EffectivePriority(base: int, jobClass: JobClass, waiting: real, rate: real, overflow: nat): int {
    var minutes := MaxReal(waiting, 0.0) / 60.0;
    var aged := base + Points(minutes, rate).Floor;
    Min(aged, Cap(jobClass, overflow))
  }

  /** Points a job has aged by `now`, as the set-based statement computes them: the points, not the
      minutes, are clamped at zero. */
  function AgedPoints(queuedAt: Instant, now: Instant, rate: real): real {
    var minutes := (now - queuedAt) / 60.0;
    MaxReal(Points(minutes, rate), 0.0)
  }

  /** The set-based statement's expression, with literal band tops and `batch` as the fallback. */
  function SweepPriority(base: int, jobClass: JobClass, queuedAt: Instant, now: Instant, rate: real,
                         overflow: nat): int {
    var aged := base + AgedPoints(queuedAt, now, rate).Floor;
    var top := if jobClass == Interactive then 999 else if jobClass == Normal then 799
               else if jobClass == Background then 399 else 99;
    Min(aged, top + overflow)
  }

  /** The statement computes the definition, row by row. */
  lemma SweepMatchesDefinition(base: int, jobClass: JobClass, queuedAt: Instant, now: Instant, rate: real,
                               overflow: nat)
    requires rate >= 0.0
    ensures SweepPriority(base, jobClass, queuedAt, now, rate, overflow)
         == EffectivePriority(base, jobClass, now - queuedAt, rate, overflow)
  {
    var minutes, clamped := (now - queuedAt) / 60.0, MaxReal(now - queuedAt, 0.0) / 60.0;
    assert clamped == MaxReal(minutes, 0.0);
    ClampingCommutes(minutes, rate);
    assert AgedPoints(queuedAt, now, rate).Floor == Points(clamped, rate).Floor;
  }

  /** Clamping the points or the minutes at zero comes to the same number of whole points. */
  lemma ClampingCommutes(minutes: real, rate: real)
    requires rate >= 0.0
    ensures MaxReal(Points(minutes, rate), 0.0).Floor == Points(MaxReal(minutes, 0.0), rate).Floor
  {
    if minutes < 0.0 {
      NonPositiveProduct(minutes, rate);
      ZeroProduct(MaxReal(minutes, 0.0), rate);
    } else {
      NonNegativeProduct(minutes, rate);
    }
    FloorOfClamped(minutes * rate, MaxReal(minutes, 0.0) * rate);
  }

  lemma FloorOfClamped(points: real, clamped: real)
    requires (points <= 0.0 && clamped == 0.0) || (points >= 0.0 && clamped == points)
    ensures MaxReal(points + AGEING_EPSILON_POINTS, 0.0).Floor == (clamped + AGEING_EPSILON_POINTS).Floor
  {
    if points <= 0.0 {
      SmallFloor(MaxReal(points + AGEING_EPSILON_POINTS, 0.0));
    }
  }

  lemma SmallFloor(x: real)
    requires 0.0 <= x <= AGEING_EPSILON_POINTS
    ensures x.Floor == 0 == AGEING_EPSILON_POINTS.Floor
  {
  }

  lemma ZeroProduct(x: real, y: real)
    requires x == 0.0
    ensures x * y == 0.0
  {
  }

  lemma NonPositiveProduct(x: real, y: real)
    requires x <= 0.0 && y >= 0.0
    ensures x * y <= 0.0
  {
  }

  lemma NonNegativeProduct(x: real, y: real)
    requires x >= 0.0 && y >= 0.0
    ensures x * y >= 0.0
  {
  }

  lemma MonotoneProduct(x: real, y: real, rate: real)
    requires x <= y && rate >= 0.0
    ensures x * rate <= y * rate
  {
    NonNegativeProduct(y - x, rate);
    assert y * rate == x * rate + (y - x) * rate;
  }

  /** Ageing never lowers a job below its base and never lifts it above its class's cap. */
  lemma SweepStaysInRange(base: int, jobClass: JobClass, queuedAt: Instant, now: Instant, rate: real, overflow: nat)
    requires InBand(jobClass, base)
    ensures base <= SweepPriority(base, jobClass, queuedAt, now, rate, overflow) <= Cap(jobClass, overflow)
  {
  }

  lemma AgedPointsMonotone(queuedAt: Instant, now: Instant, later: Instant, rate: real)
    requires rate >= 0.0 && now <= later
    ensures AgedPoints(queuedAt, now, rate) <= AgedPoints(queuedAt, later, rate)
  {
    var early, late := (now - queuedAt) / 60.0, (later - queuedAt) / 60.0;
    MonotoneProduct(early, late, rate);
    assert AgedPoints(queuedAt, now, rate) == MaxReal(early * rate + AGEING_EPSILON_POINTS, 0.0);
    assert AgedPoints(queuedAt, later, rate) == MaxReal(late * rate + AGEING_EPSILON_POINTS, 0.0);
  }

  /** A later sweep never lowers a priority. */
  lemma SweepIsMonotone(base: int, jobClass: JobClass, queuedAt: Instant, now: Instant, later: Instant, rate: real,
                        overflow: nat)
    requires rate >= 0.0 && now <= later
    ensures SweepPriority(base, jobClass, queuedAt, now, rate, overflow)
         <= SweepPriority(base, jobClass, queuedAt, later, rate, overflow)
  {
    AgedPointsMonotone(queuedAt, now, later, rate);
    FloorShift(AgedPoints(queuedAt, later, rate), AgedPoints(queuedAt, now, rate), 0);
  }

  /** When A's extra waiting is worth at least B's head start, one sweep ranks A no lower than B. */
  lemma SweepOrdersByWaiting(
      baseA: int, baseB: int, jobClass: JobClass, queuedA: Instant, queuedB: Instant,
      now: Instant, rate: real, overflow: nat)
    requires rate >= 0.0
    requires queuedA <= now && queuedB <= now
    requires (queuedB - queuedA) / 60.0 * rate >= (baseB - baseA) as real
    ensures SweepPriority(baseA, jobClass, queuedA, now, rate, overflow)
         >= SweepPriority(baseB, jobClass, queuedB, now, rate, overflow)
  {
    var a, b := (now - queuedA) / 60.0, (now - queuedB) / 60.0;
    assert a * rate == b * rate + (queuedB - queuedA) / 60.0 * rate;
    NonNegativeProduct(a, rate);
    NonNegativeProduct(b, rate);
    FloorShift(AgedPoints(queuedA, now, rate), AgedPoints(queuedB, now, rate), baseB - baseA);
  }

  lemma FloorShift(x: real, y: real, k: int)
    requires x >= y + k as real
    ensures x.Floor >= y.Floor + k
  {
  }

  /** A waiting job has gained `k` points once its minutes at the rate come to `k`, up to a millionth of a point,
      and no sooner; what is above the cap is cut off. */
  lemma PointsInWords(base: int, jobClass: JobClass, waiting: real, rate: real, overflow: nat, k: int)
    requires waiting >= 0.0 && rate >= 0.0 && k >= 1
    ensures var cap := Band(jobClass).1 + overflow;
            && (base + k <= cap ==>
                  (EffectivePriority(base, jobClass, waiting, rate, overflow) >= base + k
                   <==> waiting / 60.0 * rate >= k as real - 0.000001))
            && EffectivePriority(base, jobClass, waiting, rate, overflow) <= cap
  {
    var x := waiting / 60.0 * rate + 0.000001;
    assert Points(waiting / 60.0, rate) == x;
    assert x.Floor as real <= x < x.Floor as real + 1.0;
    if x >= k as real {
      assert x.Floor >= k;
    } else {
      assert x.Floor < k;
    }
  }

  /** The bands part the priorities from 0 to 999 among the classes, the more urgent above. */
  lemma BandsPartition(n: int)
    ensures 0 <= n <= 99 <==> InBand(Batch, n)
    ensures 100 <= n <= 399 <==> InBand(Background, n)
    ensures 400 <= n <= 799 <==> InBand(Normal, n)
    ensures 800 <= n <= 999 <==> InBand(Interactive, n)
  {
  }
}
