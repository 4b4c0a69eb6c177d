/** Welford's running mean and variance against the two-pass definitions, over exact reals. */
module StatisticalBaseline {
  import opened Options
  import opened FixTypes
  import opened Alerts

  datatype RunningStats = RunningStats(count: nat, mean: real, m2: real)

  const FRESH := RunningStats(0, 0.0, 0.0)

  function Update(s: RunningStats, value: real): RunningStats {
    var count := s.count + 1;
    var delta := value - s.mean;
    var mean := s.mean + delta / count as real;
    RunningStats(count, mean, s.m2 + delta * (value - mean))
  }

  function SampleVariance(s: RunningStats): real {
    if s.count > 1 then s.m2 / (s.count - 1) as real else 0.0
  }

  /** The accumulator after a sequence of values. */
  function Accumulate(values: seq<real>): RunningStats {
    if values == [] then FRESH else Update(Accumulate(values[..|values| - 1]), values[|values| - 1])
  }

  // ------------------------------------------------------- the two-pass reference

  function Sum(values: seq<real>): real {
    if values == [] then 0.0 else Sum(values[..|values| - 1]) + values[|values| - 1]
  }

  function SquaredDeviations(values: seq<real>, centre: real): real {
    if values == [] then 0.0
    else
      SquaredDeviations(values[..|values| - 1], centre) + Square(values[|values| - 1] - centre)
  }

  function Square(d: real): real {
    d * d
  }

  lemma SquareOfSum(a: real, b: real)
    ensures (a + b) * (a + b) == a * a + 2.0 * a * b + b * b
  {
  }

  /** What moving the centre by `d` adds to the squared deviations of `n` values with the given sum. */
  function Shift(sum: real, n: real, m: real, d: real): real {
    n * Square(d) - 2.0 * d * (sum - n * m)
  }

  lemma ShiftStep(sum: real, n: real, next: real, x: real, m: real, d: real)
    requires next == n + 1.0
    ensures Shift(sum, n, m, d) + Square(x - (m + d)) == Square(x - m) + Shift(sum + x, next, m, d)
  {
    SquareOfSum(x - m, -d);
    assert x - (m + d) == (x - m) + -d;
    assert 2.0 * (x - m) * -d == -2.0 * d * (x - m);
    assert -2.0 * d * (sum - n * m) + -2.0 * d * (x - m) == -2.0 * d * ((sum - n * m) + (x - m));
    assert (sum - n * m) + (x - m) == sum + x - next * m;
    assert n * (d * d) + d * d == next * (d * d);
  }

  lemma {:induction false} MoveCentre(values: seq<real>, m: real, d: real)
    ensures SquaredDeviations(values, m + d) == SquaredDeviations(values, m) + Shift(Sum(values), |values| as real, m, d)
  {
    if values != [] {
      var init, x := values[..|values| - 1], values[|values| - 1];
      hide Shift, Square;
      MoveCentre(init, m, d);
      ShiftStep(Sum(init), |init| as real, |values| as real, x, m, d);
    }
  }

  /** One Welford step, with `d` the change of the mean. */
  lemma WelfordStep(n: real, next: real, mean: real, d: real, x: real, sum: real)
    requires sum == n * mean && x - mean == next * d && next == n + 1.0
    ensures next * (mean + d) == sum + x
    ensures n * (d * d) + (x - (mean + d)) * (x - (mean + d)) == (x - mean) * (x - (mean + d))
  {
    assert next * (mean + d) == n * mean + mean + next * d;
    assert next * d == n * d + d;
    assert x - (mean + d) == n * d;
    assert (x - mean) * (n * d) == (n * d + d) * (n * d);
    assert (n * d + d) * (n * d) == (n * d) * (n * d) + d * (n * d);
    assert d * (n * d) == n * (d * d);
  }

  lemma Quotient(a: real, b: real)
    requires b != 0.0
    ensures b * (a / b) == a
  {
  }

  /** Away from their own mean, squared deviations grow by the square of the distance for each value. */
  lemma AwayFromTheMean(values: seq<real>, m: real, d: real)
    requires |values| as real * m == Sum(values)
    ensures SquaredDeviations(values, m + d) == SquaredDeviations(values, m) + |values| as real * (d * d)
  {
    MoveCentre(values, m, d);
    hide SquaredDeviations, Sum;
    var gap := Sum(values) - |values| as real * m;
    assert gap == 0.0 && 2.0 * d * gap == 0.0;
  }

  /** The accumulator holds the count, the sum as `mean * count`, and the squared deviations from the mean. */
  ghost predicate IsTwoPass(values: seq<real>, s: RunningStats) {
    s.count == |values| && |values| as real * s.mean == Sum(values) && s.m2 == SquaredDeviations(values, s.mean)
  }

  lemma OneMoreValue(init: seq<real>, x: real, centre: real)
    ensures Sum(init + [x]) == Sum(init) + x
    ensures SquaredDeviations(init + [x], centre) == SquaredDeviations(init, centre) + Square(x - centre)
  {
    assert (init + [x])[..|init|] == init;
  }

  lemma UpdateIsTwoPass(init: seq<real>, x: real, s: RunningStats)
    requires IsTwoPass(init, s)
    ensures IsTwoPass(init + [x], Update(s, x))
  {
    hide Sum, SquaredDeviations;
    var delta := x - s.mean;
    var next := (s.count + 1) as real;
    var d := delta / next;
    Quotient(delta, next);
    WelfordStep(|init| as real, next, s.mean, d, x, Sum(init));
    AwayFromTheMean(init, s.mean, d);
    OneMoreValue(init, x, s.mean + d);
    assert Update(s, x) == RunningStats(s.count + 1, s.mean + d, s.m2 + delta * (x - (s.mean + d)));
  }

  /** After any values Welford's accumulator agrees with the two-pass definitions. */
  lemma {:induction false} WelfordIsTwoPass(values: seq<real>)
    ensures IsTwoPass(values, Accumulate(values))
  {
    if values != [] {
      hide IsTwoPass, Update;
      var init, x := values[..|values| - 1], values[|values| - 1];
      WelfordIsTwoPass(init);
      UpdateIsTwoPass(init, x, Accumulate(init));
      assert init + [x] == values;
    }
  }

  lemma SquareNonNegative(d: real)
    ensures Square(d) >= 0.0
  {
    if d < 0.0 {
      ProductPositive(-d, -d);
      assert d * d == -d * -d;
    } else if d > 0.0 {
      ProductPositive(d, d);
    }
  }

  lemma ProductPositive(a: real, b: real)
    requires a > 0.0 && b > 0.0
    ensures a * b > 0.0
  {
  }

  lemma SquarePositive(root: real, square: real)
    requires root > 0.0 && square == root * root
    ensures square > 0.0
  {
    ProductPositiveIs(root, root, square);
  }

  lemma ProductPositiveIs(a: real, b: real, product: real)
    requires a > 0.0 && b > 0.0 && product == a * b
    ensures product > 0.0
  {
    if product <= 0.0 {
      ProductPositive(a, b);
      assert false;
    }
  }

  lemma {:induction false} DeviationsNonNegative(values: seq<real>, centre: real)
    ensures SquaredDeviations(values, centre) >= 0.0
  {
    if values != [] {
      DeviationsNonNegative(values[..|values| - 1], centre);
      SquareNonNegative(values[|values| - 1] - centre);
    }
  }

  lemma M2NonNegative(values: seq<real>)
    ensures Accumulate(values).m2 >= 0.0 && SampleVariance(Accumulate(values)) >= 0.0
  {
    WelfordIsTwoPass(values);
    DeviationsNonNegative(values, Accumulate(values).mean);
  }

  /** The variance is the sample variance of the two-pass definition; fewer than two values have none. */
  lemma VarianceIsTwoPass(values: seq<real>)
    ensures var variance, mean := SampleVariance(Accumulate(values)), Accumulate(values).mean;
            && (values != [] ==> mean * |values| as real == Sum(values))
            && (|values| < 2 ==> variance == 0.0)
            && (|values| >= 2 ==> variance * (|values| - 1) as real == SquaredDeviations(values, mean))
  {
    WelfordIsTwoPass(values);
    hide SquaredDeviations, Sum, Accumulate;
    if |values| >= 2 {
      Quotient(Accumulate(values).m2, (|values| - 1) as real);
    }
  }

  // ----------------------------------------------------------------- detector

  datatype Config = Config(zScoreThreshold: real, minSampleCount: int)

  datatype Key = Key(accountId: string, instrumentId: string)

  function Magnitude(x: real): real {
    if x >= 0.0 then x else -x
  }

  /** `|z| >= threshold`, written without the square root. */
  predicate IsOutlier(cfg: Config, s: RunningStats, qty: real) {
    && s.count >= cfg.minSampleCount
    && SampleVariance(s) > 0.0
    && (cfg.zScoreThreshold <= 0.0 ||
        (qty - s.mean) * (qty - s.mean) >= cfg.zScoreThreshold * cfg.zScoreThreshold * SampleVariance(s))
  }

  lemma SquareOrder(a: real, b: real)
    requires a >= 0.0 && b >= 0.0
    ensures a >= b <==> a * a >= b * b
  {
    assert (a - b) * (a + b) == a * a - b * b;
    if a > b {
      ProductPositive(a - b, a + b);
    } else if a < b {
      ProductPositive(b - a, a + b);
      assert (b - a) * (a + b) == b * b - a * a;
    }
  }

  lemma TimesPositive(a: real, b: real, s: real)
    requires s > 0.0
    ensures a >= b <==> a * s >= b * s
  {
    if a > b {
      ProductPositive(a - b, s);
    } else if a < b {
      ProductPositive(b - a, s);
    }
  }

  /** Comparing `|dev / stddev|` with a positive threshold, without the division and the square root. */
  lemma ZTestSquared(t: real, dev: real, stddev: real, variance: real)
    requires t > 0.0 && stddev > 0.0 && variance == stddev * stddev
    ensures Magnitude(dev / stddev) >= t <==> dev * dev >= t * t * variance
  {
    var z := dev / stddev;
    Quotient(dev, stddev);
    SquareOrder(Magnitude(z), t);
    SquarePositive(stddev, variance);
    TimesPositive(z * z, t * t, variance);
    assert Magnitude(z) * Magnitude(z) == z * z;
    assert dev * dev == (stddev * z) * (stddev * z) == (z * z) * (stddev * stddev);
  }

  /** The program's test on `|z|`, for whatever positive number the standard deviation is. */
  lemma ZTestIsSquareTest(cfg: Config, s: RunningStats, qty: real, stddev: real)
    requires stddev > 0.0 && stddev * stddev == SampleVariance(s)
    ensures s.count >= cfg.minSampleCount && Magnitude((qty - s.mean) / stddev) >= cfg.zScoreThreshold
            <==> IsOutlier(cfg, s, qty)
  {
    hide SampleVariance;
    SquarePositive(stddev, SampleVariance(s));
    if cfg.zScoreThreshold > 0.0 {
      ZTestSquared(cfg.zScoreThreshold, qty - s.mean, stddev, SampleVariance(s));
    }
  }

  // -------------------------------------------------------------------- score

  function Clamp(x: real): real {
    if x < 0.0 then 0.0 else if x > 1.0 then 1.0 else x
  }

  /** `magnitude` is that of the z-score. A threshold of zero makes the quotient infinite, which is clamped. */
  function ScoreOf(threshold: real, magnitude: real): real {
    if threshold == 0.0 then 1.0 else Clamp(magnitude / (2.0 * threshold))
  }

  function AlertFor(o: Order, score: real, sequence: nat): Alert {
    Alert("StatisticalBaselineDetector", score, o.instrumentId, [o.accountId], [o.orderId], o.timestampNs, o.timestampNs,
          sequence)
  }

  lemma HalfOfDouble(m: real, t: real)
    requires t > 0.0
    ensures m >= t <==> m / (2.0 * t) >= 0.5
    ensures m >= 2.0 * t <==> m / (2.0 * t) >= 1.0
  {
    var r := m / (2.0 * t);
    Quotient(m, 2.0 * t);
    TimesPositive(r, 0.5, 2.0 * t);
    TimesPositive(r, 1.0, 2.0 * t);
  }

  lemma NegativeProduct(a: real, b: real)
    requires a > 0.0 && b < 0.0
    ensures b * a < 0.0
  {
  }

  /** Under a threshold that is not positive the score is constant: one at zero, nothing below. */
  lemma ScoreWithoutThreshold(threshold: real, magnitude: real)
    requires threshold <= 0.0 && magnitude >= 0.0
    ensures ScoreOf(threshold, magnitude) == if threshold == 0.0 then 1.0 else 0.0
  {
    if threshold < 0.0 {
      Quotient(magnitude, 2.0 * threshold);
      var r := magnitude / (2.0 * threshold);
      if r > 0.0 {
        NegativeProduct(r, 2.0 * threshold);
      }
    }
  }

  /**
   An alert's score is at least one half. It is one exactly when the deviation reaches twice the threshold,
   a test that needs no square root; below that it is proportional to the z-score.
   */
  lemma ScoreIsCappedZ(cfg: Config, s: RunningStats, qty: real, stddev: real)
    requires cfg.zScoreThreshold > 0.0 && stddev > 0.0 && stddev * stddev == SampleVariance(s) && IsOutlier(cfg, s, qty)
    ensures var t, dev := cfg.zScoreThreshold, qty - s.mean;
            var score := ScoreOf(t, Magnitude(dev / stddev));
            && 0.5 <= score <= 1.0
            && (score == 1.0 <==> dev * dev >= (2.0 * t) * (2.0 * t) * SampleVariance(s))
            && (score < 1.0 ==> score * (2.0 * t) == Magnitude(dev / stddev))
  {
    hide SampleVariance;
    var t, dev := cfg.zScoreThreshold, qty - s.mean;
    ZTestIsSquareTest(cfg, s, qty, stddev);
    ZTestSquared(2.0 * t, dev, stddev, SampleVariance(s));
    HalfOfDouble(Magnitude(dev / stddev), t);
    Quotient(Magnitude(dev / stddev), 2.0 * t);
  }

  /** The tests the program makes, one inside the other, are the whole condition. */
  lemma TestDecides(cfg: Config, s: RunningStats, qty: real, stddev: real)
    requires stddev >= 0.0 && stddev * stddev == SampleVariance(s)
    ensures IsOutlier(cfg, s, qty) <==>
            s.count >= cfg.minSampleCount && stddev > 0.0 && Magnitude((qty - s.mean) / stddev) >= cfg.zScoreThreshold
  {
    hide SampleVariance;
    if stddev > 0.0 {
      SquarePositive(stddev, SampleVariance(s));
      ZTestIsSquareTest(cfg, s, qty, stddev);
    }
  }

  class StatisticalBaselineDetector {
    const config: Config
    var statsByKey: map<Key, RunningStats>
    // The New quantities seen so far, per key.
    ghost var history: map<Key, seq<real>>

    ghost function Seen(key: Key): seq<real>
      reads this
    {
      if key in history then history[key] else []
    }

    ghost predicate Valid()
      reads this
    {
      && statsByKey.Keys == history.Keys
      && forall key :: key in statsByKey ==> statsByKey[key] == Accumulate(history[key])
    }

    constructor (config: Config)
      ensures Valid() && history == map[] && this.config == config
    {
      this.config := config;
      statsByKey, history := map[], map[];
    }

    /** What the key of an order is judged by. */
    ghost function StatsFor(o: Order): RunningStats
      reads this
    {
      Accumulate(Seen(Key(o.accountId, o.instrumentId)))
    }

    /**
     A New order is judged by the orders strictly before it, and only then joins them. `stddev` is what
     the library answers for the square root of their variance.
     */
    method Evaluate(sequence: nat, e: Event, stddev: real) returns (found: Option<Alert>)
      requires Valid()
      requires e.OrderEvent? && e.order.status.New? ==>
                 stddev >= 0.0 && stddev * stddev == SampleVariance(StatsFor(e.order))
      modifies this
      ensures Valid()
      ensures !(e.OrderEvent? && e.order.status.New?) ==> found == None && history == old(history)
      ensures e.OrderEvent? && e.order.status.New? ==>
                var o, prior := e.order, old(StatsFor(e.order));
                var key, qty := Key(o.accountId, o.instrumentId), o.qty as real;
                && history == old(history)[key := old(Seen(key)) + [qty]]
                && (found.Some? <==> IsOutlier(config, prior, qty)) && (found.Some? ==> stddev > 0.0)
                && (found.Some? ==>
                      var score := ScoreOf(config.zScoreThreshold, Magnitude((qty - prior.mean) / stddev));
                      found.value == Alert("StatisticalBaselineDetector", score, o.instrumentId, [o.accountId], [o.orderId],
                                           o.timestampNs, o.timestampNs, sequence))
    {
      hide SampleVariance, IsOutlier, Update;
      found := None;
      if e.OrderEvent? && e.order.status.New? {
        var o := e.order;
        var key := Key(o.accountId, o.instrumentId);
        var stats := if key in statsByKey then statsByKey[key] else FRESH;
        assert stats == StatsFor(o);
        TestDecides(config, stats, o.qty as real, stddev);
        if stats.count >= config.minSampleCount && stddev > 0.0 {
          var z := (o.qty as real - stats.mean) / stddev;
          if Magnitude(z) >= config.zScoreThreshold {
            found := Some(AlertFor(o, ScoreOf(config.zScoreThreshold, Magnitude(z)), sequence));
          }
        }
        ghost var prefix := Seen(key);
        assert (prefix + [o.qty as real])[..|prefix|] == prefix;
        statsByKey := statsByKey[key := Update(stats, o.qty as real)];
        history := history[key := prefix + [o.qty as real]];
      }
    }
  }
}
