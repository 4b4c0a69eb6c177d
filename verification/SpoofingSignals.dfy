/** What each signal of the spoofing score means, stated without division and without clamping. */
module SpoofingSignals {
  import opened Options
  import opened FixTypes
  import opened SpoofingScore

  /** `y` is the point of the unit interval nearest to `x`. */
  predicate IsNearest(x: real, y: real) {
    0.0 <= y <= 1.0 && (y < x ==> y == 1.0) && (y > x ==> y == 0.0)
  }

  /** Speed runs from one, for an order pulled at once, down to zero at the slow limit. */
  ghost predicate IsSpeed(cfg: Config, dwellNs: int, speed: real) {
    if cfg.slowTimeInBookNs <= 0 then speed == 0.0
    else exists raw: real :: raw * cfg.slowTimeInBookNs as real == (cfg.slowTimeInBookNs - dwellNs) as real && IsNearest(raw, speed)
  }

  function Shorter(a: int, b: int): int {
    if a <= b then a else b
  }

  /** The moves that ambient churn alone would bring while the order rested, but for no longer than the slow limit. */
  predicate IsExpected(cfg: Config, moves: nat, dwellNs: int, expected: real) {
    if cfg.densityWindowNs <= 0 then expected == 0.0
    else expected * cfg.densityWindowNs as real == (moves * Shorter(dwellNs, cfg.slowTimeInBookNs)) as real
  }

  /** An unfavorable move scores nothing, a favorable one what ambient churn does not explain. */
  ghost predicate IsMove(cfg: Config, favorable: bool, moves: nat, dwellNs: int, score: real) {
    if !favorable then score == 0.0
    else exists expected: real :: IsExpected(cfg, moves, dwellNs, expected) && IsNearest(1.0 - expected, score)
  }

  /** The average over the other accounts' samples, or zero without any. */
  predicate IsTypical(samples: seq<Sample>, accountId: string, typical: real) {
    var others := Foreign(samples, accountId);
    if others == [] then typical == 0.0 else typical * |others| as real == Total(others) as real
  }

  function Total(samples: seq<Sample>): int {
    if samples == [] then 0 else samples[0].concurrentCount + Total(samples[1..])
  }

  /** Layering runs from zero at the typical concurrency to one when it is exceeded by the saturation count. */
  ghost predicate IsLayering(cfg: Config, concurrent: int, typical: real, score: real) {
    if cfg.layeringSaturationCount <= 0 then score == 0.0
    else exists raw: real :: raw * cfg.layeringSaturationCount as real == concurrent as real - typical && IsNearest(raw, score)
  }

  /** For a Buy the ask has risen by the minimum or more, for a Sell the bid has fallen by as much. */
  predicate IsFavorable(cfg: Config, t: TrackedOrder, now: Option<real>) {
    match (t.oppositeBest, now)
    case (Some(before), Some(after)) =>
      || (t.side.Buy? && after >= before + cfg.minOppositePriceMove)
      || (t.side.Sell? && before >= after + cfg.minOppositePriceMove)
    case _ => false
  }

  /** The five quantities a score is made of. */
  datatype Signals = Signals(depth: real, speed: real, move: real, typical: real, layering: real)

  ghost predicate AreSignals(cfg: Config, t: TrackedOrder, m: Surroundings, dwellNs: int, g: Signals) {
    && IsNearest(t.depthRatio, g.depth) && IsSpeed(cfg, dwellNs, g.speed)
    && IsMove(cfg, IsFavorable(cfg, t, m.oppositeNow), m.oppositeMoves, dwellNs, g.move)
    && IsTypical(m.samples, t.accountId, g.typical) && IsLayering(cfg, m.concurrent, g.typical, g.layering)
  }

  /** A third each of depth, speed and move, and the weighted bonus for layering on top. */
  ghost predicate IsScore(cfg: Config, t: TrackedOrder, m: Surroundings, dwellNs: int, score: real) {
    exists g :: AreSignals(cfg, t, m, dwellNs, g)
             && IsNearest((g.depth + g.speed + g.move) / 3.0 + Times(cfg.layeringBonusWeight, g.layering), score)
  }

  // ------------------------------------------------------------------- proofs

  lemma ClampIsNearest(x: real)
    ensures IsNearest(x, Clamp(x))
  {
  }

  lemma NearestIsUnique(x: real, y: real, z: real)
    requires IsNearest(x, y) && IsNearest(x, z)
    ensures y == z
  {
  }

  lemma RatioIs(a: real, b: real)
    requires b != 0.0
    ensures Ratio(a, b) * b == a
  {
  }

  lemma SpeedIs(cfg: Config, dwellNs: int)
    ensures IsSpeed(cfg, dwellNs, SpeedScore(cfg, dwellNs))
  {
    hide Ratio;
    var slow := cfg.slowTimeInBookNs as real;
    if cfg.slowTimeInBookNs > 0 {
      var r := Ratio(dwellNs as real, slow);
      RatioIs(dwellNs as real, slow);
      assert (1.0 - r) * slow == slow - r * slow;
      ClampIsNearest(1.0 - r);
    }
  }

  lemma UnitsCancel(rate: real, dwell: real, moves: real, window: real, ns: real)
    requires rate * (window / NS_PER_SECOND) == moves && dwell * NS_PER_SECOND == ns
    ensures (rate * dwell) * window == moves * ns
  {
    var w := window / NS_PER_SECOND;
    assert window == w * NS_PER_SECOND;
    assert (rate * dwell) * (w * NS_PER_SECOND) == (rate * w) * (dwell * NS_PER_SECOND);
  }

  lemma EffectiveIs(cfg: Config, dwellNs: int)
    ensures EffectiveDwell(cfg, dwellNs) * NS_PER_SECOND == Shorter(dwellNs, cfg.slowTimeInBookNs) as real
  {
    hide Ratio;
    RatioIs(dwellNs as real, NS_PER_SECOND);
    RatioIs(cfg.slowTimeInBookNs as real, NS_PER_SECOND);
  }

  lemma ExpectedIs(cfg: Config, moves: nat, dwellNs: int)
    ensures IsExpected(cfg, moves, dwellNs, Times(MoveRate(cfg, moves), EffectiveDwell(cfg, dwellNs)))
  {
    hide Ratio, EffectiveDwell;
    var rate, dwell := MoveRate(cfg, moves), EffectiveDwell(cfg, dwellNs);
    if cfg.densityWindowNs > 0 {
      var window := cfg.densityWindowNs as real;
      RatioIs(moves as real, window / NS_PER_SECOND);
      EffectiveIs(cfg, dwellNs);
      UnitsCancel(rate, dwell, moves as real, window, Shorter(dwellNs, cfg.slowTimeInBookNs) as real);
    }
  }

  lemma MoveIs(cfg: Config, favorable: bool, moves: nat, dwellNs: int)
    ensures IsMove(cfg, favorable, moves, dwellNs, MoveScore(cfg, favorable, moves, dwellNs))
  {
    hide MoveRate, EffectiveDwell, IsExpected;
    ExpectedIs(cfg, moves, dwellNs);
    ClampIsNearest(1.0 - Times(MoveRate(cfg, moves), EffectiveDwell(cfg, dwellNs)));
  }

  lemma {:induction false} TotalAppend(a: seq<Sample>, x: Sample)
    ensures Total(a + [x]) == Total(a) + x.concurrentCount
  {
    if a == [] {
      assert a + [x] == [x] && [x][1..] == [];
    } else {
      assert (a + [x])[1..] == a[1..] + [x];
      TotalAppend(a[1..], x);
    }
  }

  lemma {:induction false} OthersAre(samples: seq<Sample>, accountId: string)
    ensures OthersCount(samples, accountId) == |Foreign(samples, accountId)|
    ensures OthersSum(samples, accountId) == Total(Foreign(samples, accountId))
  {
    if samples != [] {
      var n := |samples| - 1;
      OthersAre(samples[..n], accountId);
      var others := Foreign(samples[..n], accountId);
      TotalAppend(others, samples[n]);
      assert others + [] == others;
    }
  }

  /** `Foreign` keeps exactly the samples of the other accounts. */
  lemma {:induction false} ForeignAre(samples: seq<Sample>, accountId: string)
    ensures forall x :: x in Foreign(samples, accountId) <==> x in samples && x.accountId != accountId
    ensures |Foreign(samples, accountId)| == |samples| <==> forall x :: x in samples ==> x.accountId != accountId
    ensures |Foreign(samples, accountId)| <= |samples|
  {
    if samples != [] {
      var n := |samples| - 1;
      ForeignAre(samples[..n], accountId);
      assert samples == samples[..n] + [samples[n]];
    }
  }

  lemma TypicalIs(samples: seq<Sample>, accountId: string)
    ensures IsTypical(samples, accountId, TypicalConcurrent(samples, accountId))
  {
    hide Ratio, Total, Foreign, OthersSum, OthersCount;
    OthersAre(samples, accountId);
    var count := OthersCount(samples, accountId);
    if count > 0 {
      RatioIs(OthersSum(samples, accountId) as real, count as real);
    }
  }

  lemma LayeringIs(cfg: Config, concurrent: int, typical: real)
    ensures IsLayering(cfg, concurrent, typical, LayeringScore(cfg, concurrent, typical))
  {
    hide Ratio;
    if cfg.layeringSaturationCount > 0 {
      RatioIs(concurrent as real - typical, cfg.layeringSaturationCount as real);
      ClampIsNearest(Ratio(concurrent as real - typical, cfg.layeringSaturationCount as real));
    }
  }

  function SignalsOf(cfg: Config, t: TrackedOrder, m: Surroundings, dwellNs: int): Signals {
    var typical := TypicalConcurrent(m.samples, t.accountId);
    Signals(Clamp(t.depthRatio), SpeedScore(cfg, dwellNs),
            MoveScore(cfg, MovedFavorably(cfg, t, m.oppositeNow), m.oppositeMoves, dwellNs),
            typical, LayeringScore(cfg, m.concurrent, typical))
  }

  lemma SignalsAre(cfg: Config, t: TrackedOrder, m: Surroundings, dwellNs: int)
    ensures AreSignals(cfg, t, m, dwellNs, SignalsOf(cfg, t, m, dwellNs))
  {
    hide SpeedScore, MoveScore, TypicalConcurrent, LayeringScore, IsSpeed, IsMove, IsTypical, IsLayering, IsNearest, Clamp;
    var favorable := MovedFavorably(cfg, t, m.oppositeNow);
    assert favorable == IsFavorable(cfg, t, m.oppositeNow);
    ClampIsNearest(t.depthRatio);
    SpeedIs(cfg, dwellNs);
    MoveIs(cfg, favorable, m.oppositeMoves, dwellNs);
    TypicalIs(m.samples, t.accountId);
    LayeringIs(cfg, m.concurrent, TypicalConcurrent(m.samples, t.accountId));
  }

  lemma SameProduct(a: real, b: real, c: real)
    requires c != 0.0 && a * c == b * c
    ensures a == b
  {
    assert (a - b) * c == 0.0;
    if a != b { NonZeroProduct(a - b, c); }
  }

  lemma NonZeroProduct(a: real, b: real)
    requires a != 0.0 && b != 0.0
    ensures a * b != 0.0
  {
  }

  lemma SameQuotient(a: real, b: real, c: real, product: real)
    requires c != 0.0 && a * c == product && b * c == product
    ensures a == b
  {
    SameProduct(a, b, c);
  }

  lemma ExpectedIsUnique(cfg: Config, moves: nat, dwellNs: int, a: real, b: real)
    requires IsExpected(cfg, moves, dwellNs, a) && IsExpected(cfg, moves, dwellNs, b)
    ensures a == b
  {
    hide Shorter;
    if cfg.densityWindowNs > 0 {
      SameQuotient(a, b, cfg.densityWindowNs as real, (moves * Shorter(dwellNs, cfg.slowTimeInBookNs)) as real);
    }
  }

  lemma SpeedIsUnique(cfg: Config, dwellNs: int, a: real, b: real)
    requires IsSpeed(cfg, dwellNs, a) && IsSpeed(cfg, dwellNs, b)
    ensures a == b
  {
    hide IsNearest;
    if cfg.slowTimeInBookNs > 0 {
      var slow := cfg.slowTimeInBookNs as real;
      var x: real :| x * slow == (cfg.slowTimeInBookNs - dwellNs) as real && IsNearest(x, a);
      var y: real :| y * slow == (cfg.slowTimeInBookNs - dwellNs) as real && IsNearest(y, b);
      SameQuotient(x, y, slow, (cfg.slowTimeInBookNs - dwellNs) as real);
      NearestIsUnique(x, a, b);
    }
  }

  lemma MoveIsUnique(cfg: Config, favorable: bool, moves: nat, dwellNs: int, a: real, b: real)
    requires IsMove(cfg, favorable, moves, dwellNs, a) && IsMove(cfg, favorable, moves, dwellNs, b)
    ensures a == b
  {
    hide IsNearest, IsExpected;
    if favorable {
      var x: real :| IsExpected(cfg, moves, dwellNs, x) && IsNearest(1.0 - x, a);
      var y: real :| IsExpected(cfg, moves, dwellNs, y) && IsNearest(1.0 - y, b);
      ExpectedIsUnique(cfg, moves, dwellNs, x, y);
      NearestIsUnique(1.0 - x, a, b);
    }
  }

  lemma TypicalIsUnique(samples: seq<Sample>, accountId: string, a: real, b: real)
    requires IsTypical(samples, accountId, a) && IsTypical(samples, accountId, b)
    ensures a == b
  {
    var others := Foreign(samples, accountId);
    if others != [] {
      SameProduct(a, b, |others| as real);
    }
  }

  lemma LayeringIsUnique(cfg: Config, concurrent: int, typical: real, a: real, b: real)
    requires IsLayering(cfg, concurrent, typical, a) && IsLayering(cfg, concurrent, typical, b)
    ensures a == b
  {
    hide IsNearest;
    if cfg.layeringSaturationCount > 0 {
      var n := cfg.layeringSaturationCount as real;
      var x: real :| x * n == concurrent as real - typical && IsNearest(x, a);
      var y: real :| y * n == concurrent as real - typical && IsNearest(y, b);
      SameQuotient(x, y, n, concurrent as real - typical);
      NearestIsUnique(x, a, b);
    }
  }

  lemma SignalsAreUnique(cfg: Config, t: TrackedOrder, m: Surroundings, dwellNs: int, g: Signals, h: Signals)
    requires AreSignals(cfg, t, m, dwellNs, g) && AreSignals(cfg, t, m, dwellNs, h)
    ensures g == h
  {
    hide IsSpeed, IsMove, IsTypical, IsLayering, IsFavorable;
    SpeedIsUnique(cfg, dwellNs, g.speed, h.speed);
    MoveIsUnique(cfg, IsFavorable(cfg, t, m.oppositeNow), m.oppositeMoves, dwellNs, g.move, h.move);
    TypicalIsUnique(m.samples, t.accountId, g.typical, h.typical);
    LayeringIsUnique(cfg, m.concurrent, g.typical, g.layering, h.layering);
  }

  /** The score the program computes is the one described, and no other number is. */
  lemma ScoreIsAsDescribed(cfg: Config, t: TrackedOrder, m: Surroundings, dwellNs: int, score: real)
    ensures IsScore(cfg, t, m, dwellNs, score) <==> score == Combined(cfg, t, m, dwellNs)
  {
    var own := SignalsOf(cfg, t, m, dwellNs);
    var raw := (own.depth + own.speed + own.move) / 3.0 + Times(cfg.layeringBonusWeight, own.layering);
    SignalsAre(cfg, t, m, dwellNs);
    ClampIsNearest(raw);
    hide AreSignals, SpeedScore, MoveScore, TypicalConcurrent, LayeringScore, Times;
    assert Combined(cfg, t, m, dwellNs) == Clamp(raw);
    if IsScore(cfg, t, m, dwellNs, score) {
      var g :| AreSignals(cfg, t, m, dwellNs, g)
            && IsNearest((g.depth + g.speed + g.move) / 3.0 + Times(cfg.layeringBonusWeight, g.layering), score);
      SignalsAreUnique(cfg, t, m, dwellNs, own, g);
      NearestIsUnique(raw, score, Clamp(raw));
    }
  }

  // -------------------------------------------------------------- what follows

  lemma MoveScoreBounds(cfg: Config, moves: nat, dwellNs: int)
    ensures 0.0 <= MoveScore(cfg, false, moves, dwellNs) <= MoveScore(cfg, true, moves, dwellNs) <= 1.0
    ensures MoveScore(cfg, true, 0, dwellNs) == 1.0
  {
    hide EffectiveDwell, Ratio;
    RatioOfNothing(cfg.densityWindowNs as real / NS_PER_SECOND);
  }

  lemma RatioOfNothing(a: real)
    ensures a != 0.0 ==> Ratio(0.0, a) == 0.0
  {
  }

  /** The further the opposite best price moves the order's way, the higher the score: up for a Buy, down for a Sell. */
  lemma ScoreRisesWithMove(cfg: Config, t: TrackedOrder, m: Surroundings, was: real, now: real, dwellNs: int)
    requires if t.side.Buy? then was <= now else now <= was
    ensures Combined(cfg, t, m.(oppositeNow := Some(was)), dwellNs) <= Combined(cfg, t, m.(oppositeNow := Some(now)), dwellNs)
  {
    hide SpeedScore, MoveScore, TypicalConcurrent, LayeringScore, Times;
    MoveScoreBounds(cfg, m.oppositeMoves, dwellNs);
  }

  /** On an otherwise quiet opposite side the move is worth a third, all or nothing. */
  lemma MoveIsWorthAThird(cfg: Config, t: TrackedOrder, m: Surroundings, dwellNs: int)
    requires m.oppositeMoves == 0
    ensures 3.0 * Primary(cfg, t, m, dwellNs)
            == Clamp(t.depthRatio) + SpeedScore(cfg, dwellNs) + (if IsFavorable(cfg, t, m.oppositeNow) then 1.0 else 0.0)
  {
    hide SpeedScore, MoveScore;
    MoveScoreBounds(cfg, 0, dwellNs);
    NoMoveNoScore(cfg, m.oppositeMoves, dwellNs);
  }

  lemma NoMoveNoScore(cfg: Config, moves: nat, dwellNs: int)
    ensures MoveScore(cfg, false, moves, dwellNs) == 0.0
  {
  }

  /** The larger the order is within its level, the higher the score. */
  lemma ScoreRisesWithDepth(cfg: Config, t: TrackedOrder, m: Surroundings, ratio: real, dwellNs: int)
    requires t.depthRatio <= ratio
    ensures Combined(cfg, t, m, dwellNs) <= Combined(cfg, t.(depthRatio := ratio), m, dwellNs)
  {
    hide SpeedScore, MoveScore, TypicalConcurrent, LayeringScore, Times;
  }

  /** The more the opposite side has been moving anyway, the lower the score. */
  lemma ScoreFallsWithChurn(cfg: Config, t: TrackedOrder, m: Surroundings, moves: nat, dwellNs: int)
    requires m.oppositeMoves <= moves && dwellNs >= 0 && cfg.slowTimeInBookNs >= 0
    ensures Combined(cfg, t, m.(oppositeMoves := moves), dwellNs) <= Combined(cfg, t, m, dwellNs)
  {
    hide SpeedScore, MoveRate, EffectiveDwell, TypicalConcurrent, LayeringScore, Ratio;
    var dwell := EffectiveDwell(cfg, dwellNs);
    EffectiveIs(cfg, dwellNs);
    RateRises(cfg, m.oppositeMoves, moves);
    MoreExpected(MoveRate(cfg, m.oppositeMoves), MoveRate(cfg, moves), dwell);
    ClampMonotone(1.0 - Times(MoveRate(cfg, moves), dwell), 1.0 - Times(MoveRate(cfg, m.oppositeMoves), dwell));
  }

  lemma RateRises(cfg: Config, fewer: nat, more: nat)
    requires fewer <= more
    ensures MoveRate(cfg, fewer) <= MoveRate(cfg, more)
  {
    hide Ratio;
    if cfg.densityWindowNs > 0 {
      RatioMonotone(fewer as real, more as real, cfg.densityWindowNs as real / NS_PER_SECOND);
    }
  }

  lemma MoreExpected(a: real, b: real, dwell: real)
    requires a <= b && dwell >= 0.0
    ensures Times(a, dwell) <= Times(b, dwell)
  {
    TimesMonotone(dwell, a, b);
  }
}
