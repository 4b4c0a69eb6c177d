/** The spoofing detector's score: four clamped signals combined into one number. */
module SpoofingScore {
  import opened Options
  import opened FixTypes

  datatype Config = Config(
    alertThreshold: real, slowTimeInBookNs: int, minOppositePriceMove: real, layeringBonusWeight: real,
    layeringSaturationCount: int, densityWindowNs: int)

  /** What is remembered of an order from the moment it was placed. */
  datatype TrackedOrder = TrackedOrder(
    accountId: string, instrumentId: string, side: Side, remainingQty: int, placedTs: int, depthRatio: real,
    oppositeBest: Option<real>)

  datatype Sample = Sample(timestampNs: int, accountId: string, concurrentCount: int)

  const NS_PER_SECOND := 1000000000.0

  function Clamp(x: real): real {
    if x < 0.0 then 0.0 else if x > 1.0 then 1.0 else x
  }

  function Min(a: real, b: real): real {
    if b < a then b else a
  }

  function Ratio(a: real, b: real): real
    requires b != 0.0
  {
    a / b
  }

  function SpeedScore(cfg: Config, dwellNs: int): real {
    if cfg.slowTimeInBookNs > 0 then Clamp(1.0 - Ratio(dwellNs as real, cfg.slowTimeInBookNs as real)) else 0.0
  }

  /** The opposite best price moved the order's way between its placement and now. */
  predicate MovedFavorably(cfg: Config, t: TrackedOrder, now: Option<real>) {
    && t.oppositeBest.Some? && now.Some?
    && var delta := now.value - t.oppositeBest.value;
       if t.side.Buy? then delta >= cfg.minOppositePriceMove else delta <= -cfg.minOppositePriceMove
  }

  /** Best-price moves per second on the opposite side, over the ambient window. */
  function MoveRate(cfg: Config, moves: nat): real {
    if cfg.densityWindowNs > 0 then Ratio(moves as real, cfg.densityWindowNs as real / NS_PER_SECOND) else 0.0
  }

  /** The dwell that counts, in seconds: never more than the slow limit. */
  function EffectiveDwell(cfg: Config, dwellNs: int): real {
    Min(Ratio(dwellNs as real, NS_PER_SECOND), Ratio(cfg.slowTimeInBookNs as real, NS_PER_SECOND))
  }

  function MoveScore(cfg: Config, favorable: bool, moves: nat, dwellNs: int): real {
    if favorable then Clamp(1.0 - Times(MoveRate(cfg, moves), EffectiveDwell(cfg, dwellNs))) else 0.0
  }

  function OthersSum(samples: seq<Sample>, accountId: string): int {
    if samples == [] then 0
    else
      var n := |samples| - 1;
      OthersSum(samples[..n], accountId) + (if samples[n].accountId == accountId then 0 else samples[n].concurrentCount)
  }

  function OthersCount(samples: seq<Sample>, accountId: string): nat {
    if samples == [] then 0
    else
      var n := |samples| - 1;
      OthersCount(samples[..n], accountId) + (if samples[n].accountId == accountId then 0 else 1)
  }

  /** The average concurrency the other accounts showed when they placed orders. */
  function TypicalConcurrent(samples: seq<Sample>, accountId: string): real {
    var count := OthersCount(samples, accountId);
    if count > 0 then Ratio(OthersSum(samples, accountId) as real, count as real) else 0.0
  }

  function LayeringScore(cfg: Config, concurrent: int, typical: real): real {
    if cfg.layeringSaturationCount > 0
    then Clamp(Ratio(concurrent as real - typical, cfg.layeringSaturationCount as real)) else 0.0
  }

  /** The market a cancelled order is judged against. */
  datatype Surroundings = Surroundings(oppositeNow: Option<real>, oppositeMoves: nat, concurrent: int, samples: seq<Sample>)

  function Primary(cfg: Config, t: TrackedOrder, m: Surroundings, dwellNs: int): real {
    (Clamp(t.depthRatio) + SpeedScore(cfg, dwellNs)
     + MoveScore(cfg, MovedFavorably(cfg, t, m.oppositeNow), m.oppositeMoves, dwellNs)) / 3.0
  }

  function Times(a: real, b: real): real {
    a * b
  }

  function Combined(cfg: Config, t: TrackedOrder, m: Surroundings, dwellNs: int): real {
    var layering := LayeringScore(cfg, m.concurrent, TypicalConcurrent(m.samples, t.accountId));
    Clamp(Primary(cfg, t, m, dwellNs) + Times(cfg.layeringBonusWeight, layering))
  }

  // ---------------------------------------------------------------- properties

  lemma RatioMonotone(a: real, b: real, c: real)
    requires a <= b && c > 0.0
    ensures Ratio(a, c) <= Ratio(b, c)
  {
  }

  lemma RatioUnits(a: real)
    ensures a > 0.0 ==> Ratio(0.0, a) == 0.0 && Ratio(a, a) == 1.0
  {
  }

  lemma TimesMonotone(r: real, a: real, b: real)
    requires r >= 0.0 && a <= b
    ensures Times(r, a) <= Times(r, b)
  {
  }

  lemma ClampMonotone(a: real, b: real)
    requires a <= b
    ensures Clamp(a) <= Clamp(b)
  {
  }

  lemma RateNonNegative(cfg: Config, moves: nat)
    ensures MoveRate(cfg, moves) >= 0.0
  {
    hide Ratio;
    if cfg.densityWindowNs > 0 {
      var window := cfg.densityWindowNs as real / NS_PER_SECOND;
      RatioUnits(window);
      RatioMonotone(0.0, moves as real, window);
    }
  }

  lemma SpeedFalls(cfg: Config, shorter: int, longer: int)
    requires shorter <= longer
    ensures SpeedScore(cfg, longer) <= SpeedScore(cfg, shorter)
  {
    hide Ratio;
    if cfg.slowTimeInBookNs > 0 {
      RatioMonotone(shorter as real, longer as real, cfg.slowTimeInBookNs as real);
    }
  }

  lemma MoveFalls(cfg: Config, favorable: bool, moves: nat, shorter: int, longer: int)
    requires shorter <= longer
    ensures MoveScore(cfg, favorable, moves, longer) <= MoveScore(cfg, favorable, moves, shorter)
  {
    hide MoveRate, EffectiveDwell, Times;
    RateNonNegative(cfg, moves);
    EffectiveDwellRises(cfg, shorter, longer);
    var rate, a, b := MoveRate(cfg, moves), EffectiveDwell(cfg, shorter), EffectiveDwell(cfg, longer);
    TimesMonotone(rate, a, b);
    ClampMonotone(1.0 - Times(rate, b), 1.0 - Times(rate, a));
  }

  lemma EffectiveDwellRises(cfg: Config, shorter: int, longer: int)
    requires shorter <= longer
    ensures EffectiveDwell(cfg, shorter) <= EffectiveDwell(cfg, longer)
  {
    hide Ratio;
    RatioMonotone(shorter as real, longer as real, NS_PER_SECOND);
  }

  /** A score is always in [0, 1], and an order pulled sooner never scores lower. */
  lemma ScoreFallsWithDwell(cfg: Config, t: TrackedOrder, m: Surroundings, shorter: int, longer: int)
    requires shorter <= longer
    ensures 0.0 <= Combined(cfg, t, m, longer) <= Combined(cfg, t, m, shorter) <= 1.0
  {
    hide SpeedScore, MoveScore, Times;
    SpeedFalls(cfg, shorter, longer);
    MoveFalls(cfg, MovedFavorably(cfg, t, m.oppositeNow), m.oppositeMoves, shorter, longer);
  }

  /** Past `slowTimeInBookNs` the dwell no longer matters. */
  lemma ScoreConstantWhenSlow(cfg: Config, t: TrackedOrder, m: Surroundings, dwell: int)
    requires dwell >= 0 && dwell >= cfg.slowTimeInBookNs
    ensures Combined(cfg, t, m, dwell) == Combined(cfg, t, m, if cfg.slowTimeInBookNs > 0 then cfg.slowTimeInBookNs else 0)
  {
    hide Times, MoveRate, Ratio;
    var slow := cfg.slowTimeInBookNs;
    var floor := if slow > 0 then slow else 0;
    RatioMonotone(slow as real, dwell as real, NS_PER_SECOND);
    RatioMonotone(slow as real, floor as real, NS_PER_SECOND);
    assert EffectiveDwell(cfg, dwell) == EffectiveDwell(cfg, floor);
    if slow > 0 {
      RatioMonotone(slow as real, dwell as real, slow as real);
      RatioUnits(slow as real);
    }
    assert SpeedScore(cfg, dwell) == SpeedScore(cfg, floor);
  }

  /** Only samples of other accounts. */
  function Foreign(samples: seq<Sample>, accountId: string): seq<Sample> {
    if samples == [] then []
    else
      var n := |samples| - 1;
      Foreign(samples[..n], accountId) + (if samples[n].accountId == accountId then [] else [samples[n]])
  }

  /** The three primary signals do not see concurrency at all. */
  lemma PrimaryIgnores(cfg: Config, t: TrackedOrder, m: Surroundings, other: Surroundings, dwell: int)
    requires m.oppositeNow == other.oppositeNow && m.oppositeMoves == other.oppositeMoves
    ensures Primary(cfg, t, m, dwell) == Primary(cfg, t, other, dwell)
  {
  }

  lemma {:induction false} ForeignAggregates(samples: seq<Sample>, accountId: string)
    ensures OthersSum(Foreign(samples, accountId), accountId) == OthersSum(samples, accountId)
    ensures OthersCount(Foreign(samples, accountId), accountId) == OthersCount(samples, accountId)
  {
    if samples != [] {
      var n := |samples| - 1;
      ForeignAggregates(samples[..n], accountId);
      var f := Foreign(samples[..n], accountId);
      if samples[n].accountId == accountId {
        assert f + [] == f;
      } else {
        assert (f + [samples[n]])[..|f|] == f;
      }
    }
  }

  /** Two windows that agree on the other accounts give the same score: an account's own samples never count. */
  lemma OwnSamplesDoNotMatter(cfg: Config, t: TrackedOrder, m: Surroundings, other: seq<Sample>, dwell: int)
    requires Foreign(m.samples, t.accountId) == Foreign(other, t.accountId)
    ensures Combined(cfg, t, m, dwell) == Combined(cfg, t, m.(samples := other), dwell)
  {
    hide Primary, LayeringScore, Times, Ratio;
    ForeignAggregates(m.samples, t.accountId);
    ForeignAggregates(other, t.accountId);
    PrimaryIgnores(cfg, t, m, m.(samples := other), dwell);
  }

  /** With a non-negative bonus weight, more concurrent orders never lower the score. */
  lemma ScoreRisesWithConcurrency(cfg: Config, t: TrackedOrder, m: Surroundings, more: int, dwell: int)
    requires cfg.layeringBonusWeight >= 0.0 && m.concurrent <= more
    ensures Combined(cfg, t, m, dwell) <= Combined(cfg, t, m.(concurrent := more), dwell)
  {
    hide Primary, TypicalConcurrent, Times;
    PrimaryIgnores(cfg, t, m, m.(concurrent := more), dwell);
    var typical := TypicalConcurrent(m.samples, t.accountId);
    LayeringRises(cfg, m.concurrent, more, typical);
    TimesMonotone(cfg.layeringBonusWeight, LayeringScore(cfg, m.concurrent, typical), LayeringScore(cfg, more, typical));
  }

  lemma LayeringRises(cfg: Config, fewer: int, more: int, typical: real)
    requires fewer <= more
    ensures LayeringScore(cfg, fewer, typical) <= LayeringScore(cfg, more, typical)
  {
    hide Ratio;
    if cfg.layeringSaturationCount > 0 {
      RatioMonotone(fewer as real - typical, more as real - typical, cfg.layeringSaturationCount as real);
    }
  }
}
