/** The spoofing detector as the program runs it, proved against the transitions on values. */
module SpoofingLayering {
  import opened Options
  import opened FixTypes
  import opened BookModel
  import opened RollingWindow
  import opened Alerts
  import opened OrderBooks
  import opened SpoofingScore
  import opened SpoofingModel

  class SpoofingLayeringDetector {
    const config: Config
    var tracked: map<string, TrackedOrder>
    var concurrentCountByKey: map<CountKey, int>
    var ambientByInstrumentSide: map<AmbientKey, Ambient>

    ghost function Now(): State
      reads this
    {
      State(tracked, concurrentCountByKey, ambientByInstrumentSide)
    }

    constructor (config: Config)
      ensures Now() == INITIAL && this.config == config
    {
      this.config := config;
      tracked, concurrentCountByKey, ambientByInstrumentSide := map[], map[], map[];
    }

    method UpdateAmbientSide(book: OrderBook, instrumentId: string, side: Side, ts: int, ghost q: Quotes)
      requires book.Valid() && q.Best(side) == BestOf(book.model.live, side)
      modifies this
      ensures Now() == UpdateSide(config, old(Now()), q, instrumentId, side, ts)
    {
      var key := AmbientKey(instrumentId, side);
      var tracker := AmbientOf(ambientByInstrumentSide, key);
      var price := book.BestPrice(side);
      var moves := tracker.moves;
      if tracker.lastBest.Some? && price.Some? && price.value != tracker.lastBest.value {
        moves := moves + [ts];
      }
      assert tracker.moves + [] == tracker.moves;
      moves := PruneLoop(moves, MoveTime(), ts, config.densityWindowNs);
      var samples := PruneLoop(tracker.samples, SampleTime(), ts, config.densityWindowNs);
      var last := if price.Some? then price else tracker.lastBest;
      ambientByInstrumentSide := ambientByInstrumentSide[key := Ambient(moves, samples, last)];
    }

    method UpdateAmbient(book: OrderBook, instrumentId: string, ts: int, ghost q: Quotes)
      requires book.Valid() && forall side :: q.Best(side) == BestOf(book.model.live, side)
      modifies this
      ensures Now() == SpoofingModel.UpdateAmbient(config, old(Now()), q, instrumentId, ts)
    {
      UpdateAmbientSide(book, instrumentId, Buy, ts, q);
      UpdateAmbientSide(book, instrumentId, Sell, ts, q);
    }

    method TrackNew(book: OrderBook, o: Order)
      requires book.Valid()
      modifies this
      ensures Now() == SpoofingModel.TrackNew(old(Now()), QuotesOf(book.model.live, OrderEvent(o)), o)
    {
      hide TotalQty, LevelOf, BestOf, OrderBook.Valid;
      var levelQty := book.QtyAtPrice(o.side, o.price);
      var ratio := if levelQty > 0 then o.qty as real / levelQty as real else 0.0;
      var opposite := book.BestPrice(o.side.Opposite());
      var t := TrackedOrder(o.accountId, o.instrumentId, o.side, o.qty, o.timestampNs, ratio, opposite);
      tracked := tracked[o.orderId := t];
      var newCount := CountOf(concurrentCountByKey, KeyOf(t)) + 1;
      concurrentCountByKey := concurrentCountByKey[KeyOf(t) := newCount];
      var key := AmbientKey(o.instrumentId, o.side);
      var tracker := AmbientOf(ambientByInstrumentSide, key);
      ambientByInstrumentSide := ambientByInstrumentSide[
        key := tracker.(samples := tracker.samples + [Sample(o.timestampNs, o.accountId, newCount)])];
    }

    method EraseTracked(id: string) returns (erased: Option<TrackedOrder>)
      modifies this
      ensures Now() == SpoofingModel.EraseTracked(old(Now()), id)
      ensures erased == if id in old(tracked) then Some(old(tracked)[id]) else None
    {
      if id !in tracked {
        return None;
      }
      var t := tracked[id];
      erased := Some(t);
      tracked := tracked - {id};
      if KeyOf(t) in concurrentCountByKey {
        var lowered := concurrentCountByKey[KeyOf(t)] - 1;
        concurrentCountByKey := concurrentCountByKey[KeyOf(t) := lowered];
        if lowered <= 0 {
          concurrentCountByKey := concurrentCountByKey - {KeyOf(t)};
        }
      }
    }

    method HandleExecution(x: Execution)
      modifies this
      ensures Now() == SpoofingModel.HandleExecution(old(Now()), x)
    {
      if x.orderId !in tracked {
        return;
      }
      var t := tracked[x.orderId];
      tracked := tracked[x.orderId := t.(remainingQty := t.remainingQty - x.qty)];
      if tracked[x.orderId].remainingQty <= 0 {
        var _ := EraseTracked(x.orderId);
      }
    }

    /** The loop that averages the other accounts' samples. */
    static method AverageOthers(samples: seq<Sample>, accountId: string) returns (typical: real)
      ensures typical == TypicalConcurrent(samples, accountId)
    {
      var sum, count := 0, 0;
      for i := 0 to |samples|
        invariant sum == OthersSum(samples[..i], accountId) && count == OthersCount(samples[..i], accountId)
      {
        assert samples[..i + 1][..i] == samples[..i];
        if samples[i].accountId != accountId {
          sum := sum + samples[i].concurrentCount;
          count := count + 1;
        }
      }
      assert samples[..|samples|] == samples;
      typical := if count > 0 then Ratio(sum as real, count as real) else 0.0;
    }

    method HandleCancel(book: OrderBook, o: Order) returns (alerts: seq<Alert>)
      requires book.Valid()
      modifies this
      ensures Now() == SpoofingModel.EraseTracked(old(Now()), o.origOrderId)
      ensures alerts == CancelAlerts(config, old(Now()), QuotesOf(book.model.live, OrderEvent(o)), book.model.sequence, o)
    {
      var erased := EraseTracked(o.origOrderId);
      if erased.None? || o.timestampNs < erased.value.placedTs {
        return [];
      }
      var t := erased.value;
      var dwellNs := o.timestampNs - t.placedTs;
      var speedScore := SpeedScore(config, dwellNs);
      var depthScore := Clamp(t.depthRatio);
      var oppositeNow := book.BestPrice(t.side.Opposite());
      var opposite := AmbientOf(ambientByInstrumentSide, AmbientKey(t.instrumentId, t.side.Opposite()));
      var moveScore := MoveScore(config, MovedFavorably(config, t, oppositeNow), |opposite.moves|, dwellNs);
      var concurrent := CountOf(concurrentCountByKey, KeyOf(t));
      var same := AmbientOf(ambientByInstrumentSide, AmbientKey(t.instrumentId, t.side));
      var typical := AverageOthers(same.samples, t.accountId);
      var layeringScore := LayeringScore(config, concurrent, typical);
      var primary := (depthScore + speedScore + moveScore) / 3.0;
      var combined := Clamp(primary + Times(config.layeringBonusWeight, layeringScore));
      if combined < config.alertThreshold {
        return [];
      }
      alerts := [Alert("SpoofingLayeringDetector", combined, t.instrumentId, [t.accountId], [o.origOrderId],
                       t.placedTs, o.timestampNs, book.sequence)];
    }

    method Evaluate(book: OrderBook, e: Event) returns (alerts: seq<Alert>)
      requires book.Valid()
      modifies this
      ensures (Now(), alerts) == SpoofingModel.Evaluate(config, old(Now()), book.model, e)
    {
      UpdateAmbient(book, e.InstrumentId(), e.TimestampNs(), QuotesOf(book.model.live, e));
      alerts := [];
      match e
      case ExecutionEvent(x) => HandleExecution(x);
      case OrderEvent(o) =>
        match o.status
        case New => TrackNew(book, o);
        case Cancelled => alerts := HandleCancel(book, o);
        case Replaced =>
          var _ := EraseTracked(o.origOrderId);
          TrackNew(book, o);
    }
  }
}
