/**
 The spoofing detector's own copy of the resting orders: what it tracks, how many it counts per
 account, instrument and side, and the ambient windows it scores cancels against.
 */
module SpoofingModel {
  import opened Options
  import opened FixTypes
  import opened BookModel
  import opened RollingWindow
  import opened Alerts
  import opened SpoofingScore

  datatype CountKey = CountKey(accountId: string, instrumentId: string, side: Side)

  datatype AmbientKey = AmbientKey(instrumentId: string, side: Side)

  datatype Ambient = Ambient(moves: seq<int>, samples: seq<Sample>, lastBest: Option<real>)

  datatype State = State(
    tracked: map<string, TrackedOrder>, counts: map<CountKey, int>, ambient: map<AmbientKey, Ambient>)

  const INITIAL := State(map[], map[], map[])

  const QUIET := Ambient([], [], None)

  function KeyOf(t: TrackedOrder): CountKey {
    CountKey(t.accountId, t.instrumentId, t.side)
  }

  function CountOf(counts: map<CountKey, int>, key: CountKey): int {
    if key in counts then counts[key] else 0
  }

  function AmbientOf(ambient: map<AmbientKey, Ambient>, key: AmbientKey): Ambient {
    if key in ambient then ambient[key] else QUIET
  }

  function MoveTime(): int -> int {
    (ts: int) => ts
  }

  function SampleTime(): Sample -> int {
    (s: Sample) => s.timestampNs
  }

  /** What a book is asked while one event is handled: the best prices, and the quantity at the order's level. */
  datatype Quotes = Quotes(bestBid: Option<real>, bestAsk: Option<real>, levelQty: int) {
    function Best(side: Side): Option<real> {
      if side.Buy? then bestBid else bestAsk
    }
  }

  function QuotesOf(live: seq<Resting>, e: Event): Quotes {
    Quotes(BestOf(live, Buy), BestOf(live, Sell),
           if e.OrderEvent? then TotalQty(LevelOf(live, e.order.side, e.order.price)) else 0)
  }

  // ------------------------------------------------------------ transitions

  /** A best-price move is noted before the windows are pruned, so it is pruned with the rest. */
  function Observed(cfg: Config, a: Ambient, best: Option<real>, ts: int): Ambient {
    var moved := a.lastBest.Some? && best.Some? && best.value != a.lastBest.value;
    Ambient(Prune(a.moves + (if moved then [ts] else []), MoveTime(), ts, cfg.densityWindowNs),
            Prune(a.samples, SampleTime(), ts, cfg.densityWindowNs),
            if best.Some? then best else a.lastBest)
  }

  function UpdateSide(cfg: Config, s: State, q: Quotes, instrumentId: string, side: Side, ts: int): State {
    var key := AmbientKey(instrumentId, side);
    s.(ambient := s.ambient[key := Observed(cfg, AmbientOf(s.ambient, key), q.Best(side), ts)])
  }

  function UpdateAmbient(cfg: Config, s: State, q: Quotes, instrumentId: string, ts: int): State {
    UpdateSide(cfg, UpdateSide(cfg, s, q, instrumentId, Buy, ts), q, instrumentId, Sell, ts)
  }

  /** What is remembered of a new order, whose level already includes it. */
  function Placement(q: Quotes, o: Order): TrackedOrder {
    TrackedOrder(o.accountId, o.instrumentId, o.side, o.qty, o.timestampNs,
                 if q.levelQty > 0 then o.qty as real / q.levelQty as real else 0.0,
                 q.Best(o.side.Opposite()))
  }

  function TrackNew(s: State, q: Quotes, o: Order): State {
    var t := Placement(q, o);
    var newCount := CountOf(s.counts, KeyOf(t)) + 1;
    var key := AmbientKey(o.instrumentId, o.side);
    var a := AmbientOf(s.ambient, key);
    State(s.tracked[o.orderId := t], s.counts[KeyOf(t) := newCount],
          s.ambient[key := a.(samples := a.samples + [Sample(o.timestampNs, o.accountId, newCount)])])
  }

  function EraseTracked(s: State, id: string): State {
    if id !in s.tracked then s
    else
      var key := KeyOf(s.tracked[id]);
      var counts :=
        if key !in s.counts then s.counts
        else if s.counts[key] - 1 <= 0 then s.counts - {key} else s.counts[key := s.counts[key] - 1];
      s.(tracked := s.tracked - {id}, counts := counts)
  }

  function HandleReplace(s: State, q: Quotes, o: Order): State {
    TrackNew(EraseTracked(s, o.origOrderId), q, o)
  }

  function HandleExecution(s: State, x: Execution): State {
    if x.orderId !in s.tracked then s
    else
      var t := s.tracked[x.orderId].(remainingQty := s.tracked[x.orderId].remainingQty - x.qty);
      var after := s.(tracked := s.tracked[x.orderId := t]);
      if t.remainingQty <= 0 then EraseTracked(after, x.orderId) else after
  }

  /** The market around a cancelled order, once it is no longer counted itself. */
  function SurroundingsOf(s: State, q: Quotes, t: TrackedOrder): Surroundings {
    Surroundings(q.Best(t.side.Opposite()),
                 |AmbientOf(s.ambient, AmbientKey(t.instrumentId, t.side.Opposite())).moves|,
                 CountOf(s.counts, KeyOf(t)),
                 AmbientOf(s.ambient, AmbientKey(t.instrumentId, t.side)).samples)
  }

  function CancelAlerts(cfg: Config, s: State, q: Quotes, sequence: nat, o: Order): seq<Alert> {
    if o.origOrderId !in s.tracked || o.timestampNs < s.tracked[o.origOrderId].placedTs then []
    else
      var t := s.tracked[o.origOrderId];
      var m := SurroundingsOf(EraseTracked(s, o.origOrderId), q, t);
      var score := Combined(cfg, t, m, o.timestampNs - t.placedTs);
      if score < cfg.alertThreshold then []
      else [Alert("SpoofingLayeringDetector", score, t.instrumentId, [t.accountId], [o.origOrderId], t.placedTs,
                  o.timestampNs, sequence)]
  }

  /** The part of a transition that follows the ambient update. */
  function React(s: State, q: Quotes, e: Event): State {
    match e
    case ExecutionEvent(x) => HandleExecution(s, x)
    case OrderEvent(o) =>
      match o.status
      case New => TrackNew(s, q, o)
      case Cancelled => EraseTracked(s, o.origOrderId)
      case Replaced => HandleReplace(s, q, o)
  }

  function EvaluateOn(cfg: Config, s: State, q: Quotes, sequence: nat, e: Event): (State, seq<Alert>) {
    var u := UpdateAmbient(cfg, s, q, e.InstrumentId(), e.TimestampNs());
    (React(u, q, e),
     if e.OrderEvent? && e.order.status.Cancelled? then CancelAlerts(cfg, u, q, sequence, e.order) else [])
  }

  /** One event, seen together with the book it has already been applied to. */
  function Evaluate(cfg: Config, s: State, b: Book, e: Event): (State, seq<Alert>) {
    EvaluateOn(cfg, s, QuotesOf(b.live, e), b.sequence, e)
  }
}
