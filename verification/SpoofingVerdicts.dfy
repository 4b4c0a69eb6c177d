/**
 What the spoofing detector remembers of an order, and its verdict on a Cancel, in terms of everything it
 has been shown: the calls so far, the book of the Cancel, and nothing else.
 */
module SpoofingVerdicts {
  import opened Options
  import opened FixTypes
  import opened BookModel
  import opened RollingWindow
  import opened Alerts
  import opened SpoofingScore
  import opened SpoofingModel
  import opened SpoofingCounts
  import opened SpoofingSignals

  function OtherSide(side: Side): Side {
    match side case Buy => Sell case Sell => Buy
  }

  /** The part of the level that is the order's own; a level that shows nothing counts as none. */
  predicate IsShareOf(ratio: real, qty: int, levelQty: int) {
    if levelQty > 0 then ratio * levelQty as real == qty as real else ratio == 0.0
  }

  /** `t` is what there is to remember of the order `o`, shown with the book `b` that already holds it. */
  predicate Remembers(t: TrackedOrder, b: Book, o: Order) {
    && t.accountId == o.accountId && t.instrumentId == o.instrumentId && t.side == o.side
    && t.placedTs == o.timestampNs
    && IsShareOf(t.depthRatio, o.qty, TotalQty(LevelOf(b.live, o.side, o.price)))
    && t.oppositeBest == BestOf(b.live, OtherSide(o.side))
  }

  lemma DivisionIs(a: real, b: real)
    requires b != 0.0
    ensures (a / b) * b == a
  {
  }

  lemma PlacementRemembers(b: Book, o: Order)
    ensures Remembers(Placement(QuotesOf(b.live, OrderEvent(o)), o), b, o)
    ensures Placement(QuotesOf(b.live, OrderEvent(o)), o).remainingQty == o.qty
  {
    var levelQty := TotalQty(LevelOf(b.live, o.side, o.price));
    if levelQty > 0 {
      DivisionIs(o.qty as real, levelQty as real);
    }
  }

  /** What one event does to the tracked orders. */
  ghost predicate Retracks(before: Tracked, after: Tracked, b: Book, e: Event) {
    match e
    case ExecutionEvent(x) =>
      if x.orderId !in before then after == before
      else
        var left := before[x.orderId].remainingQty - x.qty;
        after == if left <= 0 then before - {x.orderId} else before[x.orderId := before[x.orderId].(remainingQty := left)]
    case OrderEvent(o) =>
      match o.status
      case Cancelled => after == before - {o.origOrderId}
      case _ =>
        && o.orderId in after && after[o.orderId].remainingQty == o.qty && Remembers(after[o.orderId], b, o)
        && after - {o.orderId} == before - {o.orderId} - (if o.status.Replaced? then {o.origOrderId} else {})
  }

  lemma TrackingStep(cfg: Config, s: State, b: Book, e: Event)
    ensures Retracks(s.tracked, Evaluate(cfg, s, b, e).0.tracked, b, e)
  {
    hide Observed, Placement, Remembers;
    var q := QuotesOf(b.live, e);
    var u := UpdateAmbient(cfg, s, q, e.InstrumentId(), e.TimestampNs());
    UpdateAmbientAt(cfg, s, q, e.InstrumentId(), e.TimestampNs(), AmbientKey(e.InstrumentId(), Buy));
    hide UpdateAmbient, QuotesOf;
    if e.OrderEvent? {
      PlacementRemembers(b, e.order);
    }
  }

  predicate Tracks(c: Call, id: string, t: TrackedOrder) {
    c.event.OrderEvent? && !c.event.order.status.Cancelled? && c.event.order.orderId == id
    && Remembers(t, c.book, c.event.order)
  }

  ghost predicate WasPlaced(calls: seq<Call>, id: string, t: TrackedOrder) {
    exists i :: 0 <= i < |calls| && Tracks(calls[i], id, t)
  }

  lemma PlacedBefore(init: seq<Call>, c: Call, id: string, t: TrackedOrder, u: TrackedOrder)
    requires WasPlaced(init, id, t) && u == t.(remainingQty := u.remainingQty)
    ensures WasPlaced(init + [c], id, u)
  {
    var i :| 0 <= i < |init| && Tracks(init[i], id, t);
    assert Tracks((init + [c])[i], id, u);
  }

  lemma RunTracks(cfg: Config, calls: seq<Call>)
    requires calls != []
    ensures var n := |calls| - 1;
            Retracks(After(cfg, calls[..n]).tracked, After(cfg, calls).tracked, calls[n].book, calls[n].event)
  {
    hide Evaluate, Retracks;
    var n := |calls| - 1;
    TrackingStep(cfg, After(cfg, calls[..n]), calls[n].book, calls[n].event);
  }

  lemma NothingTracked(cfg: Config)
    ensures After(cfg, []).tracked == map[]
  {
  }

  /** After any calls, everything tracked is remembered from a call that placed it under that id. */
  lemma {:induction false} TrackedWerePlaced(cfg: Config, calls: seq<Call>, id: string)
    requires id in After(cfg, calls).tracked
    ensures WasPlaced(calls, id, After(cfg, calls).tracked[id])
  {
    hide After, Retracks, Remembers, WasPlaced;
    NothingTracked(cfg);
    if calls != [] {
      var init, c := calls[..|calls| - 1], calls[|calls| - 1];
      var before, after := After(cfg, init).tracked, After(cfg, calls).tracked;
      RunTracks(cfg, calls);
      assert calls == init + [c];
      if c.event.OrderEvent? && !c.event.order.status.Cancelled? && c.event.order.orderId == id {
        PlacedNow(before, after, c, id);
        LastPlaced(calls, id, after[id]);
      } else {
        Untouched(before, after, c.book, c.event, id);
        TrackedWerePlaced(cfg, init, id);
        PlacedBefore(init, c, id, before[id], after[id]);
      }
    }
  }

  lemma PlacedNow(before: Tracked, after: Tracked, c: Call, id: string)
    requires Retracks(before, after, c.book, c.event) && id in after
    requires c.event.OrderEvent? && !c.event.order.status.Cancelled? && c.event.order.orderId == id
    ensures Tracks(c, id, after[id])
  {
  }

  lemma LastPlaced(calls: seq<Call>, id: string, t: TrackedOrder)
    requires calls != [] && Tracks(calls[|calls| - 1], id, t)
    ensures WasPlaced(calls, id, t)
  {
  }

  lemma Untouched(before: Tracked, after: Tracked, b: Book, e: Event, id: string)
    requires Retracks(before, after, b, e) && id in after
    requires !(e.OrderEvent? && !e.order.status.Cancelled? && e.order.orderId == id)
    ensures id in before && after[id] == before[id].(remainingQty := after[id].remainingQty)
  {
    if e.OrderEvent? && !e.order.status.Cancelled? {
      assert id in after - {e.order.orderId};
      assert (after - {e.order.orderId})[id] == after[id];
    }
  }

  // --------------------------------------------------------------- the verdict

  /** The other tracked orders of the same account, instrument and side. */
  function Siblings(tracked: Tracked, id: string): set<string>
    requires id in tracked
  {
    set x | x in tracked && x != id && tracked[x].accountId == tracked[id].accountId
          && tracked[x].instrumentId == tracked[id].instrumentId && tracked[x].side == tracked[id].side
  }

  /** The market a Cancel is judged against, from the calls up to and including it. */
  ghost function Market(cfg: Config, calls: seq<Call>, tracked: Tracked, id: string): Surroundings
    requires id in tracked && calls != []
  {
    var t := tracked[id];
    Surroundings(
      BestOf(calls[|calls| - 1].book.live, OtherSide(t.side)),
      |Contents(MoveTicks(cfg, calls, AmbientKey(t.instrumentId, OtherSide(t.side))), MoveTime(), cfg.densityWindowNs)|,
      |Siblings(tracked, id)|,
      Contents(SampleTicks(cfg, calls, AmbientKey(t.instrumentId, t.side)), SampleTime(), cfg.densityWindowNs))
  }

  /** An alert for the order, exactly if its score reaches the threshold. */
  ghost predicate IsVerdict(cfg: Config, m: Surroundings, t: TrackedOrder, sequence: nat, o: Order, alerts: seq<Alert>) {
    exists score :: IsScore(cfg, t, m, o.timestampNs - t.placedTs, score) && Reports(cfg, t, sequence, o, score, alerts)
  }

  predicate Reports(cfg: Config, t: TrackedOrder, sequence: nat, o: Order, score: real, alerts: seq<Alert>) {
    if score < cfg.alertThreshold then alerts == []
    else
      && |alerts| == 1
      && var a := alerts[0];
         && a.detectorName == "SpoofingLayeringDetector" && a.score == score && a.instrumentId == t.instrumentId
         && a.accountIds == [t.accountId] && a.orderIds == [o.origOrderId]
         && a.windowStartNs == t.placedTs && a.windowEndNs == o.timestampNs && a.bookSnapshotSequence == sequence
  }

  lemma SiblingsCounted(s: State, id: string)
    requires CountsExact(s.tracked, s.counts) && id in s.tracked
    ensures CountOf(EraseTracked(s, id).counts, KeyOf(s.tracked[id])) == |Siblings(s.tracked, id)|
  {
    EraseKeepsCounts(s, id);
    assert IdsWith(EraseTracked(s, id).tracked, KeyOf(s.tracked[id])) == Siblings(s.tracked, id);
  }

  lemma MarketIs(cfg: Config, calls: seq<Call>, b: Book, o: Order)
    requires cfg.densityWindowNs >= 0 && o.status.Cancelled?
    requires var s := After(cfg, calls); CountsExact(s.tracked, s.counts) && o.origOrderId in s.tracked
    ensures var s, all := After(cfg, calls), calls + [Call(b, OrderEvent(o))];
            var q := QuotesOf(b.live, OrderEvent(o));
            var u := UpdateAmbient(cfg, s, q, o.instrumentId, o.timestampNs);
            && u.tracked == s.tracked
            && SurroundingsOf(EraseTracked(u, o.origOrderId), q, s.tracked[o.origOrderId])
               == Market(cfg, all, s.tracked, o.origOrderId)
  {
    var s, all := After(cfg, calls), calls + [Call(b, OrderEvent(o))];
    var t, q := s.tracked[o.origOrderId], QuotesOf(b.live, OrderEvent(o));
    var u := UpdateAmbient(cfg, s, q, o.instrumentId, o.timestampNs);
    assert all[..|calls|] == calls;
    assert After(cfg, all) == EraseTracked(u, o.origOrderId);
    var other, same := AmbientKey(t.instrumentId, OtherSide(t.side)), AmbientKey(t.instrumentId, t.side);
    UpdateAmbientAt(cfg, s, q, o.instrumentId, o.timestampNs, other);
    SiblingsCounted(u, o.origOrderId);
    MovesAreTheWindow(cfg, all, other);
    SamplesAreTheWindow(cfg, all, same);
    hide After, UpdateAmbient, MoveTicks, SampleTicks, Contents, CountsExact;
  }

  /**
   A Cancel of an order that is not tracked, or that appears to precede its placement, reports nothing. Any
   other is judged by the score of the order in the market of that moment: what the calls up to it leave in
   the windows, the book's opposite best price, and the account's other orders on the side.
   */
  lemma CancelIsJudged(cfg: Config, calls: seq<Call>, b: Book, o: Order)
    requires cfg.densityWindowNs >= 0 && o.status.Cancelled?
    requires CountsExact(After(cfg, calls).tracked, After(cfg, calls).counts)
    ensures var tracked, alerts := After(cfg, calls).tracked, Evaluate(cfg, After(cfg, calls), b, OrderEvent(o)).1;
            if o.origOrderId !in tracked || o.timestampNs < tracked[o.origOrderId].placedTs then alerts == []
            else IsVerdict(cfg, Market(cfg, calls + [Call(b, OrderEvent(o))], tracked, o.origOrderId),
                           tracked[o.origOrderId], b.sequence, o, alerts)
  {
    hide After, UpdateAmbient, Market, Combined, QuotesOf, CountsExact, IsScore, Reports, SurroundingsOf, EraseTracked;
    var s, q := After(cfg, calls), QuotesOf(b.live, OrderEvent(o));
    var u := UpdateAmbient(cfg, s, q, o.instrumentId, o.timestampNs);
    UpdateAmbientAt(cfg, s, q, o.instrumentId, o.timestampNs, AmbientKey(o.instrumentId, Buy));
    assert Evaluate(cfg, s, b, OrderEvent(o)).1 == CancelAlerts(cfg, u, q, b.sequence, o);
    if o.origOrderId in s.tracked && o.timestampNs >= s.tracked[o.origOrderId].placedTs {
      MarketIs(cfg, calls, b, o);
      var t, m := s.tracked[o.origOrderId], Market(cfg, calls + [Call(b, OrderEvent(o))], s.tracked, o.origOrderId);
      var score := Combined(cfg, t, m, o.timestampNs - t.placedTs);
      ScoreIsAsDescribed(cfg, t, m, o.timestampNs - t.placedTs, score);
      CancelReports(cfg, u, q, b.sequence, o, m);
    }
  }

  lemma CancelReports(cfg: Config, u: State, q: Quotes, sequence: nat, o: Order, m: Surroundings)
    requires o.origOrderId in u.tracked && o.timestampNs >= u.tracked[o.origOrderId].placedTs
    requires m == SurroundingsOf(EraseTracked(u, o.origOrderId), q, u.tracked[o.origOrderId])
    ensures var t := u.tracked[o.origOrderId];
            Reports(cfg, t, sequence, o, Combined(cfg, t, m, o.timestampNs - t.placedTs), CancelAlerts(cfg, u, q, sequence, o))
  {
    hide Combined, SurroundingsOf, EraseTracked;
  }

  /** No other event reports anything. */
  lemma OnlyCancelsReport(cfg: Config, s: State, b: Book, e: Event)
    requires Evaluate(cfg, s, b, e).1 != []
    ensures e.OrderEvent? && e.order.status.Cancelled?
  {
  }

  // ------------------------------------------------------------ last best price

  /** The best price the book showed at the last call of the instrument that had one. */
  function LastShown(calls: seq<Call>, key: AmbientKey): Option<real> {
    if calls == [] then None
    else
      var c := calls[|calls| - 1];
      var best := BestOf(c.book.live, key.side);
      if c.event.InstrumentId() == key.instrumentId && best.Some? then best else LastShown(calls[..|calls| - 1], key)
  }

  /** So a move is noted exactly when the best price differs from the last one shown. */
  lemma {:induction false} LastBestIs(cfg: Config, calls: seq<Call>, key: AmbientKey)
    ensures AmbientOf(After(cfg, calls).ambient, key).lastBest == LastShown(calls, key)
  {
    if calls != [] {
      var init, c := calls[..|calls| - 1], calls[|calls| - 1];
      LastBestIs(cfg, init, key);
      LastBestStep(cfg, After(cfg, init), c.book, c.event, key);
      hide Evaluate;
    }
  }

  lemma LastBestStep(cfg: Config, s: State, b: Book, e: Event, key: AmbientKey)
    ensures AmbientOf(Evaluate(cfg, s, b, e).0.ambient, key).lastBest ==
            if e.InstrumentId() == key.instrumentId && BestOf(b.live, key.side).Some? then BestOf(b.live, key.side)
            else AmbientOf(s.ambient, key).lastBest
  {
    var q := QuotesOf(b.live, e);
    UpdateAmbientAt(cfg, s, q, e.InstrumentId(), e.TimestampNs(), key);
    hide UpdateAmbient, CancelAlerts;
  }
}
