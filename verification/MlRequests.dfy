/** What a window of the anomaly detector is, when it is submitted, and what the request says of its orders. */
module MlRequests {
  import opened Options
  import opened FixTypes
  import opened MlWindow

  function WithStatus(orders: seq<Order>, status: OrderStatus): seq<Order> {
    if orders == [] then []
    else (if orders[0].status == status then [orders[0]] else []) + WithStatus(orders[1..], status)
  }

  function TotalOf(orders: seq<Order>): int {
    if orders == [] then 0 else orders[0].qty + TotalOf(orders[1..])
  }

  /** The New and Cancelled orders of a list. */
  function Countable(orders: seq<Order>): seq<Order> {
    if orders == [] then []
    else (if orders[0].status == Replaced then [] else [orders[0]]) + Countable(orders[1..])
  }

  // ------------------------------------------------------------- front and back

  lemma {:induction false} OneMore(orders: seq<Order>, o: Order, status: OrderStatus)
    ensures WithStatus(orders + [o], status) == WithStatus(orders, status) + (if o.status == status then [o] else [])
    ensures Countable(orders + [o]) == Countable(orders) + (if o.status == Replaced then [] else [o])
    ensures TotalOf(orders + [o]) == TotalOf(orders) + o.qty
  {
    if orders == [] {
      assert orders + [o] == [o] && [o][1..] == [];
    } else {
      assert (orders + [o])[1..] == orders[1..] + [o];
      OneMore(orders[1..], o, status);
    }
  }

  lemma {:induction false} CountersAre(orders: seq<Order>)
    requires forall i :: 0 <= i < |orders| ==> Counts(orders[i])
    ensures News(orders) == |WithStatus(orders, New)|
    ensures |orders| - News(orders) == |WithStatus(orders, Cancelled)|
    ensures Quantity(orders) == TotalOf(WithStatus(orders, New))
  {
    if orders != [] {
      var init, o := orders[..|orders| - 1], orders[|orders| - 1];
      CountersAre(init);
      assert orders == init + [o];
      OneMore(init, o, New);
      OneMore(init, o, Cancelled);
      OneMore(WithStatus(init, New), o, New);
      assert WithStatus(init, New) + [] == WithStatus(init, New);
      hide WithStatus, TotalOf;
    }
  }

  // ------------------------------------------------------------------ the window

  /** The order at `k` could not join the window before it: there was none, or it was out of its span. */
  ghost predicate Restarts(cfg: Config, orders: seq<Order>, k: nat)
    requires k < |orders|
  {
    var start := WindowAfter(cfg, orders[..k]).start;
    start == 0 || !(start <= orders[k].timestampNs <= start + cfg.windowDurationNs)
  }

  /** The window began at `k` and holds everything countable since; no later order restarted it. */
  ghost predicate BeganAt(cfg: Config, orders: seq<Order>, k: nat, w: Window) {
    && k < |orders| && Restarts(cfg, orders, k)
    && w.start == orders[k].timestampNs && w.counted == Countable(orders[k..])
    && forall j :: k < j < |orders| ==>
         w.start != 0 && w.start <= orders[j].timestampNs && orders[j].timestampNs <= w.start + cfg.windowDurationNs
  }

  lemma BeginsHere(cfg: Config, orders: seq<Order>)
    requires orders != [] && Restarts(cfg, orders, |orders| - 1)
    ensures BeganAt(cfg, orders, |orders| - 1, WindowAfter(cfg, orders))
  {
    var n := |orders| - 1;
    assert orders[n..] == [orders[n]] && [orders[n]][1..] == [];
  }

  lemma RollOnce(cfg: Config, init: seq<Order>, o: Order)
    ensures WindowAfter(cfg, init + [o]) == Roll(cfg, WindowAfter(cfg, init), o)
  {
    assert (init + [o])[..|init|] == init;
  }

  lemma JoinsWindow(cfg: Config, w: Window, o: Order)
    requires w.start != 0 && w.start <= o.timestampNs <= w.start + cfg.windowDurationNs
    ensures Roll(cfg, w, o) == Window(w.start, w.counted + (if o.status == Replaced then [] else [o]))
  {
    assert w.counted + [] == w.counted;
  }

  lemma GoesOn(cfg: Config, init: seq<Order>, o: Order, k: nat)
    requires !Restarts(cfg, init + [o], |init|) && BeganAt(cfg, init, k, WindowAfter(cfg, init))
    ensures BeganAt(cfg, init + [o], k, WindowAfter(cfg, init + [o]))
  {
    hide WindowAfter, Countable, Roll;
    var orders := init + [o];
    assert orders[..|init|] == init && init[..k] == orders[..k] && orders[k..] == init[k..] + [o];
    OneMore(init[k..], o, New);
    RollOnce(cfg, init, o);
    JoinsWindow(cfg, WindowAfter(cfg, init), o);
  }

  /** The window in force is that of the last order that had to restart it. */
  lemma {:induction false} WindowBegan(cfg: Config, orders: seq<Order>)
    requires orders != []
    ensures exists k :: BeganAt(cfg, orders, k, WindowAfter(cfg, orders))
  {
    var n := |orders| - 1;
    if Restarts(cfg, orders, n) {
      BeginsHere(cfg, orders);
    } else {
      if n > 0 {
        WindowBegan(cfg, orders[..n]);
        var k :| BeganAt(cfg, orders[..n], k, WindowAfter(cfg, orders[..n]));
        assert orders == orders[..n] + [orders[n]];
        GoesOn(cfg, orders[..n], orders[n], k);
      }
    }
  }

  // ----------------------------------------------------------------- the request

  /** `f` describes the New orders `news`, next to a number of cancels, in a window of the configured length. */
  predicate Describes(cfg: Config, f: Features, news: seq<Order>, cancels: nat) {
    && f.orderCount == |news| as real && f.totalQty == TotalOf(news) as real
    && (if news == [] then f.avgQty == 0.0 && f.cancelRatio == 0.0
        else f.avgQty * |news| as real == TotalOf(news) as real && f.cancelRatio * |news| as real == cancels as real)
    && match f.ordersPerSecond
       case None => cfg.windowDurationNs == 0
       case Some(rate) => cfg.windowDurationNs != 0 && rate * cfg.windowDurationNs as real == |news| as real * 1000000000.0
  }

  lemma DivisionIs(a: real, b: real)
    requires b != 0.0
    ensures (a / b) * b == a
  {
  }

  lemma RateIs(n: real, duration: real)
    requires duration != 0.0
    ensures duration / 1000000000.0 != 0.0
    ensures (n / (duration / 1000000000.0)) * duration == n * 1000000000.0
  {
    var seconds := duration / 1000000000.0;
    assert duration == seconds * 1000000000.0;
    DivisionIs(n, seconds);
    var rate := n / seconds;
    assert rate * (seconds * 1000000000.0) == (rate * seconds) * 1000000000.0;
  }

  lemma FeaturesDescribe(cfg: Config, s: WindowStats, news: seq<Order>)
    requires s.orderCount == |news| && s.totalQty == TotalOf(news)
    ensures Describes(cfg, FeaturesOf(cfg, s), news, s.cancelCount)
  {
    hide TotalOf;
    if s.orderCount > 0 {
      DivisionIs(s.totalQty as real, s.orderCount as real);
      DivisionIs(s.cancelCount as real, s.orderCount as real);
    }
    if cfg.windowDurationNs != 0 {
      RateIs(s.orderCount as real, cfg.windowDurationNs as real);
    }
  }

  lemma {:induction false} CountedCount(cfg: Config, orders: seq<Order>)
    ensures forall i :: 0 <= i < |WindowAfter(cfg, orders).counted| ==> Counts(WindowAfter(cfg, orders).counted[i])
  {
    if orders != [] {
      CountedCount(cfg, orders[..|orders| - 1]);
    }
  }

  ghost predicate IsMultiple(n: nat, every: int) {
    exists m: int :: n == m * every
  }

  lemma MultipleIff(n: nat, every: int)
    requires every != 0
    ensures n % every == 0 <==> IsMultiple(n, every)
  {
    if n % every == 0 {
      assert n == (n / every) * every;
    }
    if IsMultiple(n, every) {
      var m: int :| n == m * every;
      MultipleHasNoRemainder(m, every);
    }
  }

  lemma MultipleHasNoRemainder(m: int, every: int)
    requires every != 0
    ensures (m * every) % every == 0
  {
    var n := m * every;
    var q, r := n / every, n % every;
    assert every * q + r == n;
    assert every * (m - q) == r;
    if m != q {
      NotWithin(every, m - q);
    }
  }

  lemma NotWithin(a: int, d: int)
    requires d != 0 && a != 0
    ensures a * d < 0 || a * d >= (if a > 0 then a else -a)
  {
    if a > 0 && d > 0 { assert a * d >= a; }
    if a < 0 && d < 0 { assert a * d >= -a; }
    if a > 0 && d < 0 { assert a * d < 0; }
    if a < 0 && d > 0 { assert a * d < 0; }
  }

  /**
   The order just handled leads to a request if and only if the New orders of its key's window are enough and
   a multiple of the interval; the request is about that key, order and book, and describes those orders.
   */
  lemma RequestIffDue(cfg: Config, handled: seq<Handled>)
    requires cfg.submitEveryNOrders != 0 && handled != []
    ensures var h := handled[|handled| - 1];
            var counted := WindowAfter(cfg, OrdersFor(handled, KeyFor(h.order))).counted;
            var news, request := WithStatus(counted, New), SubmissionAfter(cfg, handled);
            && (request.Some? <==> |news| >= cfg.minOrdersBeforeSubmit && IsMultiple(|news|, cfg.submitEveryNOrders))
            && (request.Some? ==>
                  && request.value.key.accountId == h.order.accountId
                  && request.value.key.instrumentId == h.order.instrumentId
                  && request.value.timestampNs == h.order.timestampNs && request.value.bookSnapshotSequence == h.sequence
                  && Describes(cfg, request.value.features, news, |WithStatus(counted, Cancelled)|))
  {
    hide FeaturesOf, Describes, WithStatus, IsMultiple;
    var h := handled[|handled| - 1];
    var orders := OrdersFor(handled, KeyFor(h.order));
    var counted := WindowAfter(cfg, orders).counted;
    CountedCount(cfg, orders);
    CountersAre(counted);
    MultipleIff(|WithStatus(counted, New)|, cfg.submitEveryNOrders);
    FeaturesDescribe(cfg, StatsOf(WindowAfter(cfg, orders)), WithStatus(counted, New));
  }

  ghost predicate WasHandled(handled: seq<Handled>, o: Order) {
    exists i :: 0 <= i < |handled| && handled[i].order == o
  }

  lemma HandledOneMore(init: seq<Handled>, h: Handled, o: Order)
    ensures WasHandled(init + [h], o) <==> WasHandled(init, o) || h.order == o
  {
    var all := init + [h];
    if WasHandled(init, o) {
      var i :| 0 <= i < |init| && init[i].order == o;
      assert all[i].order == o;
    }
    assert all[|init|].order == h.order;
  }

  /** The orders a key's windows are made of are exactly the handled ones of its account and instrument. */
  lemma {:induction false} OrdersForAre(handled: seq<Handled>, key: Key, o: Order)
    ensures o in OrdersFor(handled, key) <==>
            o.accountId == key.accountId && o.instrumentId == key.instrumentId && WasHandled(handled, o)
  {
    if handled != [] {
      var init, h := handled[..|handled| - 1], handled[|handled| - 1];
      OrdersForAre(init, key, o);
      HandledOneMore(init, h, o);
      assert handled == init + [h];
    }
  }
}
