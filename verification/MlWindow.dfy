/**
 The anomaly detector's tumbling windows, and the ground truth that later judges a scored window from
 its triggering timestamp alone.
 */
module MlWindow {
  import opened Options
  import opened FixTypes

  datatype Config = Config(windowDurationNs: int, minOrdersBeforeSubmit: int, submitEveryNOrders: int)

  datatype Key = Key(accountId: string, instrumentId: string)

  function KeyFor(o: Order): Key {
    Key(o.accountId, o.instrumentId)
  }

  datatype WindowStats = WindowStats(windowStartNs: int, orderCount: nat, totalQty: int, cancelCount: nat)

  const EMPTY := WindowStats(0, 0, 0, 0)

  // ------------------------------------------------ the window as a list of orders

  /** Where the window starts, and the orders that have been counted in it. */
  datatype Window = Window(start: int, counted: seq<Order>)

  predicate StartsAfresh(cfg: Config, start: int, o: Order) {
    start == 0 || o.timestampNs < start || o.timestampNs - start > cfg.windowDurationNs
  }

  predicate Counts(o: Order) {
    o.status.New? || o.status.Cancelled?
  }

  function Roll(cfg: Config, w: Window, o: Order): Window {
    var base := if StartsAfresh(cfg, w.start, o) then Window(o.timestampNs, []) else w;
    if Counts(o) then base.(counted := base.counted + [o]) else base
  }

  /** The window after all orders of one key. */
  function WindowAfter(cfg: Config, orders: seq<Order>): Window {
    if orders == [] then Window(0, []) else Roll(cfg, WindowAfter(cfg, orders[..|orders| - 1]), orders[|orders| - 1])
  }

  function StatsOf(w: Window): WindowStats {
    WindowStats(w.start, News(w.counted), Quantity(w.counted), |w.counted| - News(w.counted))
  }

  function News(orders: seq<Order>): (n: nat)
    ensures n <= |orders|
  {
    if orders == [] then 0
    else News(orders[..|orders| - 1]) + (if orders[|orders| - 1].status.New? then 1 else 0)
  }

  function Quantity(orders: seq<Order>): int {
    if orders == [] then 0
    else Quantity(orders[..|orders| - 1]) + (if orders[|orders| - 1].status.New? then orders[|orders| - 1].qty else 0)
  }

  // ------------------------------------------------------------- what it covers

  ghost predicate Spans(cfg: Config, w: Window) {
    forall o :: o in w.counted ==> w.start <= o.timestampNs <= w.start + cfg.windowDurationNs
  }

  lemma {:induction false} WindowSpans(cfg: Config, orders: seq<Order>)
    requires cfg.windowDurationNs >= 0
    ensures Spans(cfg, WindowAfter(cfg, orders))
    ensures orders != [] ==>
              var w, ts := WindowAfter(cfg, orders), orders[|orders| - 1].timestampNs;
              w.start <= ts <= w.start + cfg.windowDurationNs
  {
    if orders != [] {
      WindowSpans(cfg, orders[..|orders| - 1]);
    }
  }

  lemma {:induction false} CountedComeFromOrders(cfg: Config, orders: seq<Order>)
    ensures forall o :: o in WindowAfter(cfg, orders).counted ==> o in orders && Counts(o)
  {
    if orders != [] {
      CountedComeFromOrders(cfg, orders[..|orders| - 1]);
      assert orders == orders[..|orders| - 1] + [orders[|orders| - 1]];
    }
  }

  /** The interval the evaluation uses for a window triggered at `ts`. */
  predicate InReach(cfg: Config, ts: int, t: int) {
    ts - cfg.windowDurationNs <= t <= ts
  }

  ghost predicate TimesNeverFall(orders: seq<Order>) {
    forall i, j :: 0 <= i <= j < |orders| ==> orders[i].timestampNs <= orders[j].timestampNs
  }

  /**
   A counted order is never older than the interval; it lies in the interval exactly when it is not
   later than the triggering order.
   */
  lemma ReachIsOneSided(cfg: Config, orders: seq<Order>, o: Order)
    requires cfg.windowDurationNs >= 0 && orders != [] && o in WindowAfter(cfg, orders).counted
    ensures var ts := orders[|orders| - 1].timestampNs;
            InReach(cfg, ts, o.timestampNs) <==> o.timestampNs <= ts
  {
    WindowSpans(cfg, orders);
  }

  /** On timestamps that never fall the interval contains every counted order. */
  lemma ReachCoversWindow(cfg: Config, orders: seq<Order>)
    requires cfg.windowDurationNs >= 0 && orders != [] && TimesNeverFall(orders)
    ensures forall o :: o in WindowAfter(cfg, orders).counted ==>
              InReach(cfg, orders[|orders| - 1].timestampNs, o.timestampNs)
  {
    WindowSpans(cfg, orders);
    CountedComeFromOrders(cfg, orders);
  }

  // -------------------------------------------------------------- ground truth

  ghost predicate Ascending(ts: seq<int>) {
    forall i, j :: 0 <= i <= j < |ts| ==> ts[i] <= ts[j]
  }

  /** The sorted timestamps of the abusive orders. */
  function SortedTimes(orders: seq<Order>, abusive: Order -> bool): seq<int> {
    if orders == [] then []
    else
      var rest := SortedTimes(orders[..|orders| - 1], abusive);
      if abusive(orders[|orders| - 1]) then InsertSorted(rest, orders[|orders| - 1].timestampNs) else rest
  }

  function InsertSorted(ts: seq<int>, t: int): seq<int> {
    if ts == [] || ts[|ts| - 1] <= t then ts + [t]
    else InsertSorted(ts[..|ts| - 1], t) + [ts[|ts| - 1]]
  }

  lemma {:induction false} InsertSortedMembers(ts: seq<int>, t: int)
    ensures |InsertSorted(ts, t)| == |ts| + 1
    ensures forall u :: u in InsertSorted(ts, t) <==> u == t || u in ts
  {
    if ts != [] && ts[|ts| - 1] > t {
      InsertSortedMembers(ts[..|ts| - 1], t);
      assert ts == ts[..|ts| - 1] + [ts[|ts| - 1]];
    }
  }

  lemma {:induction false} InsertSortedAscends(ts: seq<int>, t: int)
    requires Ascending(ts)
    ensures Ascending(InsertSorted(ts, t))
  {
    if ts != [] && ts[|ts| - 1] > t {
      var init := ts[..|ts| - 1];
      InsertSortedAscends(init, t);
      InsertSortedMembers(init, t);
      var r := InsertSorted(init, t);
      assert forall i :: 0 <= i < |r| ==> r[i] in r;
    }
  }

  ghost predicate IsAbuseTime(orders: seq<Order>, abusive: Order -> bool, t: int) {
    exists o :: o in orders && abusive(o) && o.timestampNs == t
  }

  lemma {:induction false} SortedTimesAre(orders: seq<Order>, abusive: Order -> bool)
    ensures Ascending(SortedTimes(orders, abusive))
    ensures forall t :: t in SortedTimes(orders, abusive) <==> IsAbuseTime(orders, abusive, t)
  {
    if orders != [] {
      var init, last := orders[..|orders| - 1], orders[|orders| - 1];
      SortedTimesAre(init, abusive);
      assert orders == init + [last];
      forall t
        ensures IsAbuseTime(orders, abusive, t) <==>
                IsAbuseTime(init, abusive, t) || (abusive(last) && last.timestampNs == t)
      {
        if IsAbuseTime(init, abusive, t) {
          var o :| o in init && abusive(o) && o.timestampNs == t;
          assert o in orders;
        }
        assert last in orders;
      }
      if abusive(last) {
        InsertSortedAscends(SortedTimes(init, abusive), last.timestampNs);
        InsertSortedMembers(SortedTimes(init, abusive), last.timestampNs);
      }
    }
  }

  /** `std::lower_bound`: the first position whose value is not below the bound. */
  method LowerBound(ts: seq<int>, bound: int) returns (k: nat)
    requires Ascending(ts)
    ensures k <= |ts| && (forall i :: 0 <= i < k ==> ts[i] < bound) && (forall i :: k <= i < |ts| ==> ts[i] >= bound)
  {
    var lo, hi := 0, |ts|;
    while lo < hi
      invariant lo <= hi <= |ts|
      invariant forall i :: 0 <= i < lo ==> ts[i] < bound
      invariant forall i :: hi <= i < |ts| ==> ts[i] >= bound
    {
      var mid := (lo + hi) / 2;
      if ts[mid] < bound { lo := mid + 1; } else { hi := mid; }
    }
    k := lo;
  }

  /** The verdict on a window triggered at `ts`, given its key's abusive timestamps. */
  ghost predicate JudgedPositive(cfg: Config, times: seq<int>, ts: int) {
    exists i :: 0 <= i < |times| && InReach(cfg, ts, times[i])
  }

  /** A scored window is judged positive exactly when some abusive timestamp of its key lies in the interval. */
  method WindowIsPositive(cfg: Config, groundTruth: map<Key, seq<int>>, key: Key, ts: int) returns (positive: bool)
    requires forall k :: k in groundTruth ==> Ascending(groundTruth[k])
    ensures positive <==> key in groundTruth && JudgedPositive(cfg, groundTruth[key], ts)
  {
    if key !in groundTruth {
      return false;
    }
    var times := groundTruth[key];
    var k := LowerBound(times, ts - cfg.windowDurationNs);
    positive := k < |times| && times[k] <= ts;
  }

  /**
   The ground truth is built from `all` orders, while the detector handles only the orders of `seen`.
   On timestamps that never fall, any window that counted an abusive order is judged positive, at
   every moment of the stream and so in particular whenever it is submitted for scoring.
   */
  lemma CountedAbuseIsPositive(cfg: Config, all: seq<Order>, seen: seq<Order>, abusive: Order -> bool, n: nat, o: Order)
    requires cfg.windowDurationNs >= 0 && TimesNeverFall(seen) && 0 < n <= |seen|
    requires forall x :: x in seen ==> x in all
    requires o in WindowAfter(cfg, seen[..n]).counted && abusive(o)
    ensures var times := SortedTimes(all, abusive);
            Ascending(times) && JudgedPositive(cfg, times, seen[n - 1].timestampNs)
  {
    var times := SortedTimes(all, abusive);
    ReachCoversWindow(cfg, seen[..n]);
    CountedComeFromOrders(cfg, seen[..n]);
    SortedTimesAre(all, abusive);
    assert o in seen && o in all;
    assert IsAbuseTime(all, abusive, o.timestampNs);
    var i :| 0 <= i < |times| && times[i] == o.timestampNs;
    assert InReach(cfg, seen[n - 1].timestampNs, times[i]);
  }

  // ------------------------------------------------------------- the detector

  /** `ordersPerSecond` is `None` where the program divides by zero, which has no finite result. */
  datatype Features = Features(orderCount: real, totalQty: real, avgQty: real, cancelRatio: real, ordersPerSecond: Option<real>)

  datatype Submission = Submission(key: Key, timestampNs: int, bookSnapshotSequence: nat, features: Features)

  function FeaturesOf(cfg: Config, s: WindowStats): Features {
    var n := s.orderCount as real;
    var avgQty := if s.orderCount > 0 then s.totalQty as real / n else 0.0;
    var cancelRatio := if s.orderCount > 0 then s.cancelCount as real / n else 0.0;
    var seconds := cfg.windowDurationNs as real / 1000000000.0;
    Features(n, s.totalQty as real, avgQty, cancelRatio, if seconds == 0.0 then None else Some(n / seconds))
  }

  predicate Submits(cfg: Config, s: WindowStats)
    requires cfg.submitEveryNOrders != 0
  {
    s.orderCount >= cfg.minOrdersBeforeSubmit && s.orderCount % cfg.submitEveryNOrders == 0
  }

  /** An order and the sequence number of the book it was shown with. */
  datatype Handled = Handled(order: Order, sequence: nat)

  /** The handled orders of one key. */
  function OrdersFor(handled: seq<Handled>, key: Key): seq<Order> {
    if handled == [] then []
    else
      var n := |handled| - 1;
      OrdersFor(handled[..n], key) + (if KeyFor(handled[n].order) == key then [handled[n].order] else [])
  }

  /** The counters of one key's current window after all handled orders. */
  function StatsAfter(cfg: Config, handled: seq<Handled>, key: Key): WindowStats {
    StatsOf(WindowAfter(cfg, OrdersFor(handled, key)))
  }

  /** What the last of the handled orders makes the detector submit. */
  function SubmissionAfter(cfg: Config, handled: seq<Handled>): Option<Submission>
    requires cfg.submitEveryNOrders != 0 && handled != []
  {
    var h := handled[|handled| - 1];
    var key := KeyFor(h.order);
    var s := StatsAfter(cfg, handled, key);
    if Submits(cfg, s) then Some(Submission(key, h.order.timestampNs, h.sequence, FeaturesOf(cfg, s))) else None
  }

  function Optional<T>(x: Option<T>): seq<T> {
    if x.Some? then [x.value] else []
  }

  /** Everything submitted for scoring while the orders are handled. */
  function Submitted(cfg: Config, handled: seq<Handled>): (r: seq<Submission>)
    requires cfg.submitEveryNOrders != 0
    ensures |r| <= |handled|
  {
    if handled == [] then [] else Submitted(cfg, handled[..|handled| - 1]) + Optional(SubmissionAfter(cfg, handled))
  }

  class MlAnomalyDetector {
    const config: Config
    var statsByKey: map<Key, WindowStats>

    // Every order handled so far, and everything submitted so far.
    ghost var history: seq<Handled>
    ghost var sent: seq<Submission>

    function StatsFor(key: Key): WindowStats
      reads this
    {
      if key in statsByKey then statsByKey[key] else EMPTY
    }

    ghost predicate Valid()
      reads this
    {
      && config.submitEveryNOrders != 0
      && (forall key :: StatsFor(key) == StatsAfter(config, history, key))
      && sent == Submitted(config, history)
    }

    constructor (config: Config)
      requires config.submitEveryNOrders != 0
      ensures Valid() && history == [] && sent == [] && this.config == config
    {
      this.config := config;
      statsByKey, history, sent := map[], [], [];
      new;
      NoWindowYet();
    }

    /** Counts the order in its key's window, possibly a fresh one, and submits that window when it is due. */
    method HandleOrder(o: Order, sequence: nat) returns (submission: Option<Submission>)
      requires Valid()
      modifies this
      ensures Valid() && history == old(history) + [Handled(o, sequence)]
      ensures submission == SubmissionAfter(config, history) && sent == old(sent) + Optional(submission)
    {
      hide FeaturesOf, StatsAfter;
      var key := KeyFor(o);
      var stats := StatsFor(key);
      ghost var more := history + [Handled(o, sequence)];
      forall k
        ensures StatsAfter(config, more, k) ==
                if k == key then NextStats(config, StatsAfter(config, history, k), o) else StatsAfter(config, history, k)
      {
        NextWindow(config, history, Handled(o, sequence), k);
      }
      assert more[..|history|] == history;
      if stats.windowStartNs == 0 || o.timestampNs < stats.windowStartNs
         || o.timestampNs - stats.windowStartNs > config.windowDurationNs {
        stats := EMPTY.(windowStartNs := o.timestampNs);
      }
      if o.status.New? {
        stats := stats.(orderCount := stats.orderCount + 1, totalQty := stats.totalQty + o.qty);
      } else if o.status.Cancelled? {
        stats := stats.(cancelCount := stats.cancelCount + 1);
      }
      statsByKey := statsByKey[key := stats];
      history := more;
      submission := None;
      if stats.orderCount >= config.minOrdersBeforeSubmit && stats.orderCount % config.submitEveryNOrders == 0 {
        submission := Some(Submission(key, o.timestampNs, sequence, FeaturesOf(config, stats)));
      }
      sent := sent + Optional(submission);
    }
  }

  lemma NoWindowYet()
    ensures StatsOf(Window(0, [])) == EMPTY
  {
  }

  lemma NextWindow(cfg: Config, handled: seq<Handled>, h: Handled, key: Key)
    ensures StatsAfter(cfg, handled + [h], key) ==
            if key == KeyFor(h.order) then NextStats(cfg, StatsAfter(cfg, handled, key), h.order)
            else StatsAfter(cfg, handled, key)
  {
    var orders, more := OrdersFor(handled, key), handled + [h];
    assert more[..|handled|] == handled;
    if key == KeyFor(h.order) {
      assert (orders + [h.order])[..|orders|] == orders;
      RollStats(cfg, WindowAfter(cfg, orders), h.order);
    } else {
      assert orders + [] == orders;
    }
  }

  /** The new counters, as the program computes them from the old ones. */
  function NextStats(cfg: Config, s: WindowStats, o: Order): WindowStats {
    var base := if StartsAfresh(cfg, s.windowStartNs, o) then EMPTY.(windowStartNs := o.timestampNs) else s;
    if o.status.New? then base.(orderCount := base.orderCount + 1, totalQty := base.totalQty + o.qty)
    else if o.status.Cancelled? then base.(cancelCount := base.cancelCount + 1) else base
  }

  lemma RollStats(cfg: Config, w: Window, o: Order)
    ensures StatsOf(Roll(cfg, w, o)) == NextStats(cfg, StatsOf(w), o)
  {
    var base := if StartsAfresh(cfg, w.start, o) then Window(o.timestampNs, []) else w;
    assert StatsOf(Window(o.timestampNs, [])) == EMPTY.(windowStartNs := o.timestampNs);
    if Counts(o) {
      OneMoreCounted(base, o);
    }
  }

  lemma OneMoreCounted(w: Window, o: Order)
    requires Counts(o)
    ensures StatsOf(w.(counted := w.counted + [o])) ==
            var s := StatsOf(w);
            if o.status.New? then s.(orderCount := s.orderCount + 1, totalQty := s.totalQty + o.qty)
            else s.(cancelCount := s.cancelCount + 1)
  {
    assert (w.counted + [o])[..|w.counted|] == w.counted;
  }

  // ------------------------------------------------ where the verdict is wrong

  function Only(x: Order): Order -> bool {
    (o: Order) => o == x
  }

  /**
   Three orders of one key, the last of which falls back in time: they fill one window, which is submitted
   and judged negative, though it has counted the second order and that order is abusive.
   */
  lemma ReachCanMissACountedOrder(cfg: Config, first: Order, second: Order, third: Order, sequence: nat)
    requires first.status.New? && second.status.New? && third.status.New? && cfg.windowDurationNs == 60
    requires first.timestampNs == 10 && second.timestampNs == 50 && third.timestampNs == 20
    requires KeyFor(first) == KeyFor(second) == KeyFor(third)
    requires cfg.minOrdersBeforeSubmit <= 3 && cfg.submitEveryNOrders == 3
    ensures var orders := [first, second, third];
            var handled := [Handled(first, sequence), Handled(second, sequence), Handled(third, sequence)];
            && second in WindowAfter(cfg, orders).counted && OrdersFor(handled, KeyFor(third)) == orders
            && SubmissionAfter(cfg, handled).Some? && SubmissionAfter(cfg, handled).value.timestampNs == 20
            && !JudgedPositive(cfg, SortedTimes(orders, Only(second)), 20)
  {
    var orders := [first, second, third];
    var handled := [Handled(first, sequence), Handled(second, sequence), Handled(third, sequence)];
    WindowOfThree(cfg, first, second, third);
    OrdersOfThree(handled, KeyFor(third));
    NewsOfThree(orders);
    SortedTimesAre(orders, Only(second));
    var times := SortedTimes(orders, Only(second));
    forall i | 0 <= i < |times|
      ensures times[i] == 50
    {
      assert IsAbuseTime(orders, Only(second), times[i]);
    }
  }

  lemma WindowOfThree(cfg: Config, first: Order, second: Order, third: Order)
    requires Counts(first) && Counts(second) && Counts(third) && cfg.windowDurationNs == 60
    requires first.timestampNs == 10 && second.timestampNs == 50 && third.timestampNs == 20
    ensures WindowAfter(cfg, [first, second, third]) == Window(10, [first, second, third])
  {
    var orders := [first, second, third];
    assert orders[..2] == [first, second] && [first, second][..1] == [first] && [first][..0] == [];
    assert WindowAfter(cfg, []) == Window(0, []);
    assert WindowAfter(cfg, [first]) == Window(10, [first]);
    assert WindowAfter(cfg, [first, second]) == Window(10, [first, second]);
  }

  lemma OrdersOfThree(handled: seq<Handled>, key: Key)
    requires |handled| == 3 && forall i :: 0 <= i < 3 ==> KeyFor(handled[i].order) == key
    ensures OrdersFor(handled, key) == [handled[0].order, handled[1].order, handled[2].order]
  {
    assert handled[..2][..1] == handled[..1] && handled[..1][..0] == [];
    assert OrdersFor(handled[..1], key) == [handled[0].order];
    assert OrdersFor(handled[..2], key) == [handled[0].order, handled[1].order];
  }

  lemma NewsOfThree(orders: seq<Order>)
    requires |orders| == 3 && forall i :: 0 <= i < 3 ==> orders[i].status.New?
    ensures News(orders) == 3
  {
    assert orders[..2][..1] == orders[..1] && orders[..1][..0] == [];
    assert News(orders[..1]) == 1 && News(orders[..2]) == 2;
  }
}
