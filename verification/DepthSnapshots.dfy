/** Depth snapshots as a function of the reference list, with an exact account of what they contain. */
module DepthSnapshots {
  import opened Options
  import opened FixTypes
  import opened BookModel
  import opened BookProperties
  import opened OrderBookState

  datatype RestingOrderSummary = RestingOrderSummary(orderId: string, accountId: string, qty: int)

  datatype PriceLevel = PriceLevel(price: real, totalQty: int, orders: seq<RestingOrderSummary>)

  datatype DepthSnapshot = DepthSnapshot(
    instrumentId: string, sequence: nat, lastEventTimestampNs: int, bids: seq<PriceLevel>, asks: seq<PriceLevel>)

  function Summaries(orders: seq<Resting>): seq<RestingOrderSummary> {
    seq(|orders|, i requires 0 <= i < |orders| => RestingOrderSummary(orders[i].id, orders[i].account, orders[i].qty))
  }

  function LevelSummary(live: seq<Resting>, side: Side, price: real): PriceLevel {
    var q := LevelOf(live, side, price);
    PriceLevel(price, TotalQty(q), Summaries(q))
  }

  // ------------------------------------------------- prices in ascending order

  ghost predicate IsLeast(p: real, prices: set<real>) {
    p in prices && forall q :: q in prices ==> p <= q
  }

  lemma SomeMember<T>(s: set<T>) returns (x: T)
    requires s != {}
    ensures x in s
  {
    x :| x in s;
  }

  lemma {:induction false} LeastBelow(prices: set<real>, x: real)
    requires x in prices
    ensures exists p :: IsLeast(p, prices) && p <= x
  {
    if y :| y in prices && y < x {
      LeastBelow(prices - {x}, y);
      var p :| IsLeast(p, prices - {x}) && p <= y;
      assert forall q :: q in prices ==> q == x || q in prices - {x};
      assert IsLeast(p, prices);
    } else {
      assert IsLeast(x, prices);
    }
  }

  lemma LeastExists(prices: set<real>)
    requires prices != {}
    ensures exists p :: IsLeast(p, prices)
  {
    var x := SomeMember(prices);
    LeastBelow(prices, x);
  }

  ghost predicate StrictlyAscending(ps: seq<real>) {
    forall i, j :: 0 <= i < j < |ps| ==> ps[i] < ps[j]
  }

  lemma EndsOfAscending(ps: seq<real>, p: real)
    requires StrictlyAscending(ps) && p in ps
    ensures ps[0] <= p <= ps[|ps| - 1]
  {
  }

  /** The elements of a finite set of prices, in increasing order. */
  ghost function Ascending(prices: set<real>): (ps: seq<real>)
    ensures StrictlyAscending(ps) && (forall p :: p in ps <==> p in prices)
  {
    if prices == {} then []
    else
      LeastExists(prices);
      var p :| IsLeast(p, prices);
      var rest := Ascending(prices - {p});
      assert forall q :: q in rest ==> p < q;
      [p] + rest
  }

  /** There is only one such list. */
  lemma {:induction false} AscendingUnique(a: seq<real>, b: seq<real>)
    requires StrictlyAscending(a) && StrictlyAscending(b) && forall p :: p in a <==> p in b
    ensures a == b
  {
    assert a != [] ==> a[0] in a;
    assert b != [] ==> b[0] in b;
    if a != [] {
      assert a[0] in a && a[0] in b && b[0] in b && b[0] in a;
      assert a[0] == b[0];
      forall p
        ensures p in a[1..] <==> p in b[1..]
      {
        if p in a[1..] { assert p in b && p != a[0]; }
        if p in b[1..] { assert p in a && p != b[0]; }
      }
      AscendingUnique(a[1..], b[1..]);
    }
  }

  /** A best price is offered by some order of the side and beaten by none. */
  lemma {:induction false} BestIsUnbeaten(live: seq<Resting>, side: Side)
    ensures BestOf(live, side).None? <==> PricesOf(live, side) == {}
    ensures BestOf(live, side).Some? ==>
              BestOf(live, side).value in PricesOf(live, side)
              && forall p :: p in PricesOf(live, side) ==> !Better(side, p, BestOf(live, side).value)
  {
    if live != [] {
      var init, r := live[..|live| - 1], live[|live| - 1];
      BestIsUnbeaten(init, side);
      assert live == init + [r];
      assert PricesOf(live, side) == PricesOf(init, side) + (if r.side == side then {r.price} else {});
    }
  }

  lemma BestIsAtTheEnd(live: seq<Resting>, side: Side)
    ensures var prices := Ascending(PricesOf(live, side));
            BestOf(live, side) ==
            if prices == [] then None else Some(if side.Buy? then prices[|prices| - 1] else prices[0])
  {
    BestIsUnbeaten(live, side);
    var prices := Ascending(PricesOf(live, side));
    hide BestOf, PricesOf;
    if prices != [] {
      var best := BestOf(live, side).value;
      assert prices[0] in prices && prices[|prices| - 1] in prices;
      EndsOfAscending(prices, best);
    }
  }

  function LevelsAt(live: seq<Resting>, side: Side, prices: seq<real>): seq<PriceLevel> {
    if prices == [] then []
    else
      var n := |prices| - 1;
      LevelsAt(live, side, prices[..n]) + [LevelSummary(live, side, prices[n])]
  }

  function Reversed(ps: seq<real>): (r: seq<real>)
    ensures |r| == |ps| && forall i :: 0 <= i < |ps| ==> r[i] == ps[|ps| - 1 - i]
  {
    if ps == [] then [] else [ps[|ps| - 1]] + Reversed(ps[..|ps| - 1])
  }

  /** Bids from the highest price down, asks from the lowest price up. */
  ghost function SnapshotOf(b: Book): DepthSnapshot {
    DepthSnapshot(
      b.instrument, b.sequence, b.lastTs,
      LevelsAt(b.live, Buy, Reversed(Ascending(PricesOf(b.live, Buy)))),
      LevelsAt(b.live, Sell, Ascending(PricesOf(b.live, Sell))))
  }

  lemma {:induction false} LevelsAtPrices(live: seq<Resting>, side: Side, prices: seq<real>)
    ensures |LevelsAt(live, side, prices)| == |prices|
    ensures forall i :: 0 <= i < |prices| ==> LevelsAt(live, side, prices)[i] == LevelSummary(live, side, prices[i])
  {
    if prices != [] {
      LevelsAtPrices(live, side, prices[..|prices| - 1]);
    }
  }

  /** Each live order of the side appears in the one level of its price, and nothing else appears. */
  ghost predicate ShowsExactly(levels: seq<PriceLevel>, live: seq<Resting>, side: Side) {
    && (forall i :: 0 <= i < |levels| ==> levels[i] == LevelSummary(live, side, levels[i].price) && levels[i].orders != [])
    && (forall k :: 0 <= k < |live| && live[k].side == side ==> ShowsPrice(levels, live[k].price))
  }

  ghost predicate ShowsPrice(levels: seq<PriceLevel>, price: real) {
    exists i :: 0 <= i < |levels| && levels[i].price == price
  }

  lemma LevelNotEmpty(live: seq<Resting>, side: Side, price: real)
    requires price in PricesOf(live, side)
    ensures LevelSummary(live, side, price).orders != []
  {
    LevelExists(live, side, price);
    QueueMatchesLevel(live, side, price);
  }

  lemma SideIsShown(live: seq<Resting>, side: Side, prices: seq<real>)
    requires forall p :: p in prices <==> p in PricesOf(live, side)
    ensures ShowsExactly(LevelsAt(live, side, prices), live, side)
  {
    var levels := LevelsAt(live, side, prices);
    LevelsAtPrices(live, side, prices);
    forall i | 0 <= i < |levels|
      ensures levels[i].orders != []
    {
      assert prices[i] in prices;
      LevelNotEmpty(live, side, prices[i]);
    }
    forall k | 0 <= k < |live| && live[k].side == side
      ensures ShowsPrice(levels, live[k].price)
    {
      assert live[k] in live;
      assert live[k].price in prices;
      var i :| 0 <= i < |prices| && prices[i] == live[k].price;
      assert levels[i].price == live[k].price;
    }
  }

  lemma ReversedMembers(ps: seq<real>)
    ensures forall p :: p in Reversed(ps) <==> p in ps
  {
    var r := Reversed(ps);
    forall p
      ensures p in r <==> p in ps
    {
      if p in r {
        var i :| 0 <= i < |r| && r[i] == p;
        assert ps[|ps| - 1 - i] == p;
      }
      if p in ps {
        var i :| 0 <= i < |ps| && ps[i] == p;
        assert r[|ps| - 1 - i] == p;
      }
    }
  }

  /** Bids strictly fall, asks strictly rise, and together they show exactly the live orders. */
  lemma SnapshotIsFaithful(b: Book)
    ensures var d := SnapshotOf(b);
            && (forall i, j :: 0 <= i < j < |d.bids| ==> d.bids[i].price > d.bids[j].price)
            && (forall i, j :: 0 <= i < j < |d.asks| ==> d.asks[i].price < d.asks[j].price)
            && ShowsExactly(d.bids, b.live, Buy) && ShowsExactly(d.asks, b.live, Sell)
  {
    var bidPrices, askPrices := Ascending(PricesOf(b.live, Buy)), Ascending(PricesOf(b.live, Sell));
    ReversedMembers(bidPrices);
    SideIsShown(b.live, Buy, Reversed(bidPrices));
    SideIsShown(b.live, Sell, askPrices);
    LevelsAtPrices(b.live, Buy, Reversed(bidPrices));
    LevelsAtPrices(b.live, Sell, askPrices);
  }

  /** The shown quantities, added up from the front of the queue. */
  function ShownTotal(orders: seq<RestingOrderSummary>): int {
    if orders == [] then 0 else orders[0].qty + ShownTotal(orders[1..])
  }

  lemma {:induction false} TotalFromFront(q: seq<Resting>)
    ensures TotalQty(q) == ShownTotal(Summaries(q))
  {
    if q != [] {
      TotalFromFront(q[1..]);
      assert Summaries(q)[1..] == Summaries(q[1..]);
      assert q == [q[0]] + q[1..];
      TotalAppend([q[0]], q[1..]);
      assert [q[0]][..0] == [];
    }
  }

  /** A level shows a queue order by order, from its front, and the total of what it shows. */
  ghost predicate ShowsQueue(level: PriceLevel, q: seq<Resting>) {
    && |level.orders| == |q|
    && (forall j :: 0 <= j < |q| ==>
          level.orders[j].orderId == q[j].id && level.orders[j].accountId == q[j].account && level.orders[j].qty == q[j].qty)
    && level.totalQty == ShownTotal(level.orders)
  }

  /** `q` is all the live orders at a side and price, in the order in which they gained their places. */
  ghost predicate IsQueueAt(q: seq<Resting>, live: seq<Resting>, side: Side, price: real) {
    StampsIncrease(q) && forall r :: r in q <==> r in live && r.side == side && r.price == price
  }

  ghost predicate ShowsQueueOf(level: PriceLevel, live: seq<Resting>, side: Side) {
    exists q :: IsQueueAt(q, live, side, level.price) && ShowsQueue(level, q)
  }

  lemma LevelShowsQueue(live: seq<Resting>, side: Side, price: real)
    requires StampsIncrease(live)
    ensures ShowsQueueOf(LevelSummary(live, side, price), live, side)
  {
    var q := LevelOf(live, side, price);
    LevelMembers(live, side, price);
    LevelKeepsOrder(live, side, price);
    TotalFromFront(q);
    assert IsQueueAt(q, live, side, price) && ShowsQueue(LevelSummary(live, side, price), q);
  }

  lemma QueuesAreShown(levels: seq<PriceLevel>, live: seq<Resting>, side: Side)
    requires StampsIncrease(live) && ShowsExactly(levels, live, side)
    ensures forall i :: 0 <= i < |levels| ==> ShowsQueueOf(levels[i], live, side)
  {
    hide ShowsQueueOf, LevelSummary;
    forall i | 0 <= i < |levels|
      ensures ShowsQueueOf(levels[i], live, side)
    {
      LevelShowsQueue(live, side, levels[i].price);
    }
  }

  /**
   Every level of a snapshot shows the queue at its price from front to back, each order with its id,
   account and quantity, and their total; the counters are the book's.
   */
  lemma SnapshotShowsQueues(b: Book)
    requires WellFormed(b)
    ensures var d := SnapshotOf(b);
            && d.instrumentId == b.instrument && d.sequence == b.sequence && d.lastEventTimestampNs == b.lastTs
            && (forall i :: 0 <= i < |d.bids| ==> ShowsQueueOf(d.bids[i], b.live, Buy))
            && (forall i :: 0 <= i < |d.asks| ==> ShowsQueueOf(d.asks[i], b.live, Sell))
  {
    hide ShowsQueueOf, ShowsExactly, LevelsAt;
    SnapshotIsFaithful(b);
    QueuesAreShown(SnapshotOf(b).bids, b.live, Buy);
    QueuesAreShown(SnapshotOf(b).asks, b.live, Sell);
  }
}
