/** The merge of a simulation's orders and executions into one replayed event stream. */
module ReplayEvents {
  import opened Options
  import opened FixTypes

  datatype SimOrder = SimOrder(
    orderId: string, accountId: string, instrumentId: string, side: Side, price: real, qty: int,
    orderType: OrderType, timestampNs: int, cancelled: bool, venue: string)

  datatype SimExecution = SimExecution(
    tradeId: string, orderId: string, accountId: string, instrumentId: string, price: real, qty: int,
    timestampNs: int, counterpartyAccountId: string, venue: string)

  function ToFixOrder(o: SimOrder): Order {
    Order(o.orderId, o.accountId, o.instrumentId, o.side, o.price, o.qty, o.orderType, o.timestampNs,
          if o.cancelled then Cancelled else New, o.venue, o.orderId)
  }

  function ToFixExecution(x: SimExecution, side: Side): Execution {
    Execution(x.tradeId, x.orderId, x.accountId, x.instrumentId, side, x.price, x.qty, x.timestampNs,
              x.counterpartyAccountId, x.venue)
  }

  /** The side of the last order with each id. */
  function SidesById(orders: seq<SimOrder>): map<string, Side> {
    if orders == [] then map[]
    else SidesById(orders[..|orders| - 1])[orders[|orders| - 1].orderId := orders[|orders| - 1].side]
  }

  // -------------------------------------------------------------- the stable sort

  datatype Item = Item(timestampNs: int, isExecution: bool, index: nat)

  function Items(orders: seq<SimOrder>, executions: seq<SimExecution>): seq<Item> {
    seq(|orders|, i requires 0 <= i < |orders| => Item(orders[i].timestampNs, false, i))
    + seq(|executions|, i requires 0 <= i < |executions| => Item(executions[i].timestampNs, true, i))
  }

  /** Behind everything that is not later. */
  function Insert(sorted: seq<Item>, x: Item): seq<Item> {
    if sorted == [] || sorted[|sorted| - 1].timestampNs <= x.timestampNs then sorted + [x]
    else Insert(sorted[..|sorted| - 1], x) + [sorted[|sorted| - 1]]
  }

  function StableSort(items: seq<Item>): seq<Item> {
    if items == [] then [] else Insert(StableSort(items[..|items| - 1]), items[|items| - 1])
  }

  /** Earlier in time, or at the same time and earlier in the list before sorting: orders before executions. */
  predicate Before(a: Item, b: Item) {
    || a.timestampNs < b.timestampNs
    || (a.timestampNs == b.timestampNs && Listed(a, b))
  }

  predicate Listed(a: Item, b: Item) {
    (!a.isExecution && b.isExecution) || (a.isExecution == b.isExecution && a.index < b.index)
  }

  ghost predicate Ordered(items: seq<Item>) {
    forall i, j :: 0 <= i < j < |items| ==> Before(items[i], items[j])
  }

  lemma {:induction false} InsertMembers(sorted: seq<Item>, x: Item)
    ensures multiset(Insert(sorted, x)) == multiset(sorted) + multiset{x}
  {
    if sorted != [] && sorted[|sorted| - 1].timestampNs > x.timestampNs {
      var n := |sorted| - 1;
      InsertMembers(sorted[..n], x);
      assert sorted == sorted[..n] + [sorted[n]];
    }
  }

  lemma {:induction false} InsertOrdered(sorted: seq<Item>, x: Item)
    requires Ordered(sorted) && forall i :: 0 <= i < |sorted| ==> Listed(sorted[i], x)
    ensures Ordered(Insert(sorted, x))
  {
    if sorted != [] && sorted[|sorted| - 1].timestampNs > x.timestampNs {
      var n := |sorted| - 1;
      var init, last := sorted[..n], sorted[n];
      InsertOrdered(init, x);
      InsertMembers(init, x);
      var r := Insert(init, x);
      forall i | 0 <= i < |r|
        ensures Before(r[i], last)
      {
        assert r[i] in multiset(r);
        assert r[i] == x || r[i] in init;
      }
    }
  }

  lemma {:induction false} SortMembers(items: seq<Item>)
    ensures multiset(StableSort(items)) == multiset(items)
  {
    if items != [] {
      var n := |items| - 1;
      SortMembers(items[..n]);
      InsertMembers(StableSort(items[..n]), items[n]);
      assert items == items[..n] + [items[n]];
    }
  }

  lemma {:induction false} SortOrdered(items: seq<Item>)
    requires forall i, j :: 0 <= i < j < |items| ==> Listed(items[i], items[j])
    ensures Ordered(StableSort(items))
  {
    if items != [] {
      var n := |items| - 1;
      SortOrdered(items[..n]);
      SortMembers(items[..n]);
      var s := StableSort(items[..n]);
      forall i | 0 <= i < |s|
        ensures Listed(s[i], items[n])
      {
        assert s[i] in multiset(s);
        assert s[i] in items[..n];
      }
      InsertOrdered(s, items[n]);
    }
  }

  /** The merge holds every order and every execution once, by time and on ties in the listed order. */
  lemma MergeIsOrdered(orders: seq<SimOrder>, executions: seq<SimExecution>)
    ensures var items := Items(orders, executions);
            Ordered(StableSort(items)) && multiset(StableSort(items)) == multiset(items)
  {
    SortOrdered(Items(orders, executions));
    SortMembers(Items(orders, executions));
  }

  ghost predicate AppearsBefore(items: seq<Item>, a: Item, b: Item) {
    exists i, j :: 0 <= i < j < |items| && items[i] == a && items[j] == b
  }

  lemma OrderedPairs(sorted: seq<Item>, a: Item, b: Item)
    requires Ordered(sorted) && a in sorted && b in sorted && Before(a, b)
    ensures AppearsBefore(sorted, a, b)
  {
    var i :| 0 <= i < |sorted| && sorted[i] == a;
    var j :| 0 <= j < |sorted| && sorted[j] == b;
    assert Before(sorted[i], sorted[j]);
    assert !(j < i);
    assert AppearsBefore(sorted, a, b) by {
      assert 0 <= i < j < |sorted|;
    }
  }

  /**
   Causality on the wire: an order comes before every execution that is not earlier, and before every
   order listed after it that is not earlier (so a New before its Cancel).
   */
  lemma OrdersComeFirst(orders: seq<SimOrder>, executions: seq<SimExecution>, i: nat)
    requires i < |orders|
    ensures var merged := StableSort(Items(orders, executions));
            var own := Item(orders[i].timestampNs, false, i);
            && (forall j :: 0 <= j < |executions| && orders[i].timestampNs <= executions[j].timestampNs ==>
                  AppearsBefore(merged, own, Item(executions[j].timestampNs, true, j)))
            && (forall j :: i < j < |orders| && orders[i].timestampNs <= orders[j].timestampNs ==>
                  AppearsBefore(merged, own, Item(orders[j].timestampNs, false, j)))
  {
    var items := Items(orders, executions);
    var merged, own := StableSort(items), Item(orders[i].timestampNs, false, i);
    MergeIsOrdered(orders, executions);
    forall k | 0 <= k < |items|
      ensures items[k] in merged
    {
      assert items[k] in multiset(merged);
    }
    assert items[i] == own;
    forall j | 0 <= j < |executions| && orders[i].timestampNs <= executions[j].timestampNs
      ensures AppearsBefore(merged, own, Item(executions[j].timestampNs, true, j))
    {
      assert items[|orders| + j] == Item(executions[j].timestampNs, true, j);
      OrderedPairs(merged, own, Item(executions[j].timestampNs, true, j));
    }
    forall j | i < j < |orders| && orders[i].timestampNs <= orders[j].timestampNs
      ensures AppearsBefore(merged, own, Item(orders[j].timestampNs, false, j))
    {
      assert items[j] == Item(orders[j].timestampNs, false, j);
      OrderedPairs(merged, own, Item(orders[j].timestampNs, false, j));
    }
  }

  // ------------------------------------------------------------------ conversion

  predicate WithinInputs(orders: seq<SimOrder>, executions: seq<SimExecution>, x: Item) {
    if x.isExecution then x.index < |executions| && x.timestampNs == executions[x.index].timestampNs
    else x.index < |orders| && x.timestampNs == orders[x.index].timestampNs
  }

  /** The event of an item; an execution whose order is unknown makes the lookup of its side throw. */
  function EventOf(orders: seq<SimOrder>, executions: seq<SimExecution>, x: Item): Option<Event>
    requires WithinInputs(orders, executions, x)
  {
    if !x.isExecution then Some(OrderEvent(ToFixOrder(orders[x.index])))
    else
      var sides, e := SidesById(orders), executions[x.index];
      if e.orderId in sides then Some(ExecutionEvent(ToFixExecution(e, sides[e.orderId]))) else None
  }

  ghost predicate AllWithin(orders: seq<SimOrder>, executions: seq<SimExecution>, items: seq<Item>) {
    forall i :: 0 <= i < |items| ==> WithinInputs(orders, executions, items[i])
  }

  lemma MergedWithin(orders: seq<SimOrder>, executions: seq<SimExecution>)
    ensures AllWithin(orders, executions, StableSort(Items(orders, executions)))
  {
    var items := Items(orders, executions);
    var merged := StableSort(items);
    SortMembers(items);
    forall i | 0 <= i < |merged|
      ensures WithinInputs(orders, executions, merged[i])
    {
      assert merged[i] in multiset(merged);
      assert merged[i] in items;
    }
  }

  /** The events of a list of items, if every execution among them names a known order. */
  function Convert(orders: seq<SimOrder>, executions: seq<SimExecution>, items: seq<Item>): Option<seq<Event>>
    requires AllWithin(orders, executions, items)
  {
    if items == [] then Some([])
    else
      var init := Convert(orders, executions, items[..|items| - 1]);
      var last := EventOf(orders, executions, items[|items| - 1]);
      if init.None? || last.None? then None else Some(init.value + [last.value])
  }

  method ToIngestionEvents(orders: seq<SimOrder>, executions: seq<SimExecution>) returns (events: Option<seq<Event>>)
    ensures AllWithin(orders, executions, StableSort(Items(orders, executions)))
    ensures events == Convert(orders, executions, StableSort(Items(orders, executions)))
  {
    var sides: map<string, Side> := map[];
    for i := 0 to |orders|
      invariant sides == SidesById(orders[..i])
    {
      assert orders[..i + 1][..i] == orders[..i];
      sides := sides[orders[i].orderId := orders[i].side];
    }
    assert orders[..|orders|] == orders;
    MergedWithin(orders, executions);
    var items := StableSort(Items(orders, executions));
    var sofar: seq<Event> := [];
    for k := 0 to |items|
      invariant Convert(orders, executions, items[..k]) == Some(sofar)
    {
      assert items[..k + 1][..k] == items[..k];
      var x := items[k];
      if x.isExecution {
        var e := executions[x.index];
        if e.orderId !in sides {
          ConvertFails(orders, executions, items, k + 1);
          return None;
        }
        sofar := sofar + [ExecutionEvent(ToFixExecution(e, sides[e.orderId]))];
      } else {
        sofar := sofar + [OrderEvent(ToFixOrder(orders[x.index]))];
      }
    }
    assert items[..|items|] == items;
    events := Some(sofar);
  }

  lemma {:induction false} ConvertFails(orders: seq<SimOrder>, executions: seq<SimExecution>, items: seq<Item>, k: nat)
    requires AllWithin(orders, executions, items) && k <= |items|
    requires Convert(orders, executions, items[..k]).None?
    ensures Convert(orders, executions, items).None?
    decreases |items|
  {
    if k == |items| {
      assert items[..k] == items;
    } else {
      var n := |items| - 1;
      assert items[..n][..k] == items[..k];
      ConvertFails(orders, executions, items[..n], k);
    }
  }

  lemma {:induction false} ConvertEach(orders: seq<SimOrder>, executions: seq<SimExecution>, items: seq<Item>)
    requires AllWithin(orders, executions, items)
    ensures var events := Convert(orders, executions, items);
            && (events.Some? <==> forall i :: 0 <= i < |items| ==> EventOf(orders, executions, items[i]).Some?)
            && (events.Some? ==> |events.value| == |items|)
            && (events.Some? ==> forall i :: 0 <= i < |items| ==>
                  EventOf(orders, executions, items[i]) == Some(events.value[i]))
  {
    if items != [] {
      ConvertEach(orders, executions, items[..|items| - 1]);
    }
  }

  ghost predicate TimesNeverFall(events: seq<Event>) {
    forall i, j :: 0 <= i <= j < |events| ==> events[i].TimestampNs() <= events[j].TimestampNs()
  }

  /** The replayed stream has one event per order and execution, and its timestamps never fall. */
  lemma ReplayNeverGoesBack(orders: seq<SimOrder>, executions: seq<SimExecution>)
    ensures AllWithin(orders, executions, StableSort(Items(orders, executions)))
    ensures var events := Convert(orders, executions, StableSort(Items(orders, executions)));
            events.Some? ==> |events.value| == |orders| + |executions| && TimesNeverFall(events.value)
  {
    var items := Items(orders, executions);
    MergedWithin(orders, executions);
    MergeIsOrdered(orders, executions);
    SortLength(items);
    ConvertNeverGoesBack(orders, executions, StableSort(items));
  }

  lemma SortLength(items: seq<Item>)
    ensures |StableSort(items)| == |items|
  {
    SortMembers(items);
    assert |StableSort(items)| == |multiset(StableSort(items))|;
  }

  lemma ConvertNeverGoesBack(orders: seq<SimOrder>, executions: seq<SimExecution>, items: seq<Item>)
    requires AllWithin(orders, executions, items) && Ordered(items)
    ensures var events := Convert(orders, executions, items);
            events.Some? ==> |events.value| == |items| && TimesNeverFall(events.value)
  {
    hide Convert, SidesById;
    ConvertEach(orders, executions, items);
    var events := Convert(orders, executions, items);
    if events.Some? {
      forall i | 0 <= i < |items|
        ensures events.value[i].TimestampNs() == items[i].timestampNs
      {
        assert WithinInputs(orders, executions, items[i]);
        assert EventOf(orders, executions, items[i]) == Some(events.value[i]);
      }
      forall i, j | 0 <= i <= j < |items|
        ensures items[i].timestampNs <= items[j].timestampNs
      {
        assert i < j ==> Before(items[i], items[j]);
      }
    }
  }

  // ---------------------------------------------------------- what is replayed

  /** A simulated order is replayed as itself: as a New, or if it was cancelled as the Cancel of its own id. */
  lemma OrderIsReplayed(o: SimOrder)
    ensures var f := ToFixOrder(o);
            && f.orderId == o.orderId && f.accountId == o.accountId && f.instrumentId == o.instrumentId
            && f.side == o.side && f.price == o.price && f.qty == o.qty && f.orderType == o.orderType
            && f.timestampNs == o.timestampNs && f.venue == o.venue
            && (o.cancelled ==> f.status == Cancelled && f.origOrderId == o.orderId)
            && (!o.cancelled ==> f.status == New)
  {
  }

  /** The `k`-th order is the last one listed with the id. */
  ghost predicate IsLastWith(orders: seq<SimOrder>, id: string, k: nat) {
    k < |orders| && orders[k].orderId == id && forall j :: k < j < |orders| ==> orders[j].orderId != id
  }

  lemma LastWithOneMore(init: seq<SimOrder>, o: SimOrder, id: string, k: nat)
    ensures o.orderId == id ==> IsLastWith(init + [o], id, |init|)
    ensures o.orderId != id && IsLastWith(init, id, k) ==> IsLastWith(init + [o], id, k)
  {
  }

  /** The side under an id is that of the last order listed with it, and there is none iff no order has the id. */
  lemma {:induction false} SidesAre(orders: seq<SimOrder>, id: string)
    ensures id in SidesById(orders) ==> exists k: nat :: IsLastWith(orders, id, k) && orders[k].side == SidesById(orders)[id]
    ensures id !in SidesById(orders) ==> forall k :: 0 <= k < |orders| ==> orders[k].orderId != id
  {
    if orders != [] {
      var init, o := orders[..|orders| - 1], orders[|orders| - 1];
      SidesAre(init, id);
      assert orders == init + [o];
      LastWithOneMore(init, o, id, 0);
      if o.orderId != id && id in SidesById(init) {
        var k: nat :| IsLastWith(init, id, k) && init[k].side == SidesById(init)[id];
        LastWithOneMore(init, o, id, k);
      }
    }
  }

  /** The replayed form of an execution: itself, with the side its order has. */
  ghost predicate IsReplayed(x: SimExecution, orders: seq<SimOrder>, e: Event) {
    && e.ExecutionEvent?
    && var f := e.execution;
       && f.tradeId == x.tradeId && f.orderId == x.orderId && f.accountId == x.accountId
       && f.instrumentId == x.instrumentId && f.price == x.price && f.qty == x.qty && f.timestampNs == x.timestampNs
       && f.counterpartyAccountId == x.counterpartyAccountId && f.venue == x.venue
       && exists k :: 0 <= k < |orders| && orders[k].orderId == x.orderId && orders[k].side == f.side
  }

  /** A merged item becomes its order or its execution; only an execution of an unknown order becomes nothing. */
  lemma ItemIsReplayed(orders: seq<SimOrder>, executions: seq<SimExecution>, x: Item)
    requires WithinInputs(orders, executions, x)
    ensures var e := EventOf(orders, executions, x);
            && (!x.isExecution ==> e == Some(OrderEvent(ToFixOrder(orders[x.index]))))
            && (x.isExecution ==>
                  && (e.Some? <==> exists k :: 0 <= k < |orders| && orders[k].orderId == executions[x.index].orderId)
                  && (e.Some? ==> IsReplayed(executions[x.index], orders, e.value)))
  {
    hide SidesById;
    if x.isExecution {
      SidesAre(orders, executions[x.index].orderId);
    }
  }
}
