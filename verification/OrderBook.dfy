/** The order book as the program keeps it, proved against the reference list. */
module OrderBooks {
  import opened Options
  import opened FixTypes
  import opened BookModel
  import opened BookProperties
  import opened OrderBookState
  import opened DepthSnapshots

  class OrderBook {
    const instrumentId: string
    var bids: PriceLevels
    var asks: PriceLevels
    var orderIndex: map<string, IndexEntry>
    var sequence: nat
    var lastEventTimestampNs: int

    // The linked-list nodes the queues and the index point into, and the next unused node number.
    var nodes: map<nat, Node>
    var nextNode: nat

    ghost var model: Book

    ghost function LevelsFor(side: Side): PriceLevels
      reads this
    {
      if side.Buy? then bids else asks
    }

    /** The fields hold exactly the reference list, whatever its ids are. */
    ghost predicate Mirrors()
      reads this
    {
      && model.instrument == instrumentId && model.sequence == sequence && model.lastTs == lastEventTimestampNs
      && model.nextStamp == nextNode
      && Contain(bids, asks, orderIndex, nodes, model.live)
    }

    ghost predicate Valid()
      reads this
    {
      WellFormed(model) && Mirrors()
    }

    constructor (instrumentId: string)
      ensures Valid() && model == Empty(instrumentId) && this.instrumentId == instrumentId
    {
      this.instrumentId := instrumentId;
      bids, asks, orderIndex, nodes := map[], map[], map[], map[];
      sequence, lastEventTimestampNs, nextNode := 0, 0, 0;
      model := Empty(instrumentId);
    }

    /**
     No pointer of the program dangles, in terms of its own fields: every index entry points at the node
     with that id, queued at that side and price; every queued node exists; no level is empty and no
     queue repeats a node.
     */
    ghost predicate PointersSound()
      reads this
    {
      && (forall id :: id in orderIndex ==>
            var e := orderIndex[id];
            && e.node in nodes && nodes[e.node].orderId == id && nodes[e.node].side == e.side
            && e.price in LevelsFor(e.side) && e.node in LevelsFor(e.side)[e.price])
      && (forall side, p :: p in LevelsFor(side) ==>
            LevelsFor(side)[p] != [] && forall i :: 0 <= i < |LevelsFor(side)[p]| ==> LevelsFor(side)[p][i] in nodes)
      && (forall side, p, i, j :: p in LevelsFor(side) && 0 <= i < j < |LevelsFor(side)[p]| ==>
            LevelsFor(side)[p][i] != LevelsFor(side)[p][j])
    }

    /** Index and levels in exact bijection: every node is also the one its id's index entry points at. */
    ghost predicate Bijection()
      reads this
    {
      && PointersSound()
      && (forall h :: h in nodes ==> nodes[h].orderId in orderIndex && orderIndex[nodes[h].orderId].node == h)
      && (forall side, p, i :: p in LevelsFor(side) && 0 <= i < |LevelsFor(side)[p]| ==>
            var h := LevelsFor(side)[p][i];
            h in nodes && nodes[h].orderId in orderIndex && orderIndex[nodes[h].orderId] == IndexEntry(side, p, h))
    }

    lemma IndexedOrder(k: nat)
      requires Valid() && k < |model.live|
      ensures var r := model.live[k];
              && (!r.lost ==> r.id in orderIndex && orderIndex[r.id] == EntryOf(r))
              && r.stamp in nodes && nodes[r.stamp] == NodeOf(r)
              && r.price in LevelsFor(r.side) && r.stamp in LevelsFor(r.side)[r.price]
    {
      ContainLookup(bids, asks, orderIndex, nodes, model.live, k);
    }

    /** Whatever events have been applied, thefts of ids included. */
    lemma ValidIsSound()
      requires Valid()
      ensures PointersSound()
    {
      IndexIs(model.live);
      forall id | id in orderIndex
        ensures var e := orderIndex[id];
                && e.node in nodes && nodes[e.node].orderId == id && nodes[e.node].side == e.side
                && e.price in LevelsFor(e.side) && e.node in LevelsFor(e.side)[e.price]
      {
        IndexedOrder(Position(model.live, id));
      }
      forall side, p | p in LevelsFor(side)
        ensures LevelsFor(side)[p] != []
        ensures forall i :: 0 <= i < |LevelsFor(side)[p]| ==> LevelsFor(side)[p][i] in nodes
        ensures forall i, j :: 0 <= i < j < |LevelsFor(side)[p]| ==> LevelsFor(side)[p][i] != LevelsFor(side)[p][j]
      {
        LevelIsSound(side, p);
      }
    }

    lemma LevelIsSound(side: Side, p: real)
      requires Valid() && p in LevelsFor(side)
      ensures LevelsFor(side)[p] != []
      ensures forall i :: 0 <= i < |LevelsFor(side)[p]| ==> LevelsFor(side)[p][i] in nodes
      ensures forall i, j :: 0 <= i < j < |LevelsFor(side)[p]| ==> LevelsFor(side)[p][i] != LevelsFor(side)[p][j]
      ensures NothingLost(model.live) ==> forall i :: 0 <= i < |LevelsFor(side)[p]| ==>
                var h := LevelsFor(side)[p][i];
                h in nodes && nodes[h].orderId in orderIndex && orderIndex[nodes[h].orderId] == IndexEntry(side, p, h)
    {
      hide HoldsLevels, IndexOf, NodesOf, QueueOf;
      var q := LevelsFor(side)[p];
      LevelIsQueue(side, p);
      QueueMembers(model.live, side, p);
      QueueIncreases(model.live, side, p);
      forall i | 0 <= i < |q|
        ensures q[i] in nodes
        ensures NothingLost(model.live) ==>
                  nodes[q[i]].orderId in orderIndex && orderIndex[nodes[q[i]].orderId] == IndexEntry(side, p, q[i])
      {
        assert q[i] in QueueOf(model.live, side, p);
        var k :| 0 <= k < |model.live| && model.live[k].stamp == q[i] && At(model.live[k], side, p);
        IndexedOrder(k);
      }
    }

    lemma LevelIsQueue(side: Side, p: real)
      requires Valid() && p in LevelsFor(side)
      ensures LevelsFor(side)[p] == QueueOf(model.live, side, p) != []
    {
    }

    /** Index and levels are in bijection exactly while no order has lost its index entry. */
    lemma BijectionIffNothingLost()
      requires Valid()
      ensures Bijection() <==> NothingLost(model.live)
    {
      hide HoldsLevels, IndexOf, NodesOf, QueueOf;
      ValidIsSound();
      if NothingLost(model.live) {
        forall h | h in nodes
          ensures nodes[h].orderId in orderIndex && orderIndex[nodes[h].orderId].node == h
        {
          NodesHaveOrders(model.live, h);
          var i :| 0 <= i < |model.live| && model.live[i].stamp == h;
          IndexedOrder(i);
        }
        forall side, p | p in LevelsFor(side)
          ensures forall i :: 0 <= i < |LevelsFor(side)[p]| ==>
                    var h := LevelsFor(side)[p][i];
                    h in nodes && nodes[h].orderId in orderIndex && orderIndex[nodes[h].orderId] == IndexEntry(side, p, h)
        {
          LevelIsSound(side, p);
        }
      } else {
        var i :| 0 <= i < |model.live| && model.live[i].lost;
        LostIsUnreached(i);
      }
    }

    /** No index entry points at the node of a lost order. */
    lemma LostIsUnreached(i: nat)
      requires Valid() && i < |model.live| && model.live[i].lost
      ensures var h := model.live[i].stamp;
              h in nodes && forall id :: id in orderIndex ==> orderIndex[id].node != h
    {
      hide HoldsLevels, IndexOf, NodesOf;
      IndexedOrder(i);
      forall id | id in orderIndex
        ensures orderIndex[id].node != model.live[i].stamp
      {
        ContainFind(orderIndex, model.live, id);
        IndexedOrder(Position(model.live, id));
      }
    }

    // ------------------------------------------------------------- mutations

    method InsertNew(o: Order) returns (ok: bool)
      requires Valid()
      modifies this
      ensures Valid()
      ensures model == BookModel.InsertNew(old(model), o).book && ok == BookModel.InsertNew(old(model), o).ok
    {
      hide HoldsLevels, IndexOf, NodesOf;
      ContainFind(orderIndex, model.live, o.orderId);
      if o.orderId in orderIndex {
        return false;
      }
      ghost var r := Resting(nextNode, o.orderId, o.accountId, o.side, o.price, o.qty, o.timestampNs, false);
      ContainAppend(bids, asks, orderIndex, nodes, model.live, r);
      InsertWellFormed(model, o);
      nodes := nodes[nextNode := Node(o.orderId, o.accountId, o.side, o.qty, o.timestampNs)];
      if o.side.Buy? {
        bids := Enqueue(bids, o.price, nextNode);
      } else {
        asks := Enqueue(asks, o.price, nextNode);
      }
      orderIndex := orderIndex[o.orderId := IndexEntry(o.side, o.price, nextNode)];
      nextNode := nextNode + 1;
      model := BookModel.InsertNew(model, o).book;
      ok := true;
    }

    /** What the fields must become when the order `id` points at leaves the book. */
    lemma FieldsWithout(id: string)
      requires Valid() && id in orderIndex
      ensures var e := orderIndex[id];
              && e.price in LevelsFor(e.side) && WellFormed(Remove(model, id))
              && Contain(if e.side.Buy? then UnlinkLevel(bids, e.price, e.node) else bids,
                         if e.side.Buy? then asks else UnlinkLevel(asks, e.price, e.node),
                         orderIndex - {id}, nodes - {e.node}, Remove(model, id).live)
    {
      var k := Position(model.live, id);
      ContainFind(orderIndex, model.live, id);
      ContainLookup(bids, asks, orderIndex, nodes, model.live, k);
      ContainRemove(bids, asks, orderIndex, nodes, model.live, k);
      RemoveKeepsWellFormed(model, id);
    }

    /** Takes the order `id` points at out of its queue, its level if that empties it, and the index. */
    method RemoveResting(id: string)
      requires Valid() && id in orderIndex
      modifies this
      ensures Valid() && model == Remove(old(model), id)
    {
      hide HoldsLevels, IndexOf, NodesOf;
      FieldsWithout(id);
      var entry := orderIndex[id];
      if entry.side.Buy? {
        bids := UnlinkLevel(bids, entry.price, entry.node);
      } else {
        asks := UnlinkLevel(asks, entry.price, entry.node);
      }
      nodes := nodes - {entry.node};
      orderIndex := orderIndex - {id};
      model := Remove(model, id);
    }

    /** A Cancel of an order that is not resting is an ordinary race and changes nothing. */
    method Cancel(targetOrderId: string)
      requires Valid()
      modifies this
      ensures Valid() && model == Remove(old(model), targetOrderId)
    {
      ContainFind(orderIndex, model.live, targetOrderId);
      if targetOrderId in orderIndex {
        RemoveResting(targetOrderId);
      }
    }

    /** What the fields must become when the order `o` names is amended in place. */
    lemma RenamedFields(o: Order)
      requires Valid() && IsResting(model, o.origOrderId)
      requires !LosesPriority(model.live[Position(model.live, o.origOrderId)], o)
      ensures var r := model.live[Position(model.live, o.origOrderId)].(id := o.orderId, qty := o.qty);
              Contain(bids, asks, (orderIndex - {o.origOrderId})[o.orderId := EntryOf(r)], nodes[r.stamp := NodeOf(r)],
                      BookModel.Replace(model, o).book.live)
    {
      hide HoldsLevels, IndexOf, NodesOf;
      var k := Position(model.live, o.origOrderId);
      var r := model.live[k].(id := o.orderId, qty := o.qty);
      ReplaceInPlace(model, o);
      if o.orderId == o.origOrderId {
        ContainAmend(bids, asks, orderIndex, nodes, model.live, k, r);
      } else {
        DisownWellFormed(model, o.orderId);
        ContainDisown(bids, asks, orderIndex, nodes, model.live, o.orderId);
        ContainAmend(bids, asks, orderIndex - {o.orderId}, nodes, Disown(model.live, o.orderId), k, r);
        assert (orderIndex - {o.orderId} - {o.origOrderId})[o.orderId := EntryOf(r)]
               == (orderIndex - {o.origOrderId})[o.orderId := EntryOf(r)];
      }
    }

    method Replace(o: Order) returns (ok: bool)
      requires Valid()
      modifies this
      ensures Valid()
      ensures model == BookModel.Replace(old(model), o).book && ok == BookModel.Replace(old(model), o).ok
    {
      hide HoldsLevels, IndexOf, NodesOf;
      ContainFind(orderIndex, model.live, o.origOrderId);
      if o.origOrderId !in orderIndex {
        return false;
      }
      ghost var k := Position(model.live, o.origOrderId);
      IndexedOrder(k);
      var oldEntry := orderIndex[o.origOrderId];
      var resting := nodes[oldEntry.node];
      var priceChanged := o.price != oldEntry.price;
      var qtyIncreased := o.qty > resting.qty;
      if priceChanged || qtyIncreased {
        RemoveResting(o.origOrderId);
        ok := InsertNew(o);
      } else {
        ok := RenameInPlace(o);
      }
    }

    /** The priority-retaining branch of a Replace: same node, new quantity, new id. */
    method RenameInPlace(o: Order) returns (ok: bool)
      requires Valid() && o.origOrderId in orderIndex && IsResting(model, o.origOrderId)
      requires !LosesPriority(model.live[Position(model.live, o.origOrderId)], o)
      modifies this
      ensures Valid() && ok && model == BookModel.Replace(old(model), o).book
    {
      hide HoldsLevels, IndexOf, NodesOf;
      IndexedOrder(Position(model.live, o.origOrderId));
      ReplaceWellFormed(model, o);
      RenamedFields(o);
      var entry := orderIndex[o.origOrderId];
      nodes := nodes[entry.node := nodes[entry.node].(qty := o.qty, orderId := o.orderId)];
      orderIndex := orderIndex - {o.origOrderId};
      orderIndex := orderIndex[o.orderId := entry];
      model := BookModel.Replace(model, o).book;
      ok := true;
    }

    // --------------------------------------------------------------- apply

    method ApplyOrder(o: Order) returns (ok: bool)
      requires Valid()
      modifies this
      ensures Valid()
      ensures model == Apply(old(model), OrderEvent(o)).book && ok == Apply(old(model), OrderEvent(o)).ok
    {
      hide HoldsLevels, IndexOf, NodesOf;
      if o.instrumentId != instrumentId {
        return false;
      }
      CountersIrrelevant(model, model.sequence + 1, o.timestampNs);
      sequence := sequence + 1;
      lastEventTimestampNs := o.timestampNs;
      model := model.(sequence := sequence, lastTs := o.timestampNs);
      match o.status {
        case New =>
          ok := InsertNew(o);
        case Cancelled =>
          Cancel(o.origOrderId);
          ok := true;
        case Replaced =>
          ok := Replace(o);
      }
    }

    /** Lowers the quantity of the `k`-th order in its node, removing it when nothing is left. */
    method Fill(x: Execution, ghost k: nat)
      requires Valid() && k < |model.live| && k == Position(model.live, x.orderId)
      requires x.orderId in orderIndex && x.qty <= model.live[k].qty
      modifies this
      ensures Valid() && model == Execute(old(model), x).book
    {
      hide HoldsLevels, IndexOf, NodesOf;
      ghost var before := model;
      IndexedOrder(k);
      var entry := orderIndex[x.orderId];
      var remaining := nodes[entry.node].qty - x.qty;
      FillInTwoSteps(before, x, k, remaining);
      SetQty(x.orderId, k, remaining);
      if remaining == 0 {
        RemoveResting(x.orderId);
      }
    }

    static ghost function WithQty(b: Book, k: nat, qty: int): Book
      requires k < |b.live|
    {
      b.(live := b.live[k := b.live[k].(qty := qty)])
    }

    /** The fields after the `k`-th order's quantity has been set in its node. */
    lemma FieldsWithQty(k: nat, qty: int)
      requires Valid() && k < |model.live| && !model.live[k].lost
      ensures var r := model.live[k];
              && WellFormed(WithQty(model, k, qty))
              && Contain(bids, asks, orderIndex, nodes[r.stamp := NodeOf(r).(qty := qty)], WithQty(model, k, qty).live)
    {
      var r := model.live[k].(qty := qty);
      AmendWellFormed(model, k, r);
      ContainFill(bids, asks, orderIndex, nodes, model.live, k, r);
    }

    method SetQty(id: string, ghost k: nat, qty: int)
      requires Valid() && k < |model.live| && Answers(model.live[k], id) && id in orderIndex
      modifies this
      ensures Valid() && orderIndex == old(orderIndex) && model == WithQty(old(model), k, qty)
    {
      hide HoldsLevels, IndexOf, NodesOf;
      IndexedOrder(k);
      FieldsWithQty(k, qty);
      var entry := orderIndex[id];
      nodes := nodes[entry.node := nodes[entry.node].(qty := qty)];
      model := WithQty(model, k, qty);
    }

    /** Lowering the quantity and then removing an emptied order is what an execution does. */
    static lemma FillInTwoSteps(b: Book, x: Execution, k: nat, remaining: int)
      requires WellFormed(b) && k < |b.live| && k == Position(b.live, x.orderId) && x.qty <= b.live[k].qty
      requires remaining == b.live[k].qty - x.qty
      ensures Execute(b, x).book ==
              if remaining == 0 then Remove(WithQty(b, k, remaining), x.orderId) else WithQty(b, k, remaining)
    {
      PositionUnique(WithQty(b, k, remaining).live, x.orderId, k);
    }

    method ApplyExecution(x: Execution) returns (ok: bool)
      requires Valid()
      modifies this
      ensures Valid()
      ensures model == Apply(old(model), ExecutionEvent(x)).book && ok == Apply(old(model), ExecutionEvent(x)).ok
    {
      hide HoldsLevels, IndexOf, NodesOf;
      if x.instrumentId != instrumentId {
        return false;
      }
      CountersIrrelevant(model, model.sequence + 1, x.timestampNs);
      sequence := sequence + 1;
      lastEventTimestampNs := x.timestampNs;
      model := model.(sequence := sequence, lastTs := x.timestampNs);
      ContainFind(orderIndex, model.live, x.orderId);
      if x.orderId !in orderIndex {
        return false;
      }
      ghost var k := Position(model.live, x.orderId);
      IndexedOrder(k);
      if x.qty > nodes[orderIndex[x.orderId].node].qty {
        return false;
      }
      Fill(x, k);
      ok := true;
    }

    /** Any event at all: the fields stay those of the reference book, and no pointer ever dangles. */
    method ApplyEvent(e: Event) returns (ok: bool)
      requires Valid()
      modifies this
      ensures Valid() && PointersSound()
      ensures model == Apply(old(model), e).book && ok == Apply(old(model), e).ok
      ensures old(Bijection()) ==> (Bijection() <==> !StealsId(old(model), e))
    {
      hide Apply, HoldsLevels, IndexOf, NodesOf, StealsId;
      BijectionIffNothingLost();
      if NothingLost(model.live) {
        IntactIffNoTheft(model, e);
      }
      match e {
        case OrderEvent(o) => ok := ApplyOrder(o);
        case ExecutionEvent(x) => ok := ApplyExecution(x);
      }
      ValidIsSound();
      BijectionIffNothingLost();
    }

    // -------------------------------------------------------------- queries

    method LevelsOfSide(side: Side) returns (levels: PriceLevels)
      ensures levels == LevelsFor(side)
    {
      levels := if side.Buy? then bids else asks;
    }

    /** The queue a level holds, node by node, is the reference level. */
    lemma LevelNodes(side: Side, price: real)
      requires Valid()
      ensures price in LevelsFor(side) <==> LevelOf(model.live, side, price) != []
      ensures price in LevelsFor(side) ==>
                var q, v := LevelsFor(side)[price], LevelOf(model.live, side, price);
                |q| == |v| && forall i :: 0 <= i < |q| ==> q[i] in nodes && nodes[q[i]] == NodeOf(v[i])
    {
      QueueMatchesLevel(model.live, side, price);
      NodesAre(model.live);
      LevelMembers(model.live, side, price);
      var v := LevelOf(model.live, side, price);
      forall i | 0 <= i < |v|
        ensures v[i].stamp in nodes && nodes[v[i].stamp] == NodeOf(v[i])
      {
        assert v[i] in model.live;
        var k :| 0 <= k < |model.live| && model.live[k] == v[i];
        assert model.live[k].stamp in NodesOf(model.live);
      }
    }

    /** One level's public footprint: its orders in priority order and their total. */
    method Summarize(price: real, queue: seq<nat>, ghost v: seq<Resting>) returns (level: PriceLevel)
      requires |queue| == |v| && forall i :: 0 <= i < |queue| ==> queue[i] in nodes && nodes[queue[i]] == NodeOf(v[i])
      ensures level == PriceLevel(price, TotalQty(v), Summaries(v))
    {
      var orders, total := [], 0;
      for i := 0 to |queue|
        invariant orders == Summaries(v[..i]) && total == TotalQty(v[..i])
      {
        var resting := nodes[queue[i]];
        orders := orders + [RestingOrderSummary(resting.orderId, resting.accountId, resting.qty)];
        total := total + resting.qty;
        assert v[..i + 1][..i] == v[..i];
      }
      assert v[..|queue|] == v;
      level := PriceLevel(price, total, orders);
    }

    method QtyAtPrice(side: Side, price: real) returns (total: int)
      requires Valid()
      ensures total == TotalQty(LevelOf(model.live, side, price))
    {
      LevelNodes(side, price);
      var levels := LevelsOfSide(side);
      total := 0;
      if price in levels {
        var queue := levels[price];
        ghost var v := LevelOf(model.live, side, price);
        for i := 0 to |queue|
          invariant total == TotalQty(v[..i])
        {
          total := total + nodes[queue[i]].qty;
          assert v[..i + 1][..i] == v[..i];
        }
        assert v[..|queue|] == v;
      }
    }

    method OrderCountAtPrice(side: Side, price: real) returns (count: nat)
      requires Valid()
      ensures count == |LevelOf(model.live, side, price)|
    {
      LevelNodes(side, price);
      var levels := LevelsOfSide(side);
      count := if price in levels then |levels[price]| else 0;
    }

    /** The keys of an ordered map, smallest first. */
    static method SortedPrices(levels: PriceLevels) returns (prices: seq<real>)
      ensures prices == Ascending(levels.Keys)
    {
      prices := [];
      var rest := levels.Keys;
      while rest != {}
        invariant rest <= levels.Keys
        invariant StrictlyAscending(prices) && forall p :: p in prices <==> p in levels.Keys && p !in rest
        invariant forall p, q :: p in prices && q in rest ==> p < q
        decreases rest
      {
        LeastExists(rest);
        assert exists p :: p in rest && forall q :: q in rest ==> p <= q;
        var p :| p in rest && forall q :: q in rest ==> p <= q;
        ghost var before := prices;
        prices := prices + [p];
        rest := rest - {p};
        assert forall i :: 0 <= i < |before| ==> before[i] in before && before[i] < p;
      }
      AscendingUnique(prices, Ascending(levels.Keys));
    }

    lemma PricesAreKeys(side: Side)
      requires Valid()
      ensures LevelsFor(side).Keys == PricesOf(model.live, side)
    {
      forall p
        ensures p in LevelsFor(side) <==> p in PricesOf(model.live, side)
      {
        LevelExists(model.live, side, p);
      }
    }

    lemma BestIsFirstLevel(side: Side)
      requires Valid()
      ensures var prices := Ascending(LevelsFor(side).Keys);
              BestOf(model.live, side) ==
              if prices == [] then None else Some(if side.Buy? then prices[|prices| - 1] else prices[0])
    {
      PricesAreKeys(side);
      BestIsAtTheEnd(model.live, side);
    }

    /** The highest bid or the lowest ask, if that side has any order at all. */
    method BestPrice(side: Side) returns (best: Option<real>)
      requires Valid()
      ensures best == BestOf(model.live, side)
    {
      hide Valid, BestOf, Ascending;
      BestIsFirstLevel(side);
      var levels := LevelsOfSide(side);
      var prices := SortedPrices(levels);
      best := if prices == [] then None else Some(if side.Buy? then prices[|prices| - 1] else prices[0]);
    }

    /** The levels of one side, visited in the given price order. */
    method Walk(side: Side, prices: seq<real>) returns (result: seq<PriceLevel>)
      requires Valid() && forall p :: p in prices ==> p in LevelsFor(side)
      ensures result == LevelsAt(model.live, side, prices)
    {
      var levels := LevelsOfSide(side);
      result := [];
      for i := 0 to |prices|
        invariant result == LevelsAt(model.live, side, prices[..i])
      {
        assert prices[i] in prices;
        LevelNodes(side, prices[i]);
        var level := Summarize(prices[i], levels[prices[i]], LevelOf(model.live, side, prices[i]));
        result := result + [level];
        assert prices[..i + 1][..i] == prices[..i];
      }
      assert prices[..|prices|] == prices;
    }

    method Snapshot() returns (snap: DepthSnapshot)
      requires Valid()
      ensures snap == SnapshotOf(model)
    {
      PricesAreKeys(Buy);
      PricesAreKeys(Sell);
      var bidPrices := SortedPrices(bids);
      var askPrices := SortedPrices(asks);
      ReversedMembers(bidPrices);
      var bidLevels := Walk(Buy, Reversed(bidPrices));
      var askLevels := Walk(Sell, askPrices);
      snap := DepthSnapshot(instrumentId, sequence, lastEventTimestampNs, bidLevels, askLevels);
    }
  }
}
