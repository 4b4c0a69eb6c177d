/** The book's containers, each as a function of the reference list, and how it changes with the list. */
module OrderBookState {
  import opened FixTypes
  import opened BookModel

  /** One element of a price level's list; lists are linked through node numbers that are never reused. */
  datatype Node = Node(orderId: string, accountId: string, side: Side, qty: int, timestampNs: int)

  datatype IndexEntry = IndexEntry(side: Side, price: real, node: nat)

  type PriceLevels = map<real, seq<nat>>

  function NodeOf(r: Resting): Node {
    Node(r.id, r.account, r.side, r.qty, r.ts)
  }

  function EntryOf(r: Resting): IndexEntry {
    IndexEntry(r.side, r.price, r.stamp)
  }

  /** The node numbers queued at a side and price, front first. */
  function QueueOf(live: seq<Resting>, side: Side, price: real): seq<nat> {
    if live == [] then []
    else
      var n := |live| - 1;
      QueueOf(live[..n], side, price) + (if At(live[n], side, price) then [live[n].stamp] else [])
  }

  function PricesOf(live: seq<Resting>, side: Side): set<real> {
    set r | r in live && r.side == side :: r.price
  }

  /** `levels` holds one non-empty queue per price at which orders rest, and nothing else. */
  ghost predicate HoldsLevels(levels: PriceLevels, live: seq<Resting>, side: Side) {
    && (forall p :: p in levels <==> QueueOf(live, side, p) != [])
    && (forall p :: p in levels ==> levels[p] == QueueOf(live, side, p))
  }

  function IndexOf(live: seq<Resting>): map<string, IndexEntry> {
    if live == [] then map[]
    else
      var n := |live| - 1;
      if live[n].lost then IndexOf(live[..n]) else IndexOf(live[..n])[live[n].id := EntryOf(live[n])]
  }

  function NodesOf(live: seq<Resting>): map<nat, Node> {
    if live == [] then map[]
    else
      var n := |live| - 1;
      NodesOf(live[..n])[live[n].stamp := NodeOf(live[n])]
  }

  /** `std::list::erase`: the queue without the given node. */
  function Unlink(queue: seq<nat>, node: nat): seq<nat> {
    if queue == [] then []
    else
      var n := |queue| - 1;
      if queue[n] == node then queue[..n] else Unlink(queue[..n], node) + [queue[n]]
  }

  /** Taking a node out of its level, and the level out of the map if that empties it. */
  function UnlinkLevel(levels: PriceLevels, price: real, node: nat): PriceLevels
    requires price in levels
  {
    var queue := Unlink(levels[price], node);
    if queue == [] then levels - {price} else levels[price := queue]
  }

  // ------------------------------------------------------------- levels and queues

  lemma {:induction false} QueueMatchesLevel(live: seq<Resting>, side: Side, price: real)
    ensures |QueueOf(live, side, price)| == |LevelOf(live, side, price)|
    ensures forall i :: 0 <= i < |QueueOf(live, side, price)| ==>
              QueueOf(live, side, price)[i] == LevelOf(live, side, price)[i].stamp
  {
    if live != [] {
      QueueMatchesLevel(live[..|live| - 1], side, price);
    }
  }

  lemma {:induction false} LevelExists(live: seq<Resting>, side: Side, price: real)
    ensures price in PricesOf(live, side) <==> QueueOf(live, side, price) != []
  {
    if live != [] {
      var n := |live| - 1;
      LevelExists(live[..n], side, price);
      assert live == live[..n] + [live[n]];
      if price in PricesOf(live, side) {
        var r :| r in live && r.side == side && r.price == price;
        if r in live[..n] {
          assert price in PricesOf(live[..n], side);
        }
      }
    }
  }

  lemma AppendQueue(live: seq<Resting>, r: Resting, side: Side, price: real)
    ensures QueueOf(live + [r], side, price) ==
            QueueOf(live, side, price) + (if At(r, side, price) then [r.stamp] else [])
  {
    assert (live + [r])[..|live|] == live;
  }

  lemma AppendLevels(levels: PriceLevels, live: seq<Resting>, r: Resting, side: Side)
    requires HoldsLevels(levels, live, side)
    ensures r.side != side ==> HoldsLevels(levels, live + [r], side)
    ensures r.side == side ==>
              HoldsLevels(levels[r.price := (if r.price in levels then levels[r.price] else []) + [r.stamp]], live + [r], side)
  {
    forall p
      ensures QueueOf(live + [r], side, p) == QueueOf(live, side, p) + (if At(r, side, p) then [r.stamp] else [])
    {
      AppendQueue(live, r, side, p);
    }
  }

  lemma {:induction false} QueueBounded(live: seq<Resting>, side: Side, price: real, bound: nat)
    requires forall i :: 0 <= i < |live| ==> live[i].stamp < bound
    ensures forall h :: h in QueueOf(live, side, price) ==> h < bound
  {
    if live != [] {
      QueueBounded(live[..|live| - 1], side, price, bound);
    }
  }

  lemma {:induction false} QueueIncreases(live: seq<Resting>, side: Side, price: real)
    requires StampsIncrease(live)
    ensures forall i, j :: 0 <= i < j < |QueueOf(live, side, price)| ==> QueueOf(live, side, price)[i] < QueueOf(live, side, price)[j]
  {
    if live != [] {
      var n := |live| - 1;
      QueueIncreases(live[..n], side, price);
      QueueBounded(live[..n], side, price, live[n].stamp);
      var q := QueueOf(live[..n], side, price);
      assert forall i :: 0 <= i < |q| ==> q[i] in q;
    }
  }

  lemma {:induction false} UnlinkAbsent(queue: seq<nat>, node: nat)
    requires node !in queue
    ensures Unlink(queue, node) == queue
  {
    if queue != [] {
      UnlinkAbsent(queue[..|queue| - 1], node);
    }
  }

  lemma UnlinkLast(queue: seq<nat>, last: seq<nat>, node: nat)
    requires |last| <= 1 && node !in last
    ensures Unlink(queue + last, node) == Unlink(queue, node) + last
  {
    if last == [] {
      assert queue + last == queue;
    } else {
      assert (queue + last)[..|queue|] == queue;
    }
  }

  lemma WithoutInit(live: seq<Resting>, k: nat)
    requires k < |live|
    ensures |Without(live, k)| == |live| - 1
    ensures k == |live| - 1 ==> Without(live, k) == live[..|live| - 1]
    ensures k < |live| - 1 ==>
              var w := Without(live, k);
              w[..|w| - 1] == Without(live[..|live| - 1], k) && w[|w| - 1] == live[|live| - 1]
  {
  }

  lemma {:induction false} RemoveQueue(live: seq<Resting>, k: nat, side: Side, price: real)
    requires StampsIncrease(live) && k < |live|
    ensures QueueOf(Without(live, k), side, price) == Unlink(QueueOf(live, side, price), live[k].stamp)
  {
    hide QueueOf, Unlink, Without;
    var n := |live| - 1;
    var init, r := live[..n], live[n];
    WithoutInit(live, k);
    assert live == init + [r];
    AppendQueue(init, r, side, price);
    var last := if At(r, side, price) then [r.stamp] else [];
    if k == n {
      QueueBounded(init, side, price, r.stamp);
      UnlinkTail(QueueOf(init, side, price), last, r.stamp);
    } else {
      RemoveQueue(init, k, side, price);
      UnlinkLast(QueueOf(init, side, price), last, live[k].stamp);
      var w := Without(live, k);
      assert w == Without(init, k) + [r];
      AppendQueue(Without(init, k), r, side, price);
    }
  }

  lemma UnlinkTail(queue: seq<nat>, last: seq<nat>, node: nat)
    requires node !in queue && (last == [] || last == [node])
    ensures Unlink(queue + last, node) == queue
  {
    UnlinkAbsent(queue, node);
    if last == [] {
      assert queue + last == queue;
    } else {
      assert (queue + last)[..|queue|] == queue;
    }
  }

  lemma {:induction false} QueueMembers(live: seq<Resting>, side: Side, price: real)
    ensures forall h :: h in QueueOf(live, side, price) <==> (exists i :: 0 <= i < |live| && live[i].stamp == h && At(live[i], side, price))
  {
    if live != [] {
      var n := |live| - 1;
      QueueMembers(live[..n], side, price);
      forall h
        ensures h in QueueOf(live, side, price) <==> (exists i :: 0 <= i < |live| && live[i].stamp == h && At(live[i], side, price))
      {
        if h in QueueOf(live[..n], side, price) {
          var i :| 0 <= i < n && live[..n][i].stamp == h && At(live[..n][i], side, price);
          assert live[i].stamp == h;
        }
        if i :| 0 <= i < |live| && live[i].stamp == h && At(live[i], side, price) {
          if i < n {
            assert live[..n][i] == live[i];
          }
        }
      }
    }
  }

  lemma RemoveQueueElsewhere(live: seq<Resting>, k: nat, side: Side, price: real)
    requires StampsIncrease(live) && k < |live| && !At(live[k], side, price)
    ensures QueueOf(Without(live, k), side, price) == QueueOf(live, side, price)
  {
    RemoveQueue(live, k, side, price);
    QueueMembers(live, side, price);
    UnlinkAbsent(QueueOf(live, side, price), live[k].stamp);
  }

  lemma QueuedWherePlaced(live: seq<Resting>, k: nat)
    requires k < |live|
    ensures live[k].stamp in QueueOf(live, live[k].side, live[k].price)
  {
    QueueMembers(live, live[k].side, live[k].price);
    assert At(live[k], live[k].side, live[k].price);
  }

  lemma RemoveFromOtherSide(levels: PriceLevels, live: seq<Resting>, k: nat, side: Side)
    requires StampsIncrease(live) && k < |live| && HoldsLevels(levels, live, side) && live[k].side != side
    ensures HoldsLevels(levels, Without(live, k), side)
  {
    forall p
      ensures QueueOf(Without(live, k), side, p) == QueueOf(live, side, p)
    {
      RemoveQueueElsewhere(live, k, side, p);
    }
  }

  lemma RemoveFromLevel(levels: PriceLevels, live: seq<Resting>, k: nat)
    requires StampsIncrease(live) && k < |live| && HoldsLevels(levels, live, live[k].side)
    ensures live[k].price in levels
    ensures HoldsLevels(UnlinkLevel(levels, live[k].price, live[k].stamp), Without(live, k), live[k].side)
  {
    var side, price := live[k].side, live[k].price;
    QueuedWherePlaced(live, k);
    RemoveQueue(live, k, side, price);
    var after, w := UnlinkLevel(levels, price, live[k].stamp), Without(live, k);
    assert Unlink(levels[price], live[k].stamp) == QueueOf(w, side, price);
    forall p
      ensures p in after <==> QueueOf(w, side, p) != []
      ensures p in after ==> after[p] == QueueOf(w, side, p)
    {
      if p != price {
        RemoveQueueElsewhere(live, k, side, p);
      }
    }
  }

  lemma {:induction false} AmendQueue(live: seq<Resting>, k: nat, r: Resting, side: Side, price: real)
    requires k < |live| && r.stamp == live[k].stamp && r.side == live[k].side && r.price == live[k].price
    ensures QueueOf(live[k := r], side, price) == QueueOf(live, side, price)
  {
    var n := |live| - 1;
    if k == n {
      assert live[k := r][..n] == live[..n];
    } else {
      assert live[k := r][..n] == live[..n][k := r];
      AmendQueue(live[..n], k, r, side, price);
    }
  }

  lemma AmendLevels(levels: PriceLevels, live: seq<Resting>, k: nat, r: Resting, side: Side)
    requires k < |live| && r.stamp == live[k].stamp && r.side == live[k].side && r.price == live[k].price
    requires HoldsLevels(levels, live, side)
    ensures HoldsLevels(levels, live[k := r], side)
  {
    forall p
      ensures QueueOf(live[k := r], side, p) == QueueOf(live, side, p)
    {
      AmendQueue(live, k, r, side, p);
    }
  }

  // --------------------------------------------------------------- index and nodes

  lemma PositionOneMore(init: seq<Resting>, r: Resting)
    ensures forall id :: Position(init + [r], id) < |init| + 1 <==> Position(init, id) < |init| || Answers(r, id)
  {
    assert (init + [r])[..|init|] == init;
  }

  lemma {:induction false} IndexIs(live: seq<Resting>)
    requires IdsDistinct(live)
    ensures forall i :: 0 <= i < |live| && !live[i].lost ==>
              live[i].id in IndexOf(live) && IndexOf(live)[live[i].id] == EntryOf(live[i])
    ensures forall id :: id in IndexOf(live) <==> Position(live, id) < |live|
  {
    if live != [] {
      var init, r := live[..|live| - 1], live[|live| - 1];
      IndexIs(init);
      PositionOneMore(init, r);
      assert live == init + [r];
    }
  }

  lemma {:induction false} NodesAre(live: seq<Resting>)
    requires StampsIncrease(live)
    ensures forall i :: 0 <= i < |live| ==> live[i].stamp in NodesOf(live) && NodesOf(live)[live[i].stamp] == NodeOf(live[i])
  {
    if live != [] {
      NodesAre(live[..|live| - 1]);
    }
  }

  lemma {:induction false} NodesHaveOrders(live: seq<Resting>, h: nat)
    requires h in NodesOf(live)
    ensures exists i :: 0 <= i < |live| && live[i].stamp == h
  {
    var n := |live| - 1;
    if h == live[n].stamp {
    } else {
      NodesHaveOrders(live[..n], h);
      var i :| 0 <= i < n && live[..n][i].stamp == h;
      assert live[i].stamp == h;
    }
  }

  lemma AppendIndex(live: seq<Resting>, r: Resting)
    requires !r.lost
    ensures IndexOf(live + [r]) == IndexOf(live)[r.id := EntryOf(r)]
    ensures NodesOf(live + [r]) == NodesOf(live)[r.stamp := NodeOf(r)]
  {
    assert (live + [r])[..|live|] == live;
  }

  lemma NotIndexed(live: seq<Resting>, id: string)
    requires IdsDistinct(live) && forall i :: 0 <= i < |live| ==> !Answers(live[i], id)
    ensures id !in IndexOf(live)
  {
    IndexIs(live);
  }

  lemma {:induction false} RemoveIndex(live: seq<Resting>, k: nat)
    requires IdsDistinct(live) && k < |live| && !live[k].lost
    ensures IndexOf(Without(live, k)) == IndexOf(live) - {live[k].id}
  {
    var n := |live| - 1;
    WithoutInit(live, k);
    if k == n {
      NotIndexed(live[..n], live[n].id);
    } else {
      var w := Without(live, k);
      RemoveIndex(live[..n], k);
      if !live[n].lost {
        assert live[k].id != live[n].id;
        assert IndexOf(w) == (IndexOf(live[..n]) - {live[k].id})[live[n].id := EntryOf(live[n])];
      }
    }
  }

  lemma NoSuchNode(live: seq<Resting>, h: nat)
    requires forall i :: 0 <= i < |live| ==> live[i].stamp != h
    ensures h !in NodesOf(live)
  {
    if h in NodesOf(live) {
      NodesHaveOrders(live, h);
    }
  }

  lemma {:induction false} RemoveNode(live: seq<Resting>, k: nat)
    requires StampsIncrease(live) && k < |live|
    ensures NodesOf(Without(live, k)) == NodesOf(live) - {live[k].stamp}
  {
    var n := |live| - 1;
    WithoutInit(live, k);
    if k == n {
      NoSuchNode(live[..n], live[n].stamp);
    } else {
      var w := Without(live, k);
      RemoveNode(live[..n], k);
      assert live[k].stamp != live[n].stamp;
      assert NodesOf(w) == (NodesOf(live[..n]) - {live[k].stamp})[live[n].stamp := NodeOf(live[n])];
    }
  }

  lemma {:induction false} AmendIndex(live: seq<Resting>, k: nat, r: Resting)
    requires IdsDistinct(live) && k < |live| && EntryOf(r) == EntryOf(live[k]) && !live[k].lost && !r.lost
    requires forall i :: 0 <= i < |live| && i != k ==> !Answers(live[i], r.id)
    ensures IndexOf(live[k := r]) == (IndexOf(live) - {live[k].id})[r.id := EntryOf(r)]
  {
    var n := |live| - 1;
    var w := live[k := r];
    if k == n {
      assert w[..n] == live[..n];
      NotIndexed(live[..n], live[n].id);
    } else {
      assert w[..n] == live[..n][k := r] && w[n] == live[n];
      AmendIndex(live[..n], k, r);
      if !live[n].lost {
        assert IndexOf(w) == IndexOf(live[..n][k := r])[live[n].id := EntryOf(live[n])];
      }
    }
  }

  /** An order that loses its index entry is the one order the index forgets. */
  lemma {:induction false} DisownIndex(live: seq<Resting>, k: nat)
    requires IdsDistinct(live) && k < |live| && !live[k].lost
    ensures IndexOf(live[k := live[k].(lost := true)]) == IndexOf(live) - {live[k].id}
  {
    var n := |live| - 1;
    var w := live[k := live[k].(lost := true)];
    if k == n {
      assert w[..n] == live[..n];
      NotIndexed(live[..n], live[n].id);
    } else {
      assert w[..n] == live[..n][k := live[k].(lost := true)] && w[n] == live[n];
      DisownIndex(live[..n], k);
      if !live[n].lost {
        assert live[k].id != live[n].id;
        assert IndexOf(w) == (IndexOf(live[..n]) - {live[k].id})[live[n].id := EntryOf(live[n])];
      }
    }
  }

  lemma {:induction false} AmendNode(live: seq<Resting>, k: nat, r: Resting)
    requires StampsIncrease(live) && k < |live| && r.stamp == live[k].stamp
    ensures NodesOf(live[k := r]) == NodesOf(live)[r.stamp := NodeOf(r)]
  {
    var n := |live| - 1;
    var w := live[k := r];
    if k == n {
      assert w[..n] == live[..n];
    } else {
      assert w[..n] == live[..n][k := r] && w[n] == live[n];
      AmendNode(live[..n], k, r);
      assert NodesOf(w) == NodesOf(live[..n][k := r])[live[n].stamp := NodeOf(live[n])];
    }
  }

  // ------------------------------------------------------- all containers together

  ghost predicate Contain(bids: PriceLevels, asks: PriceLevels, index: map<string, IndexEntry>, nodes: map<nat, Node>,
                          live: seq<Resting>)
  {
    HoldsLevels(bids, live, Buy) && HoldsLevels(asks, live, Sell) && index == IndexOf(live) && nodes == NodesOf(live)
  }

  function Enqueue(levels: PriceLevels, price: real, node: nat): PriceLevels {
    levels[price := (if price in levels then levels[price] else []) + [node]]
  }

  lemma ContainAppend(bids: PriceLevels, asks: PriceLevels, index: map<string, IndexEntry>, nodes: map<nat, Node>,
                      live: seq<Resting>, r: Resting)
    requires Contain(bids, asks, index, nodes, live) && !r.lost
    ensures Contain(if r.side.Buy? then Enqueue(bids, r.price, r.stamp) else bids,
                    if r.side.Buy? then asks else Enqueue(asks, r.price, r.stamp),
                    index[r.id := EntryOf(r)], nodes[r.stamp := NodeOf(r)], live + [r])
  {
    AppendLevels(bids, live, r, Buy);
    AppendLevels(asks, live, r, Sell);
    AppendIndex(live, r);
  }

  lemma ContainRemove(bids: PriceLevels, asks: PriceLevels, index: map<string, IndexEntry>, nodes: map<nat, Node>,
                      live: seq<Resting>, k: nat)
    requires Contain(bids, asks, index, nodes, live) && IdsDistinct(live) && StampsIncrease(live)
    requires k < |live| && !live[k].lost
    ensures live[k].price in (if live[k].side.Buy? then bids else asks)
    ensures Contain(if live[k].side.Buy? then UnlinkLevel(bids, live[k].price, live[k].stamp) else bids,
                    if live[k].side.Buy? then asks else UnlinkLevel(asks, live[k].price, live[k].stamp),
                    index - {live[k].id}, nodes - {live[k].stamp}, Without(live, k))
  {
    if live[k].side.Buy? {
      RemoveFromLevel(bids, live, k);
      RemoveFromOtherSide(asks, live, k, Sell);
    } else {
      RemoveFromLevel(asks, live, k);
      RemoveFromOtherSide(bids, live, k, Buy);
    }
    RemoveIndex(live, k);
    RemoveNode(live, k);
  }

  lemma ContainAmend(bids: PriceLevels, asks: PriceLevels, index: map<string, IndexEntry>, nodes: map<nat, Node>,
                     live: seq<Resting>, k: nat, r: Resting)
    requires Contain(bids, asks, index, nodes, live) && IdsDistinct(live) && StampsIncrease(live) && k < |live|
    requires EntryOf(r) == EntryOf(live[k]) && !live[k].lost && !r.lost
    requires forall i :: 0 <= i < |live| && i != k ==> !Answers(live[i], r.id)
    ensures Contain(bids, asks, (index - {live[k].id})[r.id := EntryOf(r)], nodes[r.stamp := NodeOf(r)], live[k := r])
  {
    AmendLevels(bids, live, k, r, Buy);
    AmendLevels(asks, live, k, r, Sell);
    AmendIndex(live, k, r);
    AmendNode(live, k, r);
  }

  /** Taking an index entry away shows in the index alone. */
  lemma ContainDisown(bids: PriceLevels, asks: PriceLevels, index: map<string, IndexEntry>, nodes: map<nat, Node>,
                      live: seq<Resting>, id: string)
    requires Contain(bids, asks, index, nodes, live) && IdsDistinct(live) && StampsIncrease(live)
    ensures Contain(bids, asks, index - {id}, nodes, Disown(live, id))
  {
    hide IndexOf, NodesOf, QueueOf, HoldsLevels;
    var k := Position(live, id);
    if k < |live| {
      var r := live[k].(lost := true);
      AmendLevels(bids, live, k, r, Buy);
      AmendLevels(asks, live, k, r, Sell);
      DisownIndex(live, k);
      AmendNode(live, k, r);
      NodesAre(live);
      assert nodes[r.stamp := NodeOf(r)] == nodes;
    } else {
      NotIndexed(live, id);
      assert index - {id} == index;
    }
  }

  /** Everything the containers say about the `k`-th order of the list. */
  lemma ContainLookup(bids: PriceLevels, asks: PriceLevels, index: map<string, IndexEntry>, nodes: map<nat, Node>,
                      live: seq<Resting>, k: nat)
    requires Contain(bids, asks, index, nodes, live) && IdsDistinct(live) && StampsIncrease(live) && k < |live|
    ensures var r := live[k];
            && (!r.lost ==> r.id in index && index[r.id] == EntryOf(r))
            && r.stamp in nodes && nodes[r.stamp] == NodeOf(r)
            && var levels := if r.side.Buy? then bids else asks;
               r.price in levels && r.stamp in levels[r.price]
  {
    hide IndexOf, NodesOf, QueueOf;
    IndexIs(live);
    NodesAre(live);
    QueuedWherePlaced(live, k);
  }

  /** Lowering a quantity in place leaves the index as it was. */
  lemma ContainFill(bids: PriceLevels, asks: PriceLevels, index: map<string, IndexEntry>, nodes: map<nat, Node>,
                    live: seq<Resting>, k: nat, r: Resting)
    requires Contain(bids, asks, index, nodes, live) && IdsDistinct(live) && StampsIncrease(live) && k < |live|
    requires EntryOf(r) == EntryOf(live[k]) && r.id == live[k].id && !live[k].lost && !r.lost
    ensures Contain(bids, asks, index, nodes[r.stamp := NodeOf(r)], live[k := r])
  {
    hide HoldsLevels, NodesOf, IndexOf;
    ContainAmend(bids, asks, index, nodes, live, k, r);
    IndexIs(live);
    assert (index - {r.id})[r.id := EntryOf(r)] == index;
  }

  lemma ContainFind(index: map<string, IndexEntry>, live: seq<Resting>, id: string)
    requires index == IndexOf(live) && IdsDistinct(live)
    ensures id in index <==> Position(live, id) < |live|
  {
    IndexIs(live);
  }
}
