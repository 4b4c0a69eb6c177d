/**
 The reference order book: one list of the live orders in time-priority order. A price level is
 the sub-list at that side and price; there is no index, no level map and no node store.
 `stamp` numbers insertions, so it records when an order last gained its place in the queue. `lost`
 marks an order whose index entry another order has taken over: it still queues, but no event finds it.
 */
module BookModel {
  import opened Options
  import opened FixTypes

  datatype Resting = Resting(stamp: nat, id: string, account: string, side: Side, price: real, qty: int, ts: int, lost: bool)

  datatype Book = Book(instrument: string, live: seq<Resting>, nextStamp: nat, sequence: nat, lastTs: int)

  /** `ok` is false when the program throws `invalid_argument`; `book` is the state it leaves behind. */
  datatype Outcome = Outcome(book: Book, ok: bool)

  function Empty(instrument: string): Book {
    Book(instrument, [], 0, 0, 0)
  }

  predicate Answers(r: Resting, id: string) {
    r.id == id && !r.lost
  }

  /** The place of the order found under `id`, or the length of the list if there is none. */
  function Position(live: seq<Resting>, id: string): (k: nat)
    ensures k <= |live|
    ensures k < |live| ==> Answers(live[k], id)
    ensures forall j :: 0 <= j < k ==> !Answers(live[j], id)
  {
    if live == [] then 0
    else
      var n := |live| - 1;
      var k := Position(live[..n], id);
      if k < n then k else if Answers(live[n], id) then n else |live|
  }

  predicate IsResting(b: Book, id: string) {
    Position(b.live, id) < |b.live|
  }

  function Without(live: seq<Resting>, k: nat): seq<Resting>
    requires k < |live|
  {
    live[..k] + live[k + 1..]
  }

  function InsertNew(b: Book, o: Order): Outcome {
    if IsResting(b, o.orderId) then Outcome(b, false)
    else
      var r := Resting(b.nextStamp, o.orderId, o.accountId, o.side, o.price, o.qty, o.timestampNs, false);
      Outcome(b.(live := b.live + [r], nextStamp := b.nextStamp + 1), true)
  }

  function Remove(b: Book, id: string): Book {
    var k := Position(b.live, id);
    if k < |b.live| then b.(live := Without(b.live, k)) else b
  }

  /** An amend that moves the order to the back of its (possibly new) queue. */
  predicate LosesPriority(r: Resting, o: Order) {
    o.price != r.price || o.qty > r.qty
  }

  /** The order found under `id`, if any, loses its index entry. */
  function Disown(live: seq<Resting>, id: string): (r: seq<Resting>)
    ensures |r| == |live|
  {
    var k := Position(live, id);
    if k < |live| then live[k := live[k].(lost := true)] else live
  }

  function Replace(b: Book, o: Order): Outcome {
    var k := Position(b.live, o.origOrderId);
    if k == |b.live| then Outcome(b, false)
    else if LosesPriority(b.live[k], o) then InsertNew(Remove(b, o.origOrderId), o)
    else Outcome(b.(live := Disown(b.live, o.orderId)[k := b.live[k].(id := o.orderId, qty := o.qty)]), true)
  }

  function Execute(b: Book, e: Execution): Outcome {
    var k := Position(b.live, e.orderId);
    if k == |b.live| || e.qty > b.live[k].qty then Outcome(b, false)
    else if b.live[k].qty == e.qty then Outcome(Remove(b, e.orderId), true)
    else Outcome(b.(live := b.live[k := b.live[k].(qty := b.live[k].qty - e.qty)]), true)
  }

  function Apply(b: Book, e: Event): Outcome {
    if e.InstrumentId() != b.instrument then Outcome(b, false)
    else
      var c := b.(sequence := b.sequence + 1, lastTs := e.TimestampNs());
      match e
      case ExecutionEvent(x) => Execute(c, x)
      case OrderEvent(o) =>
        match o.status
        case New => InsertNew(c, o)
        case Cancelled => Outcome(Remove(c, o.origOrderId), true)
        case Replaced => Replace(c, o)
  }

  function ApplyAll(b: Book, events: seq<Event>): Book {
    if events == [] then b
    else Apply(ApplyAll(b, events[..|events| - 1]), events[|events| - 1]).book
  }

  // -------------------------------------------------------------- price levels

  predicate At(r: Resting, side: Side, price: real) {
    r.side == side && r.price == price
  }

  /** The queue at one side and price, front first. */
  function LevelOf(live: seq<Resting>, side: Side, price: real): seq<Resting> {
    if live == [] then []
    else
      var n := |live| - 1;
      LevelOf(live[..n], side, price) + (if At(live[n], side, price) then [live[n]] else [])
  }

  function TotalQty(orders: seq<Resting>): int {
    if orders == [] then 0 else TotalQty(orders[..|orders| - 1]) + orders[|orders| - 1].qty
  }

  predicate Better(side: Side, p: real, q: real) {
    if side.Buy? then p > q else p < q
  }

  /** The highest bid or the lowest ask. */
  function BestOf(live: seq<Resting>, side: Side): Option<real> {
    if live == [] then None
    else
      var r := live[|live| - 1];
      var rest := BestOf(live[..|live| - 1], side);
      if r.side == side && (rest.None? || Better(side, r.price, rest.value)) then Some(r.price) else rest
  }

  // --------------------------------------------------------- well-formed books

  ghost predicate StampsIncrease(orders: seq<Resting>) {
    forall i, j :: 0 <= i < j < |orders| ==> orders[i].stamp < orders[j].stamp
  }

  ghost predicate IdsDistinct(live: seq<Resting>) {
    forall i, j :: 0 <= i < j < |live| && !live[i].lost && !live[j].lost ==> live[i].id != live[j].id
  }

  ghost predicate WellFormed(b: Book) {
    && StampsIncrease(b.live) && IdsDistinct(b.live)
    && forall i :: 0 <= i < |b.live| ==> b.live[i].stamp < b.nextStamp
  }

  ghost predicate NothingLost(live: seq<Resting>) {
    forall i :: 0 <= i < |live| ==> !live[i].lost
  }

  /** Well formed, and every order can be found under its id. */
  ghost predicate Intact(b: Book) {
    WellFormed(b) && NothingLost(b.live)
  }

  /**
   A Replace that keeps its place in the queue but takes the id of another resting order. The
   program overwrites that order's index entry.
   */
  predicate StealsId(b: Book, e: Event) {
    e.OrderEvent? && e.order.status.Replaced? && e.order.instrumentId == b.instrument
    && IsResting(b, e.order.origOrderId)
    && !LosesPriority(b.live[Position(b.live, e.order.origOrderId)], e.order)
    && e.order.orderId != e.order.origOrderId && IsResting(b, e.order.orderId)
  }

  lemma PositionUnique(live: seq<Resting>, id: string, k: nat)
    requires IdsDistinct(live) && k < |live| && Answers(live[k], id)
    ensures Position(live, id) == k
  {
  }

  lemma RestingAfterRemove(b: Book, id: string, other: string)
    requires IdsDistinct(b.live)
    ensures IsResting(Remove(b, id), other) <==> other != id && IsResting(b, other)
  {
    var k, j := Position(b.live, id), Position(b.live, other);
    if k < |b.live| {
      var w := Without(b.live, k);
      assert forall i :: 0 <= i < |w| ==> w[i] == b.live[if i < k then i else i + 1];
      if j < |b.live| && other != id {
        assert Answers(w[if j < k then j else j - 1], other);
      }
    }
  }

  lemma RemoveWellFormed(b: Book, id: string)
    requires WellFormed(b)
    ensures WellFormed(Remove(b, id))
    ensures forall other :: IsResting(Remove(b, id), other) <==> other != id && IsResting(b, other)
  {
    hide IsResting;
    RemoveKeepsWellFormed(b, id);
    forall other
      ensures IsResting(Remove(b, id), other) <==> other != id && IsResting(b, other)
    {
      RestingAfterRemove(b, id, other);
    }
  }

  lemma RemoveKeepsWellFormed(b: Book, id: string)
    requires WellFormed(b)
    ensures WellFormed(Remove(b, id)) && (NothingLost(b.live) ==> NothingLost(Remove(b, id).live))
  {
    var k := Position(b.live, id);
    if k < |b.live| {
      var w := Without(b.live, k);
      assert forall i :: 0 <= i < |w| ==> w[i] == b.live[if i < k then i else i + 1];
    }
  }

  lemma InsertWellFormed(b: Book, o: Order)
    requires WellFormed(b)
    ensures WellFormed(InsertNew(b, o).book) && (NothingLost(b.live) ==> NothingLost(InsertNew(b, o).book.live))
  {
  }

  /** Changing an order in place, if its id stays its own. */
  lemma AmendWellFormed(b: Book, k: nat, r: Resting)
    requires WellFormed(b) && k < |b.live| && r.stamp == b.live[k].stamp && !r.lost
    requires Answers(b.live[k], r.id) || !IsResting(b, r.id)
    ensures WellFormed(b.(live := b.live[k := r]))
    ensures NothingLost(b.live) ==> NothingLost(b.live[k := r])
  {
    var w := b.live[k := r];
    forall i | 0 <= i < |w| && i != k && !w[i].lost
      ensures w[i].id != r.id
    {
      assert w[i] == b.live[i];
    }
  }

  /** Taking an index entry away leaves the other orders as they were. */
  lemma DisownWellFormed(b: Book, id: string)
    requires WellFormed(b)
    ensures var c := b.(live := Disown(b.live, id));
            && WellFormed(c) && !IsResting(c, id)
            && forall other :: other != id ==> Position(c.live, other) == Position(b.live, other)
  {
    var c := b.(live := Disown(b.live, id));
    forall other | other != id
      ensures Position(c.live, other) == Position(b.live, other)
    {
      var j := Position(b.live, other);
      if j < |b.live| {
        PositionUnique(c.live, other, j);
      }
    }
  }

  /** The place-keeping branch, in the two steps it amounts to. */
  lemma ReplaceInPlace(b: Book, o: Order)
    requires WellFormed(b) && IsResting(b, o.origOrderId)
    requires !LosesPriority(b.live[Position(b.live, o.origOrderId)], o)
    ensures var k := Position(b.live, o.origOrderId);
            var r := b.live[k].(id := o.orderId, qty := o.qty);
            && (o.orderId == o.origOrderId || !IsResting(b, o.orderId) ==> Replace(b, o).book == b.(live := b.live[k := r]))
            && (o.orderId != o.origOrderId ==>
                  Replace(b, o).book == b.(live := Disown(b.live, o.orderId)[k := r])
                  && Disown(b.live, o.orderId)[k] == b.live[k])
  {
  }

  lemma ReplaceWellFormed(b: Book, o: Order)
    requires WellFormed(b)
    ensures WellFormed(Replace(b, o).book)
  {
    var k := Position(b.live, o.origOrderId);
    if k < |b.live| {
      if LosesPriority(b.live[k], o) {
        RemoveWellFormed(b, o.origOrderId);
        InsertWellFormed(Remove(b, o.origOrderId), o);
      } else {
        var r := b.live[k].(id := o.orderId, qty := o.qty);
        ReplaceInPlace(b, o);
        if o.orderId == o.origOrderId {
          AmendWellFormed(b, k, r);
        } else {
          DisownWellFormed(b, o.orderId);
          AmendWellFormed(b.(live := Disown(b.live, o.orderId)), k, r);
        }
      }
    }
  }

  lemma ReplaceKeepsIntactIff(b: Book, o: Order)
    requires Intact(b) && o.status.Replaced? && o.instrumentId == b.instrument
    ensures NothingLost(Replace(b, o).book.live) <==> !StealsId(b, OrderEvent(o))
  {
    var k, j := Position(b.live, o.origOrderId), Position(b.live, o.orderId);
    if k < |b.live| {
      if LosesPriority(b.live[k], o) {
        RemoveWellFormed(b, o.origOrderId);
        RemoveKeepsWellFormed(b, o.origOrderId);
        InsertWellFormed(Remove(b, o.origOrderId), o);
      } else if o.orderId != o.origOrderId && j < |b.live| {
        assert Replace(b, o).book.live[j].lost;
      } else {
        ReplaceInPlace(b, o);
      }
    }
  }

  lemma ExecuteWellFormed(b: Book, x: Execution)
    requires WellFormed(b)
    ensures WellFormed(Execute(b, x).book) && (NothingLost(b.live) ==> NothingLost(Execute(b, x).book.live))
  {
    RemoveKeepsWellFormed(b, x.orderId);
    var k := Position(b.live, x.orderId);
    if k < |b.live| {
      AmendWellFormed(b, k, b.live[k].(qty := b.live[k].qty - x.qty));
    }
  }

  /** The counters do not matter to well-formedness. */
  lemma CountersIrrelevant(b: Book, sequence: nat, lastTs: int)
    ensures WellFormed(b.(sequence := sequence, lastTs := lastTs)) <==> WellFormed(b)
    ensures forall id :: IsResting(b.(sequence := sequence, lastTs := lastTs), id) <==> IsResting(b, id)
  {
  }

  /** Every event keeps a book well formed. */
  lemma EventKeepsWellFormed(b: Book, e: Event)
    requires WellFormed(b)
    ensures WellFormed(Apply(b, e).book)
  {
    hide InsertNew, Remove, Replace, Execute, WellFormed;
    var c := b.(sequence := b.sequence + 1, lastTs := e.TimestampNs());
    CountersIrrelevant(b, c.sequence, c.lastTs);
    match e {
      case OrderEvent(o) =>
        InsertWellFormed(c, o);
        RemoveKeepsWellFormed(c, o.origOrderId);
        ReplaceWellFormed(c, o);
      case ExecutionEvent(x) =>
        ExecuteWellFormed(c, x);
    }
  }

  /** An intact book stays intact exactly when no priority-keeping Replace takes another order's id. */
  lemma IntactIffNoTheft(b: Book, e: Event)
    requires Intact(b)
    ensures Intact(Apply(b, e).book) <==> !StealsId(b, e)
  {
    EventKeepsWellFormed(b, e);
    hide InsertNew, Remove, Replace, Execute, WellFormed, NothingLost;
    var c := b.(sequence := b.sequence + 1, lastTs := e.TimestampNs());
    CountersIrrelevant(b, c.sequence, c.lastTs);
    if e.InstrumentId() == b.instrument {
      match e {
        case OrderEvent(o) =>
          InsertWellFormed(c, o);
          RemoveKeepsWellFormed(c, o.origOrderId);
          if o.status.Replaced? { ReplaceKeepsIntactIff(c, o); }
        case ExecutionEvent(x) =>
          ExecuteWellFormed(c, x);
      }
    }
  }

  /** So does every list of events. */
  lemma {:induction false} RunWellFormed(b: Book, events: seq<Event>)
    requires WellFormed(b)
    ensures WellFormed(ApplyAll(b, events))
  {
    if events != [] {
      RunWellFormed(b, events[..|events| - 1]);
      EventKeepsWellFormed(ApplyAll(b, events[..|events| - 1]), events[|events| - 1]);
    }
  }
}
