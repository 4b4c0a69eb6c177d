/** Price-time priority, rejected events and conservation of quantity, on the reference book. */
module BookProperties {
  import opened Options
  import opened FixTypes
  import opened BookModel

  // ------------------------------------------------------------- priority

  lemma {:induction false} LevelMembers(live: seq<Resting>, side: Side, price: real)
    ensures forall r :: r in LevelOf(live, side, price) <==> r in live && At(r, side, price)
  {
    if live != [] {
      var n := |live| - 1;
      LevelMembers(live[..n], side, price);
      assert live == live[..n] + [live[n]];
    }
  }

  lemma {:induction false} LevelKeepsOrder(live: seq<Resting>, side: Side, price: real)
    requires StampsIncrease(live)
    ensures StampsIncrease(LevelOf(live, side, price))
  {
    if live != [] {
      var n := |live| - 1;
      LevelKeepsOrder(live[..n], side, price);
      LevelMembers(live[..n], side, price);
      var q := LevelOf(live[..n], side, price);
      forall i | 0 <= i < |q|
        ensures q[i].stamp < live[n].stamp
      {
        assert q[i] in live[..n];
      }
    }
  }

  /** In every book that events can build, each queue is in strict insertion order. */
  lemma QueuesInInsertionOrder(instrument: string, events: seq<Event>, side: Side, price: real)
    ensures StampsIncrease(LevelOf(ApplyAll(Empty(instrument), events).live, side, price))
  {
    RunWellFormed(Empty(instrument), events);
    LevelKeepsOrder(ApplyAll(Empty(instrument), events).live, side, price);
  }

  /** `r` is `prior` with at most its id, its quantity and its index entry changed. */
  predicate SamePlace(r: Resting, prior: Resting) {
    r.stamp == prior.stamp && r.side == prior.side && r.price == prior.price && r.account == prior.account && r.ts == prior.ts
  }

  /**
   The `j`-th order of the new list held the `from[j]`-th place before, in the same relative order;
   at most one further order follows, with a new stamp.
   */
  ghost predicate KeepsOrder(from: seq<nat>, before: seq<Resting>, after: seq<Resting>, newStamp: nat) {
    && |from| <= |after| <= |from| + 1
    && (|after| > |from| ==> after[|from|].stamp == newStamp)
    && (forall j :: 0 <= j < |from| ==> from[j] < |before| && SamePlace(after[j], before[from[j]]))
    && (forall i, j :: 0 <= i < j < |from| ==> from[i] < from[j])
  }

  ghost predicate OnlyAppends(before: seq<Resting>, after: seq<Resting>, newStamp: nat) {
    exists from: seq<nat> :: KeepsOrder(from, before, after, newStamp)
  }

  lemma PlacesKeepOrder(before: seq<Resting>, after: seq<Resting>, newStamp: nat)
    requires |after| == |before| && forall j :: 0 <= j < |before| ==> SamePlace(after[j], before[j])
    ensures OnlyAppends(before, after, newStamp)
  {
    assert KeepsOrder(seq(|before|, j => j), before, after, newStamp);
  }

  lemma UnchangedKeepsOrder(before: seq<Resting>, newStamp: nat)
    ensures OnlyAppends(before, before, newStamp)
  {
    assert KeepsOrder(seq(|before|, j => j), before, before, newStamp);
  }

  /** Where `n` orders stood before the `k`-th of the list was taken out. */
  function PlacesWithout(k: nat, n: nat): (from: seq<nat>)
    ensures |from| == n
  {
    seq(n, j requires 0 <= j => if j < k then j else j + 1)
  }

  lemma RemoveKeepsOrder(b: Book, id: string)
    ensures var c := Remove(b, id);
            KeepsOrder(PlacesWithout(Position(b.live, id), |c.live|), b.live, c.live, b.nextStamp)
    ensures OnlyAppends(b.live, Remove(b, id).live, b.nextStamp)
  {
    var c := Remove(b, id);
    assert KeepsOrder(PlacesWithout(Position(b.live, id), |c.live|), b.live, c.live, b.nextStamp);
  }

  lemma RequeueKeepsOrder(b: Book, id: string, o: Order)
    ensures OnlyAppends(b.live, InsertNew(Remove(b, id), o).book.live, b.nextStamp)
  {
    hide Remove, PlacesWithout;
    var c, from := Remove(b, id), PlacesWithout(Position(b.live, id), |Remove(b, id).live|);
    RemoveKeepsOrder(b, id);
    RemoveKeepsStamp(b, id);
    var after := InsertNew(c, o).book.live;
    assert KeepsOrder(from, b.live, after, b.nextStamp);
  }

  lemma RemoveKeepsStamp(b: Book, id: string)
    ensures Remove(b, id).nextStamp == b.nextStamp
  {
  }

  lemma InsertKeepsOrder(b: Book, o: Order)
    ensures OnlyAppends(b.live, InsertNew(b, o).book.live, b.nextStamp)
  {
    assert KeepsOrder(seq(|b.live|, j => j), b.live, InsertNew(b, o).book.live, b.nextStamp);
  }

  lemma ReplaceKeepsOrder(b: Book, o: Order)
    ensures OnlyAppends(b.live, Replace(b, o).book.live, b.nextStamp)
  {
    var k := Position(b.live, o.origOrderId);
    hide OnlyAppends;
    UnchangedKeepsOrder(b.live, b.nextStamp);
    RequeueKeepsOrder(b, o.origOrderId, o);
    if k < |b.live| {
      PlacesKeepOrder(b.live, Disown(b.live, o.orderId)[k := b.live[k].(id := o.orderId, qty := o.qty)], b.nextStamp);
    }
  }

  lemma ExecuteKeepsOrder(b: Book, x: Execution)
    ensures OnlyAppends(b.live, Execute(b, x).book.live, b.nextStamp)
  {
    var k := Position(b.live, x.orderId);
    hide OnlyAppends;
    UnchangedKeepsOrder(b.live, b.nextStamp);
    RemoveKeepsOrder(b, x.orderId);
    if k < |b.live| {
      PlacesKeepOrder(b.live, b.live[k := b.live[k].(qty := b.live[k].qty - x.qty)], b.nextStamp);
    }
  }

  /**
   No event ever moves an order past another: the orders that survive keep their stamps, sides, prices
   and relative order, and an order that gains a place gets it behind all others.
   */
  lemma EventsOnlyAppend(b: Book, e: Event)
    ensures OnlyAppends(b.live, Apply(b, e).book.live, b.nextStamp)
  {
    hide OnlyAppends, InsertNew, Remove, Replace, Execute;
    var c := b.(sequence := b.sequence + 1, lastTs := e.TimestampNs());
    UnchangedKeepsOrder(b.live, b.nextStamp);
    match e {
      case OrderEvent(o) =>
        InsertKeepsOrder(c, o);
        RemoveKeepsOrder(c, o.origOrderId);
        ReplaceKeepsOrder(c, o);
      case ExecutionEvent(x) =>
        ExecuteKeepsOrder(c, x);
    }
  }

  /** The order an event is about, if any. */
  predicate Names(e: Event, id: string) {
    match e
    case ExecutionEvent(x) => x.orderId == id
    case OrderEvent(o) => !o.status.New? && o.origOrderId == id
  }

  lemma WithoutKeeps(live: seq<Resting>, k: nat, r: Resting)
    requires k < |live| && r in live && r != live[k]
    ensures r in Without(live, k)
  {
    var i :| 0 <= i < |live| && live[i] == r;
    assert Without(live, k)[if i < k then i else i - 1] == r;
  }

  lemma AmendKeeps(live: seq<Resting>, k: nat, r: Resting, amended: Resting)
    requires k < |live| && r in live && r != live[k]
    ensures r in live[k := amended]
  {
    var i :| 0 <= i < |live| && live[i] == r;
    assert live[k := amended][i] == r;
  }

  /** The order that loses its index entry to `e`. */
  predicate Victim(b: Book, e: Event, r: Resting) {
    StealsId(b, e) && Answers(r, e.order.orderId)
  }

  lemma ReplaceKeeps(b: Book, o: Order, r: Resting)
    requires r in b.live && !Answers(r, o.origOrderId)
    requires o.instrumentId == b.instrument && o.status.Replaced? && !Victim(b, OrderEvent(o), r)
    ensures r in Replace(b, o).book.live
  {
    var k := Position(b.live, o.origOrderId);
    if k < |b.live| {
      WithoutKeeps(b.live, k, r);
      if !LosesPriority(b.live[k], o) {
        var i :| 0 <= i < |b.live| && b.live[i] == r;
        assert Replace(b, o).book.live[i] == r;
      }
    }
  }

  lemma RemoveKeeps(b: Book, id: string, r: Resting)
    requires r in b.live && !Answers(r, id)
    ensures r in Remove(b, id).live
  {
    if IsResting(b, id) {
      WithoutKeeps(b.live, Position(b.live, id), r);
    }
  }

  lemma ExecuteKeeps(b: Book, x: Execution, r: Resting)
    requires r in b.live && !Answers(r, x.orderId)
    ensures r in Execute(b, x).book.live
  {
    RemoveKeeps(b, x.orderId, r);
    var k := Position(b.live, x.orderId);
    if k < |b.live| {
      AmendKeeps(b.live, k, r, b.live[k].(qty := b.live[k].qty - x.qty));
    }
  }

  /**
   No event, accepted or not, removes or changes an order it cannot find under the id it names, unless
   it takes that order's own id.
   */
  lemma OthersAreUntouched(b: Book, e: Event, r: Resting)
    requires r in b.live && (r.lost || !Names(e, r.id)) && !Victim(b, e, r)
    ensures r in Apply(b, e).book.live
  {
    hide Remove, Replace, Execute;
    var c := b.(sequence := b.sequence + 1, lastTs := e.TimestampNs());
    match e {
      case OrderEvent(o) =>
        if o.status.Cancelled? {
          RemoveKeeps(c, o.origOrderId, r);
        } else if o.instrumentId == b.instrument && o.status.Replaced? {
          ReplaceKeeps(c, o, r);
        }
      case ExecutionEvent(x) =>
        ExecuteKeeps(c, x, r);
    }
  }

  /** A partial fill changes the quantity of the named order, at its place, and nothing else. */
  lemma PartialFillKeepsPlace(b: Book, x: Execution)
    requires WellFormed(b) && x.instrumentId == b.instrument && IsResting(b, x.orderId)
    requires x.qty < b.live[Position(b.live, x.orderId)].qty
    ensures var k := Position(b.live, x.orderId);
            var after := Apply(b, ExecutionEvent(x));
            && after.ok && |after.book.live| == |b.live|
            && SamePlace(after.book.live[k], b.live[k]) && after.book.live[k].id == x.orderId
            && after.book.live[k].qty + x.qty == b.live[k].qty
            && forall j :: 0 <= j < |b.live| && j != k ==> after.book.live[j] == b.live[j]
  {
  }

  /**
   After a Replace that goes through, the order found under the new id is the amended one, wherever that
   id was before. It keeps its stamp and position if the price is unchanged and the quantity does not
   grow; otherwise it is last, with a stamp larger than that of every other order. The timestamps play
   no part.
   */
  lemma ReplacePriority(b: Book, o: Order)
    requires WellFormed(b) && o.instrumentId == b.instrument && o.status.Replaced?
    requires IsResting(b, o.origOrderId) && Apply(b, OrderEvent(o)).ok
    ensures var j := Position(b.live, o.origOrderId);
            var prior, c := b.live[j], Apply(b, OrderEvent(o)).book;
            var keeps := o.price == prior.price && o.qty <= prior.qty;
            var k := if keeps then j else |c.live| - 1;
            && |c.live| == |b.live| && k == Position(c.live, o.orderId) && c.live[k].qty == o.qty
            && (c.live[k].stamp == prior.stamp <==> keeps)
            && (!keeps ==> c.live[k].stamp == b.nextStamp && forall i :: 0 <= i < k ==> c.live[i].stamp < c.live[k].stamp)
  {
    var j := Position(b.live, o.origOrderId);
    var c := Apply(b, OrderEvent(o)).book;
    EventKeepsWellFormed(b, OrderEvent(o));
    PositionUnique(c.live, o.orderId, if LosesPriority(b.live[j], o) then |c.live| - 1 else j);
  }

  // ------------------------------------------------------------ stolen ids

  /** The stamps of the orders that no event can find any more. */
  function LostStamps(live: seq<Resting>): set<nat> {
    set k | 0 <= k < |live| && live[k].lost :: live[k].stamp
  }

  /** The stamp of the order whose id `e` takes, if it takes one. */
  function Stolen(b: Book, e: Event): set<nat> {
    if StealsId(b, e) then {b.live[Position(b.live, e.order.orderId)].stamp} else {}
  }

  function AllStolen(b: Book, events: seq<Event>): set<nat> {
    if events == [] then {}
    else AllStolen(b, events[..|events| - 1]) + Stolen(ApplyAll(b, events[..|events| - 1]), events[|events| - 1])
  }

  function Thefts(b: Book, events: seq<Event>): nat {
    if events == [] then 0
    else
      var n := |events| - 1;
      Thefts(b, events[..n]) + (if StealsId(ApplyAll(b, events[..n]), events[n]) then 1 else 0)
  }

  lemma LostWithout(live: seq<Resting>, k: nat)
    requires k < |live| && !live[k].lost
    ensures LostStamps(Without(live, k)) == LostStamps(live)
  {
    var w := Without(live, k);
    forall j | 0 <= j < |live| && live[j].lost
      ensures live[j].stamp in LostStamps(w)
    {
      assert w[if j < k then j else j - 1] == live[j];
    }
    assert forall i :: 0 <= i < |w| ==> w[i] == live[if i < k then i else i + 1];
  }

  lemma LostAmend(live: seq<Resting>, k: nat, r: Resting)
    requires k < |live| && !live[k].lost && r.stamp == live[k].stamp
    ensures LostStamps(live[k := r]) == LostStamps(live) + (if r.lost then {r.stamp} else {})
  {
    var w := live[k := r];
    forall j | 0 <= j < |live| && live[j].lost
      ensures live[j].stamp in LostStamps(w)
    {
      assert w[j] == live[j];
    }
    if r.lost {
      assert w[k].stamp in LostStamps(w);
    }
  }

  lemma LostInsert(b: Book, o: Order)
    ensures LostStamps(InsertNew(b, o).book.live) == LostStamps(b.live)
  {
    var live := InsertNew(b, o).book.live;
    forall j | 0 <= j < |b.live| && b.live[j].lost
      ensures b.live[j].stamp in LostStamps(live)
    {
      assert live[j] == b.live[j];
    }
  }

  lemma LostRemove(b: Book, id: string)
    ensures LostStamps(Remove(b, id).live) == LostStamps(b.live)
  {
    if IsResting(b, id) {
      LostWithout(b.live, Position(b.live, id));
    }
  }

  lemma LostReplace(b: Book, o: Order)
    requires WellFormed(b) && o.instrumentId == b.instrument && o.status.Replaced?
    ensures LostStamps(Replace(b, o).book.live) == LostStamps(b.live) + Stolen(b, OrderEvent(o))
  {
    hide LostStamps, WellFormed;
    var k, j := Position(b.live, o.origOrderId), Position(b.live, o.orderId);
    if k < |b.live| {
      LostRemove(b, o.origOrderId);
      LostInsert(Remove(b, o.origOrderId), o);
      var r := b.live[k].(id := o.orderId, qty := o.qty);
      if !LosesPriority(b.live[k], o) {
        ReplaceInPlace(b, o);
        if StealsId(b, OrderEvent(o)) {
          LostAmend(b.live, j, b.live[j].(lost := true));
          LostAmend(Disown(b.live, o.orderId), k, r);
        } else {
          LostAmend(b.live, k, r);
        }
      }
    }
  }

  lemma LostExecute(b: Book, x: Execution)
    ensures LostStamps(Execute(b, x).book.live) == LostStamps(b.live)
  {
    hide LostStamps;
    LostRemove(b, x.orderId);
    var k := Position(b.live, x.orderId);
    if k < |b.live| {
      LostAmend(b.live, k, b.live[k].(qty := b.live[k].qty - x.qty));
    }
  }

  /** An event loses the order whose id it takes, and no other; what was lost before stays lost. */
  lemma EventLosesItsVictim(b: Book, e: Event)
    requires WellFormed(b)
    ensures LostStamps(Apply(b, e).book.live) == LostStamps(b.live) + Stolen(b, e)
    ensures LostStamps(b.live) !! Stolen(b, e)
  {
    VictimWasFound(b, e);
    hide LostStamps, InsertNew, Remove, Replace, Execute, WellFormed;
    var c := b.(sequence := b.sequence + 1, lastTs := e.TimestampNs());
    CountersIrrelevant(b, c.sequence, c.lastTs);
    match e {
      case OrderEvent(o) =>
        LostInsert(c, o);
        LostRemove(c, o.origOrderId);
        if o.instrumentId == b.instrument && o.status.Replaced? { LostReplace(c, o); }
      case ExecutionEvent(x) =>
        LostExecute(c, x);
    }
  }

  lemma VictimWasFound(b: Book, e: Event)
    requires WellFormed(b)
    ensures LostStamps(b.live) !! Stolen(b, e)
  {
  }

  /**
   After any events, the orders that cannot be found are exactly those whose ids were taken, one for each
   theft, and all of them are still queued.
   */
  lemma {:induction false} LostAreStolen(instrument: string, events: seq<Event>)
    ensures var b := Empty(instrument);
            && LostStamps(ApplyAll(b, events).live) == AllStolen(b, events)
            && |AllStolen(b, events)| == Thefts(b, events)
  {
    var b := Empty(instrument);
    if events != [] {
      var n := |events| - 1;
      LostAreStolen(instrument, events[..n]);
      RunWellFormed(b, events[..n]);
      EventLosesItsVictim(ApplyAll(b, events[..n]), events[n]);
    }
  }

  /** Once lost, an order stays in the book for ever as it is: in its queue, shown, and out of reach. */
  lemma {:induction false} LostForEver(b: Book, events: seq<Event>, r: Resting)
    requires r in b.live && r.lost
    ensures r in ApplyAll(b, events).live
  {
    if events != [] {
      var n := |events| - 1;
      LostForEver(b, events[..n], r);
      OthersAreUntouched(ApplyAll(b, events[..n]), events[n], r);
    }
  }

  // ---------------------------------------------------------- rejected events

  /** A Replace that takes the order out of the book and then fails to put it back. */
  predicate LosesOrder(b: Book, e: Event) {
    e.OrderEvent? && e.order.status.Replaced?
    && IsResting(b, e.order.origOrderId)
    && LosesPriority(b.live[Position(b.live, e.order.origOrderId)], e.order)
    && e.order.orderId != e.order.origOrderId && IsResting(b, e.order.orderId)
  }

  /**
   An event the book rejects leaves every order as it was, except a priority-losing Replace onto
   another resting order's id. The sequence number advances unless the instrument is wrong.
   */
  lemma RejectionLeavesOrders(b: Book, e: Event)
    requires WellFormed(b) && !Apply(b, e).ok
    ensures Apply(b, e).book.live == b.live <==> !(e.InstrumentId() == b.instrument && LosesOrder(b, e))
    ensures Apply(b, e).book.nextStamp == b.nextStamp
    ensures Apply(b, e).book.sequence == b.sequence + (if e.InstrumentId() == b.instrument then 1 else 0)
  {
    if e.OrderEvent? {
      RemoveWellFormed(b, e.order.origOrderId);
      var c := b.(sequence := b.sequence + 1, lastTs := e.TimestampNs());
      assert Remove(c, e.order.origOrderId).live == Remove(b, e.order.origOrderId).live;
    }
  }

  // ------------------------------------------------------------ conservation

  lemma {:induction false} TotalAppend(a: seq<Resting>, c: seq<Resting>)
    ensures TotalQty(a + c) == TotalQty(a) + TotalQty(c)
  {
    if c == [] {
      assert a + c == a;
    } else {
      var n := |c| - 1;
      assert (a + c)[..|a + c| - 1] == a + c[..n];
      TotalAppend(a, c[..n]);
    }
  }

  lemma TotalSplit(live: seq<Resting>, k: nat)
    requires k < |live|
    ensures TotalQty(live) == TotalQty(live[..k]) + live[k].qty + TotalQty(live[k + 1..])
  {
    assert live == live[..k + 1] + live[k + 1..];
    TotalAppend(live[..k + 1], live[k + 1..]);
    assert live[..k + 1][..k] == live[..k];
  }

  lemma TotalWithout(live: seq<Resting>, k: nat)
    requires k < |live|
    ensures TotalQty(Without(live, k)) == TotalQty(live) - live[k].qty
  {
    TotalSplit(live, k);
    TotalAppend(live[..k], live[k + 1..]);
  }

  lemma TotalAmend(live: seq<Resting>, k: nat, r: Resting)
    requires k < |live|
    ensures TotalQty(live[k := r]) == TotalQty(live) - live[k].qty + r.qty
  {
    TotalSplit(live, k);
    TotalSplit(live[k := r], k);
    assert live[k := r][..k] == live[..k] && live[k := r][k + 1..] == live[k + 1..];
  }

  function RemainingQty(b: Book, id: string): int {
    if IsResting(b, id) then b.live[Position(b.live, id)].qty else 0
  }

  /** The four ways resting quantity enters or leaves a book over a list of events. */
  datatype Flows = Flows(entered: int, executed: int, cancelled: int, amended: int)

  function FlowsOf(b: Book, events: seq<Event>): Flows {
    if events == [] then Flows(0, 0, 0, 0)
    else
      var n := |events| - 1;
      var f := FlowsOf(b, events[..n]);
      var c, e := ApplyAll(b, events[..n]), events[n];
      if e.InstrumentId() != c.instrument then f
      else if !Apply(c, e).ok then
        (if LosesOrder(c, e) then f.(cancelled := f.cancelled + RemainingQty(c, e.order.origOrderId)) else f)
      else
        match e
        case ExecutionEvent(x) => f.(executed := f.executed + x.qty)
        case OrderEvent(o) =>
          match o.status
          case New => f.(entered := f.entered + o.qty)
          case Cancelled => f.(cancelled := f.cancelled + RemainingQty(c, o.origOrderId))
          case Replaced => f.(amended := f.amended + o.qty - RemainingQty(c, o.origOrderId))
  }

  lemma RemoveTotal(b: Book, id: string)
    ensures TotalQty(Remove(b, id).live) == TotalQty(b.live) - RemainingQty(b, id)
  {
    if IsResting(b, id) {
      TotalWithout(b.live, Position(b.live, id));
    }
  }

  lemma InsertTotal(b: Book, o: Order)
    ensures var r := InsertNew(b, o);
            TotalQty(r.book.live) == TotalQty(b.live) + (if r.ok then o.qty else 0)
  {
    if !IsResting(b, o.orderId) {
      var live := InsertNew(b, o).book.live;
      assert live[..|live| - 1] == b.live;
    }
  }

  lemma DisownTotal(live: seq<Resting>, id: string)
    ensures TotalQty(Disown(live, id)) == TotalQty(live)
    ensures forall i :: 0 <= i < |live| ==> Disown(live, id)[i].qty == live[i].qty
  {
    var k := Position(live, id);
    if k < |live| {
      TotalAmend(live, k, live[k].(lost := true));
    }
  }

  lemma ReplaceTotal(b: Book, o: Order)
    requires WellFormed(b)
    ensures var r := Replace(b, o);
            && (r.ok ==> TotalQty(r.book.live) == TotalQty(b.live) - RemainingQty(b, o.origOrderId) + o.qty)
            && (!r.ok && IsResting(b, o.origOrderId) ==>
                  TotalQty(r.book.live) == TotalQty(b.live) - RemainingQty(b, o.origOrderId)
                  && LosesPriority(b.live[Position(b.live, o.origOrderId)], o)
                  && o.orderId != o.origOrderId && IsResting(b, o.orderId))
            && (!IsResting(b, o.origOrderId) ==> !r.ok && r.book == b)
  {
    var k := Position(b.live, o.origOrderId);
    if k < |b.live| {
      RemoveWellFormed(b, o.origOrderId);
      RemoveTotal(b, o.origOrderId);
      InsertTotal(Remove(b, o.origOrderId), o);
      DisownTotal(b.live, o.orderId);
      TotalAmend(b.live, k, b.live[k].(id := o.orderId, qty := o.qty));
      TotalAmend(Disown(b.live, o.orderId), k, b.live[k].(id := o.orderId, qty := o.qty));
    }
  }

  lemma ExecuteTotal(b: Book, x: Execution)
    ensures var r := Execute(b, x);
            TotalQty(r.book.live) == TotalQty(b.live) - (if r.ok then x.qty else 0)
  {
    var k := Position(b.live, x.orderId);
    if k < |b.live| {
      RemoveTotal(b, x.orderId);
      TotalAmend(b.live, k, b.live[k].(qty := b.live[k].qty - x.qty));
    }
  }

  lemma EventTotal(b: Book, e: Event)
    requires WellFormed(b) && e.InstrumentId() == b.instrument
    ensures var r := Apply(b, e);
            TotalQty(r.book.live) - TotalQty(b.live) ==
            match e
            case ExecutionEvent(x) => if r.ok then -x.qty else 0
            case OrderEvent(o) =>
              if !r.ok then (if LosesOrder(b, e) then -RemainingQty(b, o.origOrderId) else 0)
              else match o.status
                case New => o.qty
                case Cancelled => -RemainingQty(b, o.origOrderId)
                case Replaced => o.qty - RemainingQty(b, o.origOrderId)
  {
    hide TotalQty, InsertNew, Remove, Replace, Execute, WellFormed;
    var c := b.(sequence := b.sequence + 1, lastTs := e.TimestampNs());
    CountersIrrelevant(b, b.sequence + 1, e.TimestampNs());
    match e {
      case ExecutionEvent(x) => ExecuteTotal(c, x);
      case OrderEvent(o) =>
        match o.status {
          case New => InsertTotal(c, o);
          case Cancelled => RemoveTotal(c, o.origOrderId);
          case Replaced => ReplaceTotal(c, o);
        }
    }
  }

  /** Resting quantity is what was entered, minus executions and cancelled remainders, plus amendments. */
  lemma {:induction false} QuantityIsConserved(b: Book, events: seq<Event>)
    requires WellFormed(b)
    ensures var f := FlowsOf(b, events);
            TotalQty(ApplyAll(b, events).live) == TotalQty(b.live) + f.entered - f.executed - f.cancelled + f.amended
  {
    if events != [] {
      var n := |events| - 1;
      QuantityIsConserved(b, events[..n]);
      RunWellFormed(b, events[..n]);
      var c, e := ApplyAll(b, events[..n]), events[n];
      if e.InstrumentId() == c.instrument {
        EventTotal(c, e);
      }
    }
  }

  // ------------------------------------------------------- the opposite side

  lemma {:induction false} BestIgnoresOther(live: seq<Resting>, k: nat, side: Side)
    requires k < |live| && live[k].side != side
    ensures BestOf(Without(live, k), side) == BestOf(live, side)
  {
    var n := |live| - 1;
    var init, last := live[..n], live[n];
    hide BestOf;
    BestOfOneMore(init, last, side);
    assert live == init + [last];
    if k < n {
      BestIgnoresOther(init, k, side);
      BestOfOneMore(Without(init, k), last, side);
      WithoutOneMore(init, last, k);
    } else {
      assert Without(live, k) == init;
    }
  }

  lemma WithoutOneMore(init: seq<Resting>, r: Resting, k: nat)
    requires k < |init|
    ensures Without(init + [r], k) == Without(init, k) + [r]
  {
  }

  lemma BestOfOneMore(init: seq<Resting>, r: Resting, side: Side)
    ensures var rest := BestOf(init, side);
            BestOf(init + [r], side) ==
            if r.side == side && (rest.None? || Better(side, r.price, rest.value)) then Some(r.price) else rest
  {
    assert (init + [r])[..|init|] == init;
  }

  /** Taking an order out of the book never moves the best price of the other side. */
  lemma RemovalLeavesOppositeBest(b: Book, id: string)
    requires IsResting(b, id)
    ensures var opposite := b.live[Position(b.live, id)].side.Opposite();
            BestOf(Remove(b, id).live, opposite) == BestOf(b.live, opposite)
  {
    BestIgnoresOther(b.live, Position(b.live, id), b.live[Position(b.live, id)].side.Opposite());
  }
}
