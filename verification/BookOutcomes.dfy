/** Which events the reference book accepts, and what exactly an accepted one leaves behind. */
module BookOutcomes {
  import opened FixTypes
  import opened BookModel
  import opened BookProperties

  /** Exactly which events a book accepts. */
  predicate Acceptable(b: Book, e: Event) {
    && e.InstrumentId() == b.instrument
    && match e
       case ExecutionEvent(x) => exists k :: 0 <= k < |b.live| && Answers(b.live[k], x.orderId) && x.qty <= b.live[k].qty
       case OrderEvent(o) =>
         match o.status
         case Cancelled => true
         case New => forall k :: 0 <= k < |b.live| ==> !Answers(b.live[k], o.orderId)
         case Replaced =>
           exists k :: 0 <= k < |b.live| && Answers(b.live[k], o.origOrderId)
                    && (o.price != b.live[k].price || o.qty > b.live[k].qty ==>
                          forall j :: 0 <= j < |b.live| && j != k ==> !Answers(b.live[j], o.orderId))
  }

  /**
   A book accepts an event iff it is for its instrument and: a New brings an id under which nothing rests;
   an Execution names a resting order and no more than its quantity; a Replace names a resting order and,
   if it has to requeue it, no other order's id. A Cancel is always accepted.
   */
  lemma AcceptedIff(b: Book, e: Event)
    requires WellFormed(b)
    ensures Apply(b, e).ok <==> Acceptable(b, e)
  {
    if e.InstrumentId() == b.instrument {
      match e {
        case ExecutionEvent(x) => ExecutionAcceptedIff(b, x);
        case OrderEvent(o) => if o.status.Replaced? { ReplaceAcceptedIff(b, o); }
      }
    }
  }

  lemma ExecutionAcceptedIff(b: Book, x: Execution)
    requires WellFormed(b)
    ensures Execute(b, x).ok <==>
            exists k :: 0 <= k < |b.live| && Answers(b.live[k], x.orderId) && x.qty <= b.live[k].qty
  {
    if k :| 0 <= k < |b.live| && Answers(b.live[k], x.orderId) && x.qty <= b.live[k].qty {
      PositionUnique(b.live, x.orderId, k);
    }
  }

  lemma ReplaceAcceptedIff(b: Book, o: Order)
    requires WellFormed(b)
    ensures Replace(b, o).ok <==>
            exists k :: 0 <= k < |b.live| && Answers(b.live[k], o.origOrderId)
                     && (o.price != b.live[k].price || o.qty > b.live[k].qty ==>
                           forall j :: 0 <= j < |b.live| && j != k ==> !Answers(b.live[j], o.orderId))
  {
    RestingAfterRemove(b, o.origOrderId, o.orderId);
    var p := Position(b.live, o.origOrderId);
    forall k | 0 <= k < |b.live| && Answers(b.live[k], o.origOrderId)
      ensures k == p
    {
      PositionUnique(b.live, o.origOrderId, k);
    }
    if p < |b.live| {
      OtherHolder(b, o, p);
    }
  }

  lemma OtherHolder(b: Book, o: Order, p: nat)
    requires WellFormed(b) && p < |b.live| && Answers(b.live[p], o.origOrderId)
    ensures (o.orderId != o.origOrderId && IsResting(b, o.orderId)) <==>
            exists j :: 0 <= j < |b.live| && j != p && Answers(b.live[j], o.orderId)
  {
    if o.orderId != o.origOrderId && IsResting(b, o.orderId) {
      assert Answers(b.live[Position(b.live, o.orderId)], o.orderId);
    }
    if j :| 0 <= j < |b.live| && j != p && Answers(b.live[j], o.orderId) {
      PositionUnique(b.live, o.orderId, j);
    }
  }

  /** The order is the one the message describes, fresh from the message. */
  predicate AsSent(r: Resting, o: Order) {
    && r.id == o.orderId && r.account == o.accountId && r.side == o.side && r.price == o.price && r.qty == o.qty
    && r.ts == o.timestampNs && !r.lost
  }

  /** An accepted New changes nothing but to put the order, as sent, behind all others. */
  lemma NewIsQueuedAsSent(b: Book, o: Order)
    requires o.instrumentId == b.instrument && o.status.New? && Apply(b, OrderEvent(o)).ok
    ensures var live := Apply(b, OrderEvent(o)).book.live;
            |live| == |b.live| + 1 && live[..|b.live|] == b.live && AsSent(live[|b.live|], o)
  {
  }

  /**
   After an accepted Replace the order found under the new id has the price and quantity sent. Requeued, it
   is in all respects as sent; kept in place, it has the side, account and time it had.
   */
  lemma ReplaceIsAsSent(b: Book, o: Order)
    requires WellFormed(b) && o.instrumentId == b.instrument && o.status.Replaced? && Apply(b, OrderEvent(o)).ok
    ensures IsResting(b, o.origOrderId) && IsResting(Apply(b, OrderEvent(o)).book, o.orderId)
    ensures var prior := b.live[Position(b.live, o.origOrderId)];
            var live := Apply(b, OrderEvent(o)).book.live;
            var r := live[Position(live, o.orderId)];
            && r.price == o.price && r.qty == o.qty
            && (if o.price != prior.price || o.qty > prior.qty then AsSent(r, o)
                else r.side == prior.side && r.account == prior.account && r.ts == prior.ts)
  {
    ReplacePriority(b, o);
  }

  /** A Cancel takes the order it names out of the list, if it is there, and leaves the rest in place. */
  lemma CancelTakesOut(b: Book, o: Order)
    requires WellFormed(b) && o.instrumentId == b.instrument && o.status.Cancelled?
    ensures var live := Apply(b, OrderEvent(o)).book.live;
            && (forall k :: 0 <= k < |live| ==> !Answers(live[k], o.origOrderId))
            && (forall k :: 0 <= k < |b.live| && Answers(b.live[k], o.origOrderId) ==> live == b.live[..k] + b.live[k + 1..])
            && (!IsResting(b, o.origOrderId) ==> live == b.live)
  {
    var c := b.(sequence := b.sequence + 1, lastTs := o.timestampNs);
    RestingAfterRemove(c, o.origOrderId, o.origOrderId);
    forall k | 0 <= k < |b.live| && Answers(b.live[k], o.origOrderId)
      ensures k == Position(b.live, o.origOrderId)
    {
      PositionUnique(b.live, o.origOrderId, k);
    }
  }

  /** An execution of everything that is left takes the order out; any less leaves it with the rest. */
  lemma ExecutionLeavesTheRest(b: Book, x: Execution)
    requires WellFormed(b) && x.instrumentId == b.instrument && Apply(b, ExecutionEvent(x)).ok
    ensures IsResting(b, x.orderId)
    ensures var k := Position(b.live, x.orderId);
            var left, live := b.live[k].qty - x.qty, Apply(b, ExecutionEvent(x)).book.live;
            && left >= 0
            && (left == 0 ==> live == b.live[..k] + b.live[k + 1..])
            && (left != 0 ==> live == b.live[k := b.live[k].(qty := left)])
  {
  }

  /** Every event for the book's instrument is counted and timed, rejected or not; no other event is. */
  lemma EveryEventIsCounted(b: Book, e: Event)
    ensures var after := Apply(b, e).book;
            && after.instrument == b.instrument
            && (e.InstrumentId() == b.instrument ==> after.sequence == b.sequence + 1 && after.lastTs == e.TimestampNs())
            && (e.InstrumentId() != b.instrument ==> after == b)
  {
  }
}
