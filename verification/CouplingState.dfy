/** The holdings of a book and of the spoofing detector, and how each operation changes them. */
module CouplingState {
  import opened FixTypes
  import opened BookModel
  import opened SpoofingScore
  import opened SpoofingModel
  import opened Holdings

  /** The ids under which orders can be found. */
  function Ids(live: seq<Resting>): set<string> {
    set k | 0 <= k < |live| && !live[k].lost :: live[k].id
  }

  function HoldingOf(instrument: string, r: Resting): Holding {
    Holding(r.account, instrument, r.side, r.qty)
  }

  /** What a book holds, by order id. */
  function HeldBy(b: Book): Held {
    map id | id in Ids(b.live) :: HoldingOf(b.instrument, b.live[Position(b.live, id)])
  }

  function HeldBooks(books: map<string, Book>): map<string, Held> {
    map i | i in books :: HeldBy(books[i])
  }

  /** What the detector holds. */
  function HeldTracked(tracked: map<string, TrackedOrder>): Held {
    map id | id in tracked ::
      Holding(tracked[id].accountId, tracked[id].instrumentId, tracked[id].side, tracked[id].remainingQty)
  }

  // ------------------------------------------------------------------- books

  lemma InsertIntact(b: Book, o: Order)
    requires Intact(b)
    ensures Intact(InsertNew(b, o).book)
  {
    InsertWellFormed(b, o);
  }

  lemma RemoveIntact(b: Book, id: string)
    requires Intact(b)
    ensures Intact(Remove(b, id))
    ensures forall other :: IsResting(Remove(b, id), other) <==> other != id && IsResting(b, other)
  {
    RemoveWellFormed(b, id);
    RemoveKeepsWellFormed(b, id);
  }

  lemma ExecuteIntact(b: Book, x: Execution)
    requires Intact(b)
    ensures Intact(Execute(b, x).book)
  {
    ExecuteWellFormed(b, x);
  }

  lemma HeldIsResting(b: Book, id: string)
    ensures id in HeldBy(b) <==> IsResting(b, id)
  {
    var k := Position(b.live, id);
    if k < |b.live| {
      assert b.live[k].id in Ids(b.live);
    }
  }

  /** With distinct ids, a book holds each of its orders as that order is. */
  lemma HeldAt(b: Book, k: nat)
    requires Intact(b) && k < |b.live|
    ensures b.live[k].id in HeldBy(b) && HeldBy(b)[b.live[k].id] == HoldingOf(b.instrument, b.live[k])
  {
    assert b.live[k].id in Ids(b.live);
    PositionUnique(b.live, b.live[k].id, k);
  }

  /** A map with the right entry for every order, and no others, is what the book holds. */
  lemma HeldIs(b: Book, m: Held)
    requires Intact(b)
    requires forall id :: id in m <==> id in Ids(b.live)
    requires forall k :: 0 <= k < |b.live| && b.live[k].id in m ==> m[b.live[k].id] == HoldingOf(b.instrument, b.live[k])
    ensures HeldBy(b) == m
  {
  }

  lemma IdsAreHeld(b: Book, id: string)
    ensures id in Ids(b.live) <==> id in HeldBy(b)
  {
  }

  lemma FoundAt(b: Book, k: nat)
    requires Intact(b) && k < |b.live|
    ensures Position(b.live, b.live[k].id) == k
  {
    PositionUnique(b.live, b.live[k].id, k);
  }

  lemma NotResting(b: Book, id: string, k: nat)
    requires Intact(b) && !IsResting(b, id) && k < |b.live|
    ensures b.live[k].id != id
  {
  }

  lemma HeldInsert(b: Book, o: Order)
    requires Intact(b) && !IsResting(b, o.orderId)
    ensures HeldBy(InsertNew(b, o).book) == HeldBy(b)[o.orderId := Holding(o.accountId, b.instrument, o.side, o.qty)]
  {
    hide HeldBy, Intact, Ids;
    var c := InsertNew(b, o).book;
    InsertIntact(b, o);
    var m := HeldBy(b)[o.orderId := Holding(o.accountId, b.instrument, o.side, o.qty)];
    assert forall k :: 0 <= k < |b.live| ==> c.live[k] == b.live[k];
    assert c.live[|b.live|].id == o.orderId;
    forall id
      ensures id in m <==> id in Ids(c.live)
    {
      HeldIsResting(b, id);
      HeldIsResting(c, id);
      IdsAreHeld(c, id);
    }
    forall k | 0 <= k < |c.live|
      ensures c.live[k].id in m && m[c.live[k].id] == HoldingOf(c.instrument, c.live[k])
    {
      if k < |b.live| {
        HeldAt(b, k);
        NotResting(b, o.orderId, k);
      }
    }
    HeldIs(c, m);
  }

  /** Where the orders of a book are once one has been removed. */
  lemma RemainingAt(b: Book, id: string, k: nat)
    requires Intact(b) && k < |Remove(b, id).live|
    ensures var c := Remove(b, id);
            var j := if k < Position(b.live, id) then k else k + 1;
            j < |b.live| && c.live[k] == b.live[j] && c.live[k].id != id && c.instrument == b.instrument
  {
  }

  lemma HeldRemove(b: Book, id: string)
    requires Intact(b)
    ensures HeldBy(Remove(b, id)) == HeldBy(b) - {id}
  {
    hide HeldBy, Intact, Remove, Ids;
    var c := Remove(b, id);
    RemoveIntact(b, id);
    forall other
      ensures other in HeldBy(b) - {id} <==> other in Ids(c.live)
    {
      HeldIsResting(b, other);
      HeldIsResting(c, other);
      IdsAreHeld(c, other);
    }
    forall k | 0 <= k < |c.live|
      ensures c.live[k].id in HeldBy(b) && HeldBy(b)[c.live[k].id] == HoldingOf(c.instrument, c.live[k])
    {
      RemainingAt(b, id, k);
      HeldAt(b, if k < Position(b.live, id) then k else k + 1);
    }
    HeldIs(c, HeldBy(b) - {id});
  }

  lemma HeldAmend(b: Book, k: nat, r: Resting)
    requires Intact(b) && k < |b.live| && r.stamp == b.live[k].stamp && !r.lost
    requires r.id == b.live[k].id || !IsResting(b, r.id)
    ensures HeldBy(b.(live := b.live[k := r])) == (HeldBy(b) - {b.live[k].id})[r.id := HoldingOf(b.instrument, r)]
  {
    var c := b.(live := b.live[k := r]);
    AmendWellFormed(b, k, r);
    var m := (HeldBy(b) - {b.live[k].id})[r.id := HoldingOf(b.instrument, r)];
    forall j | 0 <= j < |c.live|
      ensures c.live[j].id in m && m[c.live[j].id] == HoldingOf(c.instrument, c.live[j])
    {
      if j != k {
        HeldAt(b, j);
      }
    }
    forall id
      ensures id in m <==> id in Ids(c.live)
    {
      AmendIds(b, k, r, id);
    }
    HeldIs(c, m);
  }

  lemma AmendIds(b: Book, k: nat, r: Resting, id: string)
    requires Intact(b) && k < |b.live| && !r.lost
    ensures id in Ids(b.live[k := r]) <==> id == r.id || (id in HeldBy(b) && id != b.live[k].id)
  {
    hide HeldBy, Intact;
    var w := b.live[k := r];
    HeldIsResting(b, id);
    assert w[k] == r && forall i :: 0 <= i < |w| && i != k ==> w[i] == b.live[i];
    if id in Ids(w) && id != r.id {
      var j :| 0 <= j < |w| && w[j].id == id && !w[j].lost;
      FoundAt(b, j);
      FoundAt(b, k);
    }
    if IsResting(b, id) && id != b.live[k].id {
      assert w[Position(b.live, id)].id in Ids(w);
    }
    assert w[k].id in Ids(w);
  }

  // ----------------------------------------------------------------- tracker

  lemma TrackedPut(s: State, q: Quotes, o: Order)
    ensures HeldTracked(TrackNew(s, q, o).tracked)
            == HeldTracked(s.tracked)[o.orderId := Holding(o.accountId, o.instrumentId, o.side, o.qty)]
  {
  }

  lemma TrackedDrop(s: State, id: string)
    ensures HeldTracked(EraseTracked(s, id).tracked) == HeldTracked(s.tracked) - {id}
  {
  }

  lemma TrackedFill(s: State, x: Execution)
    requires x.orderId in s.tracked
    ensures var h := HeldTracked(s.tracked)[x.orderId];
            HeldTracked(HandleExecution(s, x).tracked) ==
            if h.qty - x.qty <= 0 then HeldTracked(s.tracked) - {x.orderId}
            else HeldTracked(s.tracked)[x.orderId := h.(qty := h.qty - x.qty)]
  {
  }

  lemma TrackedMiss(s: State, x: Execution)
    requires x.orderId !in s.tracked
    ensures HandleExecution(s, x) == s && x.orderId !in HeldTracked(s.tracked)
  {
  }
}
