/** The spoofing detector stays in step with the books over whole runs of a disciplined event stream. */
module CouplingRuns {
  import opened FixTypes
  import opened BookModel
  import opened PipelineModel
  import opened SpoofingScore
  import opened SpoofingModel
  import opened SpoofingCounts
  import opened Holdings
  import opened CouplingState
  import opened Coupling

  /** The pipeline after some events, whatever detectors it was built with. */
  function Reached<D>(evaluate: Evaluator<D>, detectors: seq<D>, events: seq<Event>): Pipeline<D> {
    Run(evaluate, detectors, events).pipeline
  }

  /** The pipeline is built with a fresh spoofing detector in place `k`, among any others. */
  ghost predicate BuiltWith<D(!new)>(evaluate: Evaluator<D>, cfg: Config, v: View<D>, detectors: seq<D>, k: nat) {
    Hosts(evaluate, cfg, v) && k < |detectors| && v.isSpoofing(detectors[k]) && v.state(detectors[k]) == INITIAL
  }

  lemma StartInStep<D(!new)>(evaluate: Evaluator<D>, cfg: Config, v: View<D>, detectors: seq<D>, k: nat)
    requires BuiltWith(evaluate, cfg, v, detectors, k)
    ensures InStep(v, k, Reached(evaluate, detectors, []))
  {
    assert forall key :: IdsWith(INITIAL.tracked, key) == {};
  }

  /** Coherence is what keeps every reachable state in step. */
  lemma {:induction false} CoherentRunStaysInStep<D(!new)>(evaluate: Evaluator<D>, cfg: Config, v: View<D>,
                                                            detectors: seq<D>, k: nat, events: seq<Event>)
    requires BuiltWith(evaluate, cfg, v, detectors, k)
    requires forall n :: 0 <= n < |events| ==> Coherent(Reached(evaluate, detectors, events[..n]).books, events[n])
    ensures InStep(v, k, Reached(evaluate, detectors, events))
    decreases |events|
  {
    hide Hosts, Coherent, Process, InStep;
    if events == [] {
      StartInStep(evaluate, cfg, v, detectors, k);
    } else {
      var n := |events| - 1;
      assert forall m :: 0 <= m < n ==> events[..n][..m] == events[..m];
      CoherentRunStaysInStep(evaluate, cfg, v, detectors, k, events[..n]);
      CoupledIffCoherent(evaluate, cfg, v, Reached(evaluate, detectors, events[..n]), k, events[n]);
    }
  }

  // ------------------------------------- a discipline on the event stream itself

  predicate Introduces(e: Event) {
    e.OrderEvent? && !e.order.status.Cancelled?
  }

  /** What a later event owes an earlier one that introduced an order id. */
  predicate Respects(later: Event, earlier: Event) {
    Introduces(earlier) && later.OrderEvent? ==>
      && (Introduces(later) ==> later.order.orderId != earlier.order.orderId)
      && (later.order.origOrderId == earlier.order.orderId ==>
            && (later.order.status.Cancelled? ==> later.order.instrumentId == earlier.order.instrumentId)
            && (later.order.status.Replaced? ==>
                  later.order.accountId == earlier.order.accountId && later.order.side == earlier.order.side))
  }

  /**
   Every New and Replace brings an order id never introduced before, Cancels name the instrument the
   order was introduced on, and Replaces keep its account and side.
   */
  ghost predicate Disciplined(events: seq<Event>) {
    forall m, n :: 0 <= m < n < |events| ==> Respects(events[n], events[m])
  }

  predicate Originates(e: Event, id: string, h: Holding) {
    Introduces(e) && e.order.orderId == id
    && h.account == e.order.accountId && h.instrument == e.order.instrumentId && h.side == e.order.side
  }

  ghost predicate HasOrigin(events: seq<Event>, id: string, h: Holding) {
    exists m :: 0 <= m < |events| && Originates(events[m], id, h)
  }

  /** Everything tracked was introduced, with that account, instrument and side, by some event. */
  ghost predicate OriginsKnown(events: seq<Event>, tracker: Held) {
    forall id :: id in tracker ==> HasOrigin(events, id, tracker[id])
  }

  lemma OriginsOneMore(events: seq<Event>, e: Event, tracker: Held)
    requires OriginsKnown(events, tracker)
    ensures OriginsKnown(events + [e], tracker) && OriginsKnown(events + [e], TrackerAfter(tracker, e))
  {
    var after := events + [e];
    var t := TrackerAfter(tracker, e);
    forall id | id in tracker
      ensures HasOrigin(after, id, tracker[id])
    {
      var m :| 0 <= m < |events| && Originates(events[m], id, tracker[id]);
      assert Originates(after[m], id, tracker[id]);
    }
    forall id | id in t
      ensures HasOrigin(after, id, t[id])
    {
      if Introduces(e) && e.order.orderId == id {
        assert Originates(after[|events|], id, t[id]);
      } else {
        var m :| 0 <= m < |after| && Originates(after[m], id, tracker[id]);
        assert Originates(after[m], id, t[id]);
      }
    }
  }

  lemma NeverIntroduced(events: seq<Event>, id: string, h: Holding)
    requires forall m :: 0 <= m < |events| ==> Introduces(events[m]) ==> events[m].order.orderId != id
    ensures !HasOrigin(events, id, h)
  {
  }

  /** An id that has not been introduced rests in no book. */
  lemma FreshRestsNowhere(books: map<string, Book>, s: State, events: seq<Event>, id: string)
    requires Coupled(books, s) && OriginsKnown(events, HeldTracked(s.tracked))
    requires forall m :: 0 <= m < |events| ==> Introduces(events[m]) ==> events[m].order.orderId != id
    ensures forall j :: j in books ==> !IsResting(books[j], id)
  {
    var tracker := HeldTracked(s.tracked);
    if id in tracker {
      NeverIntroduced(events, id, tracker[id]);
    }
    forall j | j in books
      ensures !IsResting(books[j], id)
    {
      HeldIsResting(books[j], id);
      if id in HeldBy(books[j]) {
        Covered(HeldBooks(books), tracker, j, id);
      }
    }
  }

  /** A resting order was introduced on its book's instrument, with the account and side it rests with. */
  lemma RestingHasOrigin(books: map<string, Book>, s: State, events: seq<Event>, j: string, id: string)
    requires Coupled(books, s) && OriginsKnown(events, HeldTracked(s.tracked))
    requires j in books && IsResting(books[j], id)
    ensures HasOrigin(events, id, HoldingOf(j, books[j].live[Position(books[j].live, id)]))
  {
    HeldAt(books[j], Position(books[j].live, id));
    Covered(HeldBooks(books), HeldTracked(s.tracked), j, id);
  }

  lemma DisciplineIsCoherent(books: map<string, Book>, s: State, events: seq<Event>, e: Event)
    requires Coupled(books, s) && OriginsKnown(events, HeldTracked(s.tracked))
    requires forall m :: 0 <= m < |events| ==> Respects(e, events[m])
    ensures Coherent(books, e)
  {
    if e.OrderEvent? {
      var o := e.order;
      if Introduces(e) {
        FreshRestsNowhere(books, s, events, o.orderId);
      }
      forall j | j in books && IsResting(books[j], o.origOrderId)
        ensures o.status.Cancelled? ==> j == o.instrumentId
        ensures o.status.Replaced? ==>
                  var prior := books[j].live[Position(books[j].live, o.origOrderId)];
                  o.accountId == prior.account && o.side == prior.side
      {
        RestingHasOrigin(books, s, events, j, o.origOrderId);
      }
    }
  }

  lemma DisciplinedStep<D(!new)>(evaluate: Evaluator<D>, cfg: Config, v: View<D>, p: Pipeline<D>, k: nat,
                                 events: seq<Event>, e: Event)
    requires Hosts(evaluate, cfg, v) && InStep(v, k, p)
    requires OriginsKnown(events, HeldTracked(v.state(p.detectors[k]).tracked))
    requires forall m :: 0 <= m < |events| ==> Respects(e, events[m])
    ensures var q := Process(evaluate, p, e).0;
            && InStep(v, k, q)
            && OriginsKnown(events + [e], HeldTracked(v.state(q.detectors[k]).tracked))
  {
    var s := v.state(p.detectors[k]);
    DisciplineIsCoherent(p.books, s, events, e);
    CoupledIffCoherent(evaluate, cfg, v, p, k, e);
    PipelineStep(evaluate, cfg, v, p, k, e);
    OriginsOneMore(events, e, HeldTracked(s.tracked));
    EvaluateHoldings(cfg, s, Apply(BookAt(p.books, e.InstrumentId()), e).book, e);
    hide Hosts, Coupled, Coherent, Process, Apply, Evaluate, HeldTracked, TrackerAfter, OriginsKnown;
  }

  /**
   After any disciplined events, in a pipeline of any detectors, the spoofing detector tracks exactly the
   orders resting across all books, with equal remaining quantities, and its counters count them.
   */
  lemma {:induction false} DisciplinedRunStaysInStep<D(!new)>(evaluate: Evaluator<D>, cfg: Config, v: View<D>,
                                                               detectors: seq<D>, k: nat, events: seq<Event>)
    requires BuiltWith(evaluate, cfg, v, detectors, k) && Disciplined(events)
    ensures InStep(v, k, Reached(evaluate, detectors, events))
    ensures OriginsKnown(events, HeldTracked(v.state(Reached(evaluate, detectors, events).detectors[k]).tracked))
    decreases |events|
  {
    if events == [] {
      StartInStep(evaluate, cfg, v, detectors, k);
    } else {
      var n := |events| - 1;
      var init, e := events[..n], events[n];
      DisciplinedRunStaysInStep(evaluate, cfg, v, detectors, k, init);
      DisciplinedStep(evaluate, cfg, v, Reached(evaluate, detectors, init), k, init, e);
      assert init + [e] == events;
      hide Hosts, InStep, Process, OriginsKnown, HeldTracked;
    }
  }
}
