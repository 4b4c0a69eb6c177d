/**
 The spoofing detector inside the pipeline: when its private copy of the resting orders agrees with
 the books, and with its own counters, after an event.
 */
module Coupling {
  import opened FixTypes
  import opened BookModel
  import opened Alerts
  import opened PipelineModel
  import opened SpoofingScore
  import opened SpoofingModel
  import opened SpoofingCounts
  import opened Holdings
  import opened CouplingState

  /** Which detectors of a pipeline are spoofing detectors, and the state of one that is. */
  datatype View<!D> = View(isSpoofing: D -> bool, state: D -> State)

  /** Whatever else the pipeline's detectors do, the spoofing ones among them evaluate as such. */
  ghost predicate Hosts<D(!new)>(evaluate: Evaluator<D>, cfg: Config, v: View<D>) {
    forall d, b, e :: v.isSpoofing(d) ==> Evaluates(evaluate, cfg, v, d, b, e)
  }

  ghost predicate Evaluates<D>(evaluate: Evaluator<D>, cfg: Config, v: View<D>, d: D, b: Book, e: Event) {
    v.isSpoofing(evaluate(d, b, e).0) && v.state(evaluate(d, b, e).0) == Evaluate(cfg, v.state(d), b, e).0
  }

  ghost predicate BooksSound(books: map<string, Book>) {
    forall i :: i in books ==> Intact(books[i]) && books[i].instrument == i
  }

  /**
   The detector tracks exactly the orders resting across all books, each with the account,
   instrument, side and remaining quantity the book has for it, and its counters are exact.
   */
  ghost predicate Coupled(books: map<string, Book>, s: State) {
    BooksSound(books) && Agree(HeldBooks(books), HeldTracked(s.tracked)) && CountsExact(s.tracked, s.counts)
  }

  /** `id` rests in no book but that of `instrumentId`. */
  ghost predicate RestsNowhereElse(books: map<string, Book>, instrumentId: string, id: string) {
    forall j :: j in books && j != instrumentId ==> !IsResting(books[j], id)
  }

  ghost predicate CoherentReplace(books: map<string, Book>, b: Book, o: Order) {
    IsResting(b, o.origOrderId) ==>
      var prior := b.live[Position(b.live, o.origOrderId)];
      && (o.orderId == o.origOrderId || (!IsResting(b, o.orderId) && RestsNowhereElse(books, o.instrumentId, o.orderId)))
      && (LosesPriority(prior, o) || (o.accountId == prior.account && o.side == prior.side))
  }

  /**
   What a caller has to check before an event: a New id that its own book accepts rests in no other
   book, a Cancel does not name an order of another book, and a Replace of a resting order brings an
   id that rests nowhere and, when it keeps its place, the same account and side.
   */
  ghost predicate Coherent(books: map<string, Book>, e: Event) {
    var b := BookAt(books, e.InstrumentId());
    match e
    case ExecutionEvent(_) => true
    case OrderEvent(o) =>
      match o.status
      case New => IsResting(b, o.orderId) || RestsNowhereElse(books, o.instrumentId, o.orderId)
      case Cancelled => RestsNowhereElse(books, o.instrumentId, o.origOrderId)
      case Replaced => CoherentReplace(books, b, o)
  }

  // ------------------------------------------------- one event, on holdings

  /** The books' holdings and the tracker's, before an event of the book `b`. */
  ghost predicate Ready(held: map<string, Held>, b: Book, tracker: Held) {
    && Intact(b) && b.instrument in held && held[b.instrument] == HeldBy(b)
    && Labelled(held) && Agree(held, tracker)
  }

  /** The holdings once the book `b` has become `after`. */
  function Changed(held: map<string, Held>, b: Book, after: Book): map<string, Held> {
    held[b.instrument := HeldBy(after)]
  }

  lemma NewCase(held: map<string, Held>, b: Book, tracker: Held, o: Order)
    requires Ready(held, b, tracker) && o.instrumentId == b.instrument && !IsResting(b, o.orderId)
    ensures Agree(Changed(held, b, InsertNew(b, o).book),
                  tracker[o.orderId := Holding(o.accountId, o.instrumentId, o.side, o.qty)])
            <==> NotElsewhere(held, b.instrument, o.orderId)
  {
    hide Agree, Labelled, NotElsewhere, HeldBy, InsertNew, IsResting, Intact;
    HeldInsert(b, o);
    PutAgrees(held, tracker, b.instrument, o.orderId, Holding(o.accountId, o.instrumentId, o.side, o.qty));
  }

  lemma CancelCase(held: map<string, Held>, b: Book, tracker: Held, id: string)
    requires Ready(held, b, tracker)
    ensures Agree(Changed(held, b, Remove(b, id)), tracker - {id}) <==> NotElsewhere(held, b.instrument, id)
  {
    hide Agree, Labelled, NotElsewhere, HeldBy, Remove, IsResting, Intact;
    HeldRemove(b, id);
    DropAgrees(held, tracker, b.instrument, id);
  }

  /** What the tracker makes of an execution of a tracked order. */
  function Filled(tracker: Held, x: Execution): Held
    requires x.orderId in tracker
  {
    var h := tracker[x.orderId];
    if h.qty - x.qty <= 0 then tracker - {x.orderId} else tracker[x.orderId := h.(qty := h.qty - x.qty)]
  }

  /** What an accepted execution does to the list. */
  lemma AcceptedExecution(b: Book, x: Execution)
    requires Execute(b, x).ok
    ensures var k := Position(b.live, x.orderId);
            && k < |b.live| && x.qty <= b.live[k].qty
            && Execute(b, x).book ==
               if b.live[k].qty == x.qty then Remove(b, x.orderId)
               else b.(live := b.live[k := b.live[k].(qty := b.live[k].qty - x.qty)])
  {
  }

  lemma ExecutionHoldings(b: Book, x: Execution)
    requires Intact(b) && Execute(b, x).ok
    ensures x.orderId in HeldBy(b) && Intact(Execute(b, x).book)
    ensures HeldBy(Execute(b, x).book) == Filled(HeldBy(b), x)
  {
    hide HeldBy, Intact, Position, Remove, Execute, IsResting;
    AcceptedExecution(b, x);
    ExecuteIntact(b, x);
    var k := Position(b.live, x.orderId);
    HeldAt(b, k);
    if b.live[k].qty == x.qty {
      HeldRemove(b, x.orderId);
    } else {
      var r := b.live[k].(qty := b.live[k].qty - x.qty);
      HeldAmend(b, k, r);
      PutBack(HeldBy(b), x.orderId, HoldingOf(b.instrument, r));
    }
  }

  lemma FillAgrees(held: map<string, Held>, tracker: Held, i: string, x: Execution)
    requires Labelled(held) && Agree(held, tracker) && i in held && x.orderId in held[i]
    ensures x.orderId in tracker && Agree(held[i := Filled(held[i], x)], Filled(tracker, x))
  {
    Covered(held, tracker, i, x.orderId);
    HeldOnce(held, tracker, i, x.orderId);
    var h := tracker[x.orderId];
    assert h.instrument == i;
    hide Agree, NotElsewhere, Labelled;
    if h.qty - x.qty <= 0 {
      DropAgrees(held, tracker, i, x.orderId);
    } else {
      PutAgrees(held, tracker, i, x.orderId, h.(qty := h.qty - x.qty));
    }
  }

  /** An execution the book accepts never breaks the agreement. */
  lemma ExecutionCase(held: map<string, Held>, b: Book, tracker: Held, x: Execution)
    requires Ready(held, b, tracker) && Execute(b, x).ok
    ensures x.orderId in tracker && Intact(Execute(b, x).book)
    ensures Agree(Changed(held, b, Execute(b, x).book), Filled(tracker, x))
  {
    hide HeldBy, Execute, Agree, Intact, Labelled;
    ExecutionHoldings(b, x);
    FillAgrees(held, tracker, b.instrument, x);
  }

  // ------------------------------------------------------------------ Replace

  /** The tracker after a Replace, which takes account and side from the message. */
  function Rebased(tracker: Held, o: Order): Held {
    (tracker - {o.origOrderId})[o.orderId := Holding(o.accountId, o.instrumentId, o.side, o.qty)]
  }

  ghost predicate ReplaceReady(held: map<string, Held>, b: Book, tracker: Held, o: Order) {
    Ready(held, b, tracker) && o.instrumentId == b.instrument && IsResting(b, o.origOrderId)
  }

  /** Retiring the replaced order keeps the agreement. */
  lemma RetireOriginal(held: map<string, Held>, b: Book, tracker: Held, o: Order)
    requires ReplaceReady(held, b, tracker, o)
    ensures var c := Remove(b, o.origOrderId);
            && Ready(Changed(held, b, c), c, tracker - {o.origOrderId})
            && (NotElsewhere(Changed(held, b, c), b.instrument, o.orderId) <==> NotElsewhere(held, b.instrument, o.orderId))
  {
    var i, c := b.instrument, Remove(b, o.origOrderId);
    HeldIsResting(b, o.origOrderId);
    HeldOnce(held, tracker, i, o.origOrderId);
    CancelCase(held, b, tracker, o.origOrderId);
    HeldRemove(b, o.origOrderId);
    RemoveIntact(b, o.origOrderId);
    ElsewhereIgnoresOwn(held, i, HeldBy(c), o.orderId);
    hide HeldBy, Intact, Agree, NotElsewhere, IsResting;
    RelabelOwn(held, i, HeldBy(c));
  }

  /** A Replace that goes to the back of a queue: accepted and agreed on iff its id is free. */
  lemma RequeueCase(held: map<string, Held>, b: Book, tracker: Held, o: Order)
    requires ReplaceReady(held, b, tracker, o) && LosesPriority(b.live[Position(b.live, o.origOrderId)], o)
    ensures var r := Replace(b, o);
            Agree(Changed(held, b, r.book), if r.ok then Rebased(tracker, o) else tracker)
            <==> (o.orderId == o.origOrderId || !IsResting(b, o.orderId)) && NotElsewhere(held, b.instrument, o.orderId)
  {
    hide HeldBy, Intact, Agree, NotElsewhere, Labelled;
    var c := Remove(b, o.origOrderId);
    RemoveIntact(b, o.origOrderId);
    RetireOriginal(held, b, tracker, o);
    HeldIsResting(b, o.origOrderId);
    if IsResting(c, o.orderId) {
      HeldRemove(b, o.origOrderId);
      LossDisagrees(held, tracker, b.instrument, o.origOrderId);
    } else {
      NewCase(Changed(held, b, c), c, tracker - {o.origOrderId}, o);
      assert Changed(Changed(held, b, c), c, InsertNew(c, o).book) == Changed(held, b, InsertNew(c, o).book);
    }
  }

  /** A Replace that keeps its place: agreed on iff its id is free and it names the same account and side. */
  lemma InPlaceCase(held: map<string, Held>, b: Book, tracker: Held, o: Order)
    requires ReplaceReady(held, b, tracker, o) && !LosesPriority(b.live[Position(b.live, o.origOrderId)], o)
    requires o.orderId == o.origOrderId || !IsResting(b, o.orderId)
    ensures var prior := b.live[Position(b.live, o.origOrderId)];
            Agree(Changed(held, b, Replace(b, o).book), Rebased(tracker, o))
            <==> NotElsewhere(held, b.instrument, o.orderId) && o.accountId == prior.account && o.side == prior.side
  {
    var i, k, c := b.instrument, Position(b.live, o.origOrderId), Remove(b, o.origOrderId);
    var prior := b.live[k];
    var r := prior.(id := o.orderId, qty := o.qty);
    HeldAmend(b, k, r);
    HeldRemove(b, o.origOrderId);
    RetireOriginal(held, b, tracker, o);
    assert Replace(b, o).book == b.(live := b.live[k := r]);
    hide HeldBy, Intact, Agree, NotElsewhere, IsResting, Replace, Remove, Labelled, LosesPriority;
    var v := Holding(o.accountId, o.instrumentId, o.side, o.qty);
    OverwriteBook(held, i, HeldBy(c), HeldBy(c)[o.orderId := HoldingOf(i, r)]);
    PutBothAgrees(Changed(held, b, c), tracker - {o.origOrderId}, i, o.orderId, HoldingOf(i, r), v);
  }

  // -------------------------------------------------------- one event, whole

  /** What the detector makes of an accepted event, on holdings. */
  function TrackerAfter(tracker: Held, e: Event): Held {
    match e
    case ExecutionEvent(x) => if x.orderId in tracker then Filled(tracker, x) else tracker
    case OrderEvent(o) =>
      match o.status
      case New => tracker[o.orderId := Holding(o.accountId, o.instrumentId, o.side, o.qty)]
      case Cancelled => tracker - {o.origOrderId}
      case Replaced => Rebased(tracker, o)
  }

  lemma EvaluateHoldings(cfg: Config, s: State, b: Book, e: Event)
    ensures HeldTracked(Evaluate(cfg, s, b, e).0.tracked) == TrackerAfter(HeldTracked(s.tracked), e)
  {
    hide TrackNew, EraseTracked, HandleExecution, UpdateAmbient, CancelAlerts, QuotesOf;
    var q := QuotesOf(b.live, e);
    var u := UpdateAmbient(cfg, s, q, e.InstrumentId(), e.TimestampNs());
    UpdateAmbientAt(cfg, s, q, e.InstrumentId(), e.TimestampNs(), AmbientKey(e.InstrumentId(), Buy));
    match e {
      case ExecutionEvent(x) =>
        if x.orderId in u.tracked {
          TrackedFill(u, x);
        } else {
          TrackedMiss(u, x);
        }
      case OrderEvent(o) =>
        TrackedPut(u, q, o);
        TrackedDrop(u, o.origOrderId);
        TrackedPut(EraseTracked(u, o.origOrderId), q, o);
    }
  }

  /** `Coherent`, on holdings. */
  ghost predicate CoherentIn(held: map<string, Held>, b: Book, e: Event) {
    match e
    case ExecutionEvent(_) => true
    case OrderEvent(o) =>
      match o.status
      case New => IsResting(b, o.orderId) || NotElsewhere(held, b.instrument, o.orderId)
      case Cancelled => NotElsewhere(held, b.instrument, o.origOrderId)
      case Replaced =>
        IsResting(b, o.origOrderId) ==>
          var prior := b.live[Position(b.live, o.origOrderId)];
          && (o.orderId == o.origOrderId || (!IsResting(b, o.orderId) && NotElsewhere(held, b.instrument, o.orderId)))
          && (LosesPriority(prior, o) || (o.accountId == prior.account && o.side == prior.side))
  }

  /** The book is sound afterwards and holds what the tracker holds. */
  ghost predicate StaysInStep(held: map<string, Held>, b: Book, r: Outcome, tracker: Held, e: Event) {
    && Intact(r.book)
    && Agree(Changed(held, b, r.book), if r.ok then TrackerAfter(tracker, e) else tracker)
  }

  lemma UnchangedBook(held: map<string, Held>, b: Book, tracker: Held)
    requires Ready(held, b, tracker)
    ensures Changed(held, b, b) == held
  {
  }

  lemma ReplaceInStep(held: map<string, Held>, b: Book, tracker: Held, o: Order)
    requires Ready(held, b, tracker) && o.instrumentId == b.instrument && o.status.Replaced?
    ensures StaysInStep(held, b, Replace(b, o), tracker, OrderEvent(o)) <==> CoherentIn(held, b, OrderEvent(o))
  {
    ReplaceWellFormed(b, o);
    ReplaceKeepsIntactIff(b, o);
    UnchangedBook(held, b, tracker);
    if IsResting(b, o.origOrderId) {
      HeldIsResting(b, o.origOrderId);
      HeldOnce(held, tracker, b.instrument, o.origOrderId);
      if LosesPriority(b.live[Position(b.live, o.origOrderId)], o) {
        RequeueCase(held, b, tracker, o);
      } else if o.orderId == o.origOrderId || !IsResting(b, o.orderId) {
        InPlaceCase(held, b, tracker, o);
      }
    }
  }

  lemma OrderInStep(held: map<string, Held>, b: Book, tracker: Held, o: Order)
    requires Ready(held, b, tracker) && o.instrumentId == b.instrument && !o.status.Replaced?
    ensures var r := if o.status.New? then InsertNew(b, o) else Outcome(Remove(b, o.origOrderId), true);
            StaysInStep(held, b, r, tracker, OrderEvent(o)) <==> CoherentIn(held, b, OrderEvent(o))
  {
    UnchangedBook(held, b, tracker);
    if o.status.New? {
      InsertIntact(b, o);
      if !IsResting(b, o.orderId) {
        NewCase(held, b, tracker, o);
      }
    } else {
      RemoveIntact(b, o.origOrderId);
      CancelCase(held, b, tracker, o.origOrderId);
    }
  }

  lemma ExecutionInStep(held: map<string, Held>, b: Book, tracker: Held, x: Execution)
    requires Ready(held, b, tracker) && x.instrumentId == b.instrument
    ensures StaysInStep(held, b, Execute(b, x), tracker, ExecutionEvent(x))
  {
    UnchangedBook(held, b, tracker);
    if Execute(b, x).ok {
      ExecutionCase(held, b, tracker, x);
    }
  }

  /** What an event does to its own book, once the counters have been advanced. */
  function Act(c: Book, e: Event): Outcome {
    match e
    case ExecutionEvent(x) => Execute(c, x)
    case OrderEvent(o) =>
      if o.status.Replaced? then Replace(c, o)
      else if o.status.New? then InsertNew(c, o) else Outcome(Remove(c, o.origOrderId), true)
  }

  lemma ActInStep(held: map<string, Held>, c: Book, tracker: Held, e: Event)
    requires Ready(held, c, tracker) && e.InstrumentId() == c.instrument
    ensures StaysInStep(held, c, Act(c, e), tracker, e) <==> CoherentIn(held, c, e)
  {
    hide Ready, StaysInStep, CoherentIn, InsertNew, Remove, Replace, Execute;
    match e {
      case ExecutionEvent(x) =>
        ExecutionInStep(held, c, tracker, x);
        AlwaysCoherent(held, c, e);
      case OrderEvent(o) =>
        if o.status.Replaced? {
          ReplaceInStep(held, c, tracker, o);
        } else {
          OrderInStep(held, c, tracker, o);
        }
    }
  }

  lemma EventInStep(held: map<string, Held>, b: Book, tracker: Held, e: Event)
    requires Ready(held, b, tracker) && e.InstrumentId() == b.instrument
    ensures StaysInStep(held, b, Apply(b, e), tracker, e) <==> CoherentIn(held, b, e)
  {
    hide Ready, StaysInStep, CoherentIn, InsertNew, Remove, Replace, Execute;
    var c := b.(sequence := b.sequence + 1, lastTs := e.TimestampNs());
    CountersDoNotMatter(held, b, c, Act(c, e), tracker, e);
    ActInStep(held, c, tracker, e);
    assert Apply(b, e) == Act(c, e);
  }

  lemma AlwaysCoherent(held: map<string, Held>, b: Book, e: Event)
    requires e.ExecutionEvent?
    ensures CoherentIn(held, b, e)
  {
  }

  lemma CountersDoNotMatter(held: map<string, Held>, b: Book, c: Book, r: Outcome, tracker: Held, e: Event)
    requires c == b.(sequence := c.sequence, lastTs := c.lastTs)
    ensures Ready(held, c, tracker) <==> Ready(held, b, tracker)
    ensures CoherentIn(held, c, e) <==> CoherentIn(held, b, e)
    ensures StaysInStep(held, c, r, tracker, e) <==> StaysInStep(held, b, r, tracker, e)
  {
    assert HeldBy(c) == HeldBy(b);
  }

  /** A coherent event that is accepted never tracks an id that is still tracked. */
  lemma CoherentDoesNotOverwrite(held: map<string, Held>, b: Book, s: State, e: Event)
    requires Ready(held, b, HeldTracked(s.tracked)) && e.InstrumentId() == b.instrument
    requires CoherentIn(held, b, e) && Apply(b, e).ok
    ensures !Overwrites(s, e)
  {
    if e.OrderEvent? && e.order.orderId in s.tracked {
      var id := e.order.orderId;
      var j := HeldTracked(s.tracked)[id].instrument;
      assert j in held && id in held[j];
      HeldIsResting(b, id);
    }
  }

  // ------------------------------------------------------------- the pipeline

  lemma BooksReady(books: map<string, Book>, s: State, i: string)
    requires Coupled(books, s)
    ensures var b := BookAt(books, i);
            b.instrument == i && Ready(HeldBooks(books[i := b]), b, HeldTracked(s.tracked))
  {
    var b := BookAt(books, i);
    var held := HeldBooks(books[i := b]);
    if i in books {
      assert books[i := b] == books;
    } else {
      assert HeldBy(b) == map[];
      assert held == HeldBooks(books)[i := map[]];
      EmptyBookAgrees(HeldBooks(books), HeldTracked(s.tracked), i);
    }
  }

  lemma ElsewhereOnHoldings(books: map<string, Book>, i: string, b: Book, id: string)
    ensures NotElsewhere(HeldBooks(books[i := b]), i, id) <==> RestsNowhereElse(books, i, id)
  {
    var held: map<string, Held> := HeldBooks(books[i := b]);
    forall j | j in books && j != i
      ensures j in held && (id in held[j] <==> IsResting(books[j], id))
    {
      HeldIsResting(books[j], id);
    }
    assert forall j :: j in held && j != i ==> j in books;
  }

  lemma CoherentOnHoldings(books: map<string, Book>, i: string, e: Event)
    requires e.InstrumentId() == i && BookAt(books, i).instrument == i
    ensures CoherentIn(HeldBooks(books[i := BookAt(books, i)]), BookAt(books, i), e) <==> Coherent(books, e)
  {
    if e.OrderEvent? {
      ElsewhereOnHoldings(books, i, BookAt(books, i), e.order.orderId);
      ElsewhereOnHoldings(books, i, BookAt(books, i), e.order.origOrderId);
    }
  }

  /** What one event does to the books and to the `k`-th detector, whatever the others do. */
  lemma PipelineStep<D(!new)>(evaluate: Evaluator<D>, cfg: Config, v: View<D>, p: Pipeline<D>, k: nat, e: Event)
    requires Hosts(evaluate, cfg, v) && k < |p.detectors| && v.isSpoofing(p.detectors[k])
    ensures var r := Apply(BookAt(p.books, e.InstrumentId()), e);
            var q := Process(evaluate, p, e).0;
            && q.books == p.books[e.InstrumentId() := r.book]
            && |q.detectors| == |p.detectors| && v.isSpoofing(q.detectors[k])
            && v.state(q.detectors[k]) == DetectorAfter(cfg, v.state(p.detectors[k]), r, e)
  {
    hide Apply, Evaluate, Advance, Gather;
    var b := Apply(BookAt(p.books, e.InstrumentId()), e).book;
    AdvanceEach(evaluate, p.detectors, b, e);
    assert Evaluates(evaluate, cfg, v, p.detectors[k], b, e);
  }

  lemma ChangedBooks(books: map<string, Book>, i: string, after: Book)
    requires after.instrument == i && BookAt(books, i).instrument == i
    ensures HeldBooks(books[i := after]) == Changed(HeldBooks(books[i := BookAt(books, i)]), BookAt(books, i), after)
  {
  }

  /** The state of the detector once the book has answered an event with `r`. */
  function DetectorAfter(cfg: Config, s: State, r: Outcome, e: Event): State {
    if r.ok then Evaluate(cfg, s, r.book, e).0 else s
  }

  lemma StepVerdict(cfg: Config, held: map<string, Held>, b: Book, s: State, e: Event)
    requires Ready(held, b, HeldTracked(s.tracked)) && e.InstrumentId() == b.instrument
    requires CountsExact(s.tracked, s.counts)
    ensures var r := Apply(b, e);
            var t := DetectorAfter(cfg, s, r, e);
            && r.book.instrument == b.instrument
            && ((Intact(r.book) && Agree(Changed(held, b, r.book), HeldTracked(t.tracked))
                 && CountsExact(t.tracked, t.counts)) <==> CoherentIn(held, b, e))
  {
    ApplyKeepsInstrument(b, e);
    hide Apply, Ready, CoherentIn, Agree, CountsExact, HeldTracked, Intact, TrackerAfter, Evaluate, Changed;
    var r := Apply(b, e);
    EventInStep(held, b, HeldTracked(s.tracked), e);
    EvaluateHoldings(cfg, s, r.book, e);
    CountsStayExactIff(cfg, s, r.book, e);
    if r.ok && CoherentIn(held, b, e) {
      CoherentDoesNotOverwrite(held, b, s, e);
    }
  }

  lemma ApplyKeepsInstrument(b: Book, e: Event)
    ensures Apply(b, e).book.instrument == b.instrument
  {
  }

  lemma CoupledOnHoldings(books: map<string, Book>, s: State, i: string, after: Book, t: State)
    requires Coupled(books, s) && after.instrument == i
    ensures Coupled(books[i := after], t) <==>
            Intact(after) && CountsExact(t.tracked, t.counts)
            && Agree(Changed(HeldBooks(books[i := BookAt(books, i)]), BookAt(books, i), after), HeldTracked(t.tracked))
  {
    ChangedBooks(books, i, after);
    hide HeldBooks, HeldTracked, Agree, CountsExact, Intact, Changed;
    assert books[i := after][i] == after;
    assert forall j :: j in books && j != i ==> books[i := after][j] == books[j];
  }

  /** The `k`-th detector of the pipeline is a spoofing detector, and in step with its books. */
  ghost predicate InStep<D>(v: View<D>, k: nat, p: Pipeline<D>) {
    k < |p.detectors| && v.isSpoofing(p.detectors[k]) && Coupled(p.books, v.state(p.detectors[k]))
  }

  /**
   In a pipeline of any number of detectors, a spoofing detector stays in step with the books and with
   its own counters if and only if the event is coherent.
   */
  lemma CoupledIffCoherent<D(!new)>(evaluate: Evaluator<D>, cfg: Config, v: View<D>, p: Pipeline<D>, k: nat, e: Event)
    requires Hosts(evaluate, cfg, v) && InStep(v, k, p)
    ensures InStep(v, k, Process(evaluate, p, e).0) <==> Coherent(p.books, e)
  {
    var i, s := e.InstrumentId(), v.state(p.detectors[k]);
    var b := BookAt(p.books, i);
    var r := Apply(b, e);
    BooksReady(p.books, s, i);
    CoherentOnHoldings(p.books, i, e);
    StepVerdict(cfg, HeldBooks(p.books[i := b]), b, s, e);
    PipelineStep(evaluate, cfg, v, p, k, e);
    CoupledOnHoldings(p.books, s, i, r.book, DetectorAfter(cfg, s, r, e));
    hide Process, Apply, Evaluate, HeldBooks, HeldTracked, Agree, CountsExact, CoherentIn, Coherent, Ready, Intact, Coupled;
  }

  // --------------------------------------------- a pipeline with other detectors

  /** One of several detectors: the spoofing detector, or any other kind. */
  datatype Mixed<O> = SpoofingOne(spoofing: State) | OtherOne(other: O)

  /** The call through the common interface. */
  function Dispatch<O>(cfg: Config, others: Evaluator<O>): Evaluator<Mixed<O>> {
    (d: Mixed<O>, b: Book, e: Event) =>
      match d
      case SpoofingOne(s) => var r := Evaluate(cfg, s, b, e); (SpoofingOne(r.0), r.1)
      case OtherOne(o) => var r := others(o, b, e); (OtherOne(r.0), r.1)
  }

  function OneOfMany<O>(): View<Mixed<O>> {
    View((d: Mixed<O>) => d.SpoofingOne?, (d: Mixed<O>) => if d.SpoofingOne? then d.spoofing else INITIAL)
  }

  /** Such a pipeline hosts the spoofing detector, whatever the others do. */
  lemma MixedHosts<O(!new)>(cfg: Config, others: Evaluator<O>)
    ensures Hosts(Dispatch(cfg, others), cfg, OneOfMany<O>())
  {
    hide Evaluate;
    forall d, b, e | OneOfMany<O>().isSpoofing(d)
      ensures Evaluates(Dispatch(cfg, others), cfg, OneOfMany<O>(), d, b, e)
    {
    }
  }
}
