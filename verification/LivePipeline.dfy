/** The pipeline as the program runs it: order book objects in a map, updated one event at a time. */
module LivePipelines {
  import opened Options
  import opened FixTypes
  import opened BookModel
  import opened DepthSnapshots
  import opened OrderBooks
  import opened Alerts
  import opened PipelineModel

  /** A detector's transition function, as a function of everything the book's public queries reveal. */
  type Detector<!D> = (D, DepthSnapshot, Event) -> (D, seq<Alert>)

  ghost function OnBooks<D>(evaluate: Detector<D>): Evaluator<D> {
    (d: D, b: Book, e: Event) => evaluate(d, SnapshotOf(b), e)
  }

  class LivePipeline<!D> {
    const evaluate: Detector<D>
    var detectors: seq<D>
    var books: map<string, OrderBook>
    var inconsistentEventsSkipped: nat

    /** Each instrument has a book of its own. */
    ghost predicate Keyed()
      reads this`books
    {
      && (forall i :: i in books ==> books[i].instrumentId == i)
      && (forall i, j :: i in books && j in books && i != j ==> books[i] != books[j])
    }

    ghost predicate Valid()
      reads this`books, books.Values
    {
      Keyed() && forall i :: i in books ==> books[i].Valid()
    }

    ghost function Models(): map<string, Book>
      reads this`books, books.Values
    {
      map i | i in books :: books[i].model
    }

    ghost function Now(): Pipeline<D>
      reads this, books.Values
    {
      Pipeline(Models(), detectors, inconsistentEventsSkipped)
    }

    constructor (detectors: seq<D>, evaluate: Detector<D>)
      ensures Valid() && Now() == Start(detectors) && this.evaluate == evaluate
      ensures books == map[]
    {
      this.detectors, this.evaluate := detectors, evaluate;
      books, inconsistentEventsSkipped := map[], 0;
    }

    /** The book of an instrument, or nothing if no event for it has arrived. */
    method BookFor(instrumentId: string) returns (book: Option<OrderBook>)
      requires Valid()
      ensures book.Some? <==> instrumentId in Models()
      ensures book.Some? ==> book.value.Valid() && book.value.model == Models()[instrumentId]
    {
      book := if instrumentId in books then Some(books[instrumentId]) else None;
    }

    /** Creates the book of an instrument on its first event. */
    method Emplace(instrumentId: string) returns (book: OrderBook)
      requires Valid()
      modifies this`books
      ensures Valid() && instrumentId in books && book == books[instrumentId]
      ensures books.Values <= old(books.Values) + {book} && (book in old(books.Values) || fresh(book))
      ensures Models() == old(Models())[instrumentId := BookAt(old(Models()), instrumentId)]
    {
      hide OrderBook.Valid, Empty;
      if instrumentId in books {
        book := books[instrumentId];
      } else {
        book := new OrderBook(instrumentId);
        books := books[instrumentId := book];
      }
    }

    /** The loop over the detectors. */
    method Fan(snap: DepthSnapshot, e: Event, ghost b: Book) returns (after: seq<D>, alerts: seq<Alert>)
      requires snap == SnapshotOf(b)
      ensures after == Advance(OnBooks(evaluate), detectors, b, e)
      ensures alerts == Gather(OnBooks(evaluate), detectors, b, e)
    {
      after, alerts := [], [];
      for k := 0 to |detectors|
        invariant after == Advance(OnBooks(evaluate), detectors[..k], b, e)
        invariant alerts == Gather(OnBooks(evaluate), detectors[..k], b, e)
      {
        var r := evaluate(detectors[k], snap, e);
        assert detectors[..k + 1][..k] == detectors[..k];
        after := after + [r.0];
        alerts := alerts + r.1;
      }
      assert detectors[..|detectors|] == detectors;
    }

    /** Applies the event to the one book concerned; the others keep their contents. */
    method ApplyTo(book: OrderBook, e: Event) returns (ok: bool)
      requires Valid() && e.InstrumentId() in books && book == books[e.InstrumentId()]
      modifies book
      ensures Valid() && ok == Apply(old(book.model), e).ok
      ensures Models() == old(Models())[e.InstrumentId() := Apply(old(book.model), e).book]
      ensures book.Valid() && book.model == Apply(old(book.model), e).book
    {
      hide OrderBook.Valid, OrderBook.PointersSound, OrderBook.Bijection, Apply, StealsId;
      ok := book.ApplyEvent(e);
    }

    /** Counts a rejected event, or shows an accepted one to the detectors. */
    method Conclude(book: OrderBook, ok: bool, e: Event) returns (result: ProcessResult)
      requires Valid() && book.Valid()
      modifies this`detectors, this`inconsistentEventsSkipped
      ensures Valid() && Models() == old(Models())
      ensures detectors == if ok then Advance(OnBooks(evaluate), old(detectors), book.model, e) else old(detectors)
      ensures inconsistentEventsSkipped == old(inconsistentEventsSkipped) + (if ok then 0 else 1)
      ensures result == if ok then ProcessResult(Gather(OnBooks(evaluate), old(detectors), book.model, e), false)
                        else ProcessResult([], true)
    {
      hide OrderBook.Valid, SnapshotOf, Advance, Gather;
      if !ok {
        inconsistentEventsSkipped := inconsistentEventsSkipped + 1;
        return ProcessResult([], true);
      }
      var snap := book.Snapshot();
      var advanced, alerts := Fan(snap, e, book.model);
      detectors := advanced;
      result := ProcessResult(alerts, false);
    }

    method Process(e: Event) returns (result: ProcessResult)
      requires Valid()
      modifies this, books.Values
      ensures Valid() && fresh(books.Values - old(books.Values))
      ensures (Now(), result) == PipelineModel.Process(OnBooks(evaluate), old(Now()), e)
      ensures result.skippedInconsistent ==> result.alerts == []
    {
      hide OrderBook.Valid, BookAt, Apply, Advance, Gather, Valid, Keyed, OnBooks, Empty;
      ghost var before := Models();
      var book := Emplace(e.InstrumentId());
      assert book.model == Models()[e.InstrumentId()];
      var ok := ApplyTo(book, e);
      result := Conclude(book, ok, e);
      assert Models() == before[e.InstrumentId() := book.model];
    }
  }
}
