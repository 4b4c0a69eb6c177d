/** The registry behind the HTTP interface: the same consumer, plus a bounded feed of recent events. */
module LiveBookRegistries {
  import opened Options
  import opened FixTypes
  import opened BookModel
  import opened DepthSnapshots
  import opened Alerts
  import opened PipelineModel
  import opened LivePipelines
  import opened RingDrain
  import opened ConsumerModel

  const MAX_EVENTS_PER_INSTRUMENT := 200

  datatype BookEvent = BookEvent(
    timestampNs: int, instrumentId: string, msgType: string, side: string, price: real, qty: int,
    orderId: string, accountId: string)

  function ToBookEvent(e: Event): BookEvent {
    match e
    case OrderEvent(o) =>
      var msgType := match o.status case Cancelled => "CANCEL" case Replaced => "REPLACE" case New => "NEW";
      BookEvent(o.timestampNs, o.instrumentId, msgType, if o.side.Buy? then "BUY" else "SELL", o.price, o.qty, o.orderId,
                o.accountId)
    case ExecutionEvent(x) =>
      BookEvent(x.timestampNs, x.instrumentId, "EXECUTION", if x.side.Buy? then "BUY" else "SELL", x.price, x.qty, x.orderId,
                x.accountId)
  }

  /** A row of the feed shows the event as it was sent, under the name of its kind. */
  lemma RowShowsEvent(e: Event)
    ensures var row := ToBookEvent(e);
            && row.timestampNs == e.TimestampNs() && row.instrumentId == e.InstrumentId()
            && (row.msgType == "EXECUTION" <==> e.ExecutionEvent?)
            && (row.msgType == "NEW" <==> e.OrderEvent? && e.order.status == New)
            && (row.msgType == "CANCEL" <==> e.OrderEvent? && e.order.status == Cancelled)
            && (row.msgType == "REPLACE" <==> e.OrderEvent? && e.order.status == Replaced)
    ensures match e
            case OrderEvent(o) => ShowsAs(ToBookEvent(e), o.side, o.price, o.qty, o.orderId, o.accountId)
            case ExecutionEvent(x) => ShowsAs(ToBookEvent(e), x.side, x.price, x.qty, x.orderId, x.accountId)
  {
    assert |"EXECUTION"| == 9 && |"NEW"| == 3 && |"CANCEL"| == 6 && |"REPLACE"| == 7;
  }

  predicate ShowsAs(row: BookEvent, side: Side, price: real, qty: int, orderId: string, accountId: string) {
    && (row.side == "BUY" <==> side == Buy) && (row.side == "SELL" <==> side == Sell)
    && row.price == price && row.qty == qty && row.orderId == orderId && row.accountId == accountId
  }

  type Feeds = map<string, seq<BookEvent>>

  function FeedOf(feeds: Feeds, instrumentId: string): seq<BookEvent> {
    if instrumentId in feeds then feeds[instrumentId] else []
  }

  function Last<T>(s: seq<T>, n: nat): seq<T> {
    if n < |s| then s[|s| - n..] else s
  }

  function Record(feeds: Feeds, e: Event): Feeds {
    feeds[e.InstrumentId() := Last(FeedOf(feeds, e.InstrumentId()) + [ToBookEvent(e)], MAX_EVENTS_PER_INSTRUMENT)]
  }

  function RecordAll(events: seq<Event>): Feeds {
    if events == [] then map[] else Record(RecordAll(events[..|events| - 1]), events[|events| - 1])
  }

  /** Every event of the instrument that ever arrived, accepted or not. */
  function History(events: seq<Event>, instrumentId: string): seq<BookEvent> {
    var own := EventsOf(events, instrumentId);
    seq(|own|, k requires 0 <= k < |own| => ToBookEvent(own[k]))
  }

  lemma LastOfLast<T>(s: seq<T>, x: T, n: nat)
    requires n > 0
    ensures Last(Last(s, n) + [x], n) == Last(s + [x], n)
  {
  }

  lemma LastWithin<T>(s: seq<T>, n: nat, m: nat)
    ensures Last(Last(s, m), n) == Last(s, if n < m then n else m)
  {
  }

  lemma {:induction false} FeedIsTailOfHistory(events: seq<Event>, instrumentId: string)
    ensures FeedOf(RecordAll(events), instrumentId) == Last(History(events, instrumentId), MAX_EVENTS_PER_INSTRUMENT)
  {
    if events != [] {
      var init, e := events[..|events| - 1], events[|events| - 1];
      FeedIsTailOfHistory(init, instrumentId);
      if e.InstrumentId() == instrumentId {
        assert History(events, instrumentId) == History(init, instrumentId) + [ToBookEvent(e)];
        LastOfLast(History(init, instrumentId), ToBookEvent(e), MAX_EVENTS_PER_INSTRUMENT);
      } else {
        assert EventsOf(events, instrumentId) == EventsOf(init, instrumentId);
      }
    }
  }

  /** A query returns the last `limit` events of the instrument's full history, but never more than the cap. */
  lemma RecentEventsAreTheLast(events: seq<Event>, instrumentId: string, limit: nat)
    ensures Last(FeedOf(RecordAll(events), instrumentId), limit) ==
            Last(History(events, instrumentId), if limit < MAX_EVENTS_PER_INSTRUMENT then limit else MAX_EVENTS_PER_INSTRUMENT)
  {
    FeedIsTailOfHistory(events, instrumentId);
    LastWithin(History(events, instrumentId), limit, MAX_EVENTS_PER_INSTRUMENT);
  }

  class LiveBookRegistry<!D> {
    const pipeline: LivePipeline<D>
    var sink: seq<Alert>
    var recentEventsByInstrument: Feeds
    var eventsProcessed: nat
    var eventsSkippedInconsistent: nat

    // Every event processed so far, and what the consumer was before the first.
    ghost var recorded: seq<Event>
    ghost const start: Consumer<D>

    ghost predicate Valid()
      reads this, pipeline, pipeline.books.Values
    {
      && pipeline.Valid()
      && recentEventsByInstrument == RecordAll(recorded)
      && Now() == Fold(Consume(OnBooks(pipeline.evaluate)), start, recorded)
    }

    ghost function Now(): Consumer<D>
      reads this, pipeline, pipeline.books.Values
    {
      Consumer(Progress(pipeline.Now(), sink), eventsProcessed, eventsSkippedInconsistent)
    }

    constructor (pipeline: LivePipeline<D>)
      requires pipeline.Valid()
      ensures Valid() && this.pipeline == pipeline && recentEventsByInstrument == map[]
      ensures Now() == start == Consumer(Progress(pipeline.Now(), []), 0, 0) && recorded == []
    {
      this.pipeline := pipeline;
      recorded, start := [], Consumer(Progress(pipeline.Now(), []), 0, 0);
      sink, recentEventsByInstrument := [], map[];
      eventsProcessed, eventsSkippedInconsistent := 0, 0;
    }

    /** Drops from the front while there are too many. */
    static method TrimFront(all: seq<BookEvent>, cap: nat) returns (kept: seq<BookEvent>)
      ensures kept == Last(all, cap)
    {
      ghost var n := 0;
      kept := all;
      while |kept| > cap
        invariant n <= |all| && kept == all[n..] && (n == 0 || |kept| >= cap)
        decreases |kept|
      {
        kept := kept[1..];
        n := n + 1;
      }
    }

    method RecordEvent(e: Event)
      modifies this`recentEventsByInstrument
      ensures recentEventsByInstrument == Record(old(recentEventsByInstrument), e)
    {
      hide ToBookEvent, Last;
      var events := FeedOf(recentEventsByInstrument, e.InstrumentId()) + [ToBookEvent(e)];
      events := TrimFront(events, MAX_EVENTS_PER_INSTRUMENT);
      recentEventsByInstrument := recentEventsByInstrument[e.InstrumentId() := events];
    }

    /** What recording and processing one more event adds to the two folds. */
    lemma OneMoreEvent(all: seq<Event>, e: Event)
      ensures RecordAll(all + [e]) == Record(RecordAll(all), e)
      ensures forall c :: Fold(Consume(OnBooks(pipeline.evaluate)), c, all + [e]) ==
                          Consume(OnBooks(pipeline.evaluate))(Fold(Consume(OnBooks(pipeline.evaluate)), c, all), e)
    {
      assert (all + [e])[..|all|] == all;
    }

    /** Whatever the event, and whether or not it is skipped, it is consumed and recorded. */
    method ProcessOne(e: Event)
      requires Valid()
      modifies this, pipeline, pipeline.books.Values
      ensures Valid() && fresh(pipeline.books.Values - old(pipeline.books.Values))
      ensures recorded == old(recorded) + [e]
      ensures Now() == Consume(OnBooks(pipeline.evaluate))(old(Now()), e)
    {
      hide LivePipeline.Valid, LivePipeline.Now, LivePipeline.Models, BookAt, Process, Record, RecordAll, Fold;
      OneMoreEvent(recorded, e);
      var result := pipeline.Process(e);
      RecordEvent(e);
      recorded := recorded + [e];
      eventsProcessed := eventsProcessed + 1;
      if result.skippedInconsistent {
        eventsSkippedInconsistent := eventsSkippedInconsistent + 1;
        return;
      }
      sink := sink + result.alerts;
    }

    method Snapshot(instrumentId: string) returns (snap: Option<DepthSnapshot>)
      requires Valid()
      ensures snap == if instrumentId in pipeline.Models() then Some(SnapshotOf(pipeline.Models()[instrumentId])) else None
    {
      hide LivePipeline.Valid, SnapshotOf;
      var book := pipeline.BookFor(instrumentId);
      if book.None? {
        return None;
      }
      var s := book.value.Snapshot();
      snap := Some(s);
    }

    /** The last events of the instrument's whole history, at most `limit` and never more than the cap. */
    method RecentEvents(instrumentId: string, limit: nat) returns (events: seq<BookEvent>)
      requires Valid()
      ensures events == Last(History(recorded, instrumentId),
                             if limit < MAX_EVENTS_PER_INSTRUMENT then limit else MAX_EVENTS_PER_INSTRUMENT)
    {
      hide LivePipeline.Valid, Consume, Fold;
      RecentEventsAreTheLast(recorded, instrumentId, limit);
      if instrumentId !in recentEventsByInstrument {
        return [];
      }
      var all := recentEventsByInstrument[instrumentId];
      var count := if limit < |all| then limit else |all|;
      events := all[|all| - count..];
    }
  }
}
