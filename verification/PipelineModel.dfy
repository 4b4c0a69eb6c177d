/**
 The pipeline on values: one book per instrument, events a book rejects are counted and skipped, and
 every accepted event is shown to all detectors together with the book it has been applied to. A
 detector is any value with a transition function.
 */
module PipelineModel {
  import opened FixTypes
  import opened BookModel
  import opened Alerts

  type Evaluator<!D> = (D, Book, Event) -> (D, seq<Alert>)

  datatype Pipeline<D> = Pipeline(books: map<string, Book>, detectors: seq<D>, skipped: nat)

  datatype ProcessResult = ProcessResult(alerts: seq<Alert>, skippedInconsistent: bool)

  function Start<D>(detectors: seq<D>): Pipeline<D> {
    Pipeline(map[], detectors, 0)
  }

  function BookAt(books: map<string, Book>, instrumentId: string): Book {
    if instrumentId in books then books[instrumentId] else Empty(instrumentId)
  }

  function Advance<D>(evaluate: Evaluator<D>, detectors: seq<D>, b: Book, e: Event): seq<D> {
    if detectors == [] then []
    else
      var n := |detectors| - 1;
      Advance(evaluate, detectors[..n], b, e) + [evaluate(detectors[n], b, e).0]
  }

  function Gather<D>(evaluate: Evaluator<D>, detectors: seq<D>, b: Book, e: Event): seq<Alert> {
    if detectors == [] then []
    else
      var n := |detectors| - 1;
      Gather(evaluate, detectors[..n], b, e) + evaluate(detectors[n], b, e).1
  }

  function Process<D>(evaluate: Evaluator<D>, p: Pipeline<D>, e: Event): (Pipeline<D>, ProcessResult) {
    var r := Apply(BookAt(p.books, e.InstrumentId()), e);
    var books := p.books[e.InstrumentId() := r.book];
    if r.ok
    then (Pipeline(books, Advance(evaluate, p.detectors, r.book, e), p.skipped),
          ProcessResult(Gather(evaluate, p.detectors, r.book, e), false))
    else (Pipeline(books, p.detectors, p.skipped + 1), ProcessResult([], true))
  }

  /** What a run has left behind and everything it has reported. */
  datatype Progress<D> = Progress(pipeline: Pipeline<D>, alerts: seq<Alert>)

  function Handle<D>(evaluate: Evaluator<D>, g: Progress<D>, e: Event): Progress<D> {
    var r := Process(evaluate, g.pipeline, e);
    Progress(r.0, g.alerts + r.1.alerts)
  }

  function Run<D>(evaluate: Evaluator<D>, detectors: seq<D>, events: seq<Event>): Progress<D> {
    if events == [] then Progress(Start(detectors), [])
    else Handle(evaluate, Run(evaluate, detectors, events[..|events| - 1]), events[|events| - 1])
  }

  // ------------------------------------------- what a run means, instrument by instrument

  /** The events of one instrument, in order. */
  function EventsOf(events: seq<Event>, instrumentId: string): seq<Event> {
    if events == [] then []
    else
      var n := |events| - 1;
      EventsOf(events[..n], instrumentId) + (if events[n].InstrumentId() == instrumentId then [events[n]] else [])
  }

  /** A fresh book fed the instrument's own events and nothing else. */
  function AloneBook(events: seq<Event>, instrumentId: string): Book {
    ApplyAll(Empty(instrumentId), EventsOf(events, instrumentId))
  }

  /** What the book of the last event's own instrument, kept alone, makes of that event. */
  function LastOutcome(events: seq<Event>): Outcome
    requires events != []
  {
    var e := events[|events| - 1];
    Apply(AloneBook(events[..|events| - 1], e.InstrumentId()), e)
  }

  function Rejections(events: seq<Event>): nat {
    if events == [] then 0 else Rejections(events[..|events| - 1]) + (if LastOutcome(events).ok then 0 else 1)
  }

  /** An accepted event and the book right after it. */
  datatype Sighting = Sighting(book: Book, event: Event)

  function Accepted(events: seq<Event>): seq<Sighting> {
    if events == [] then []
    else
      var r := LastOutcome(events);
      Accepted(events[..|events| - 1]) + (if r.ok then [Sighting(r.book, events[|events| - 1])] else [])
  }

  /** A detector on its own, shown a list of accepted events. */
  function Watch<D>(evaluate: Evaluator<D>, d: D, seen: seq<Sighting>): D {
    if seen == [] then d
    else
      var last := seen[|seen| - 1];
      evaluate(Watch(evaluate, d, seen[..|seen| - 1]), last.book, last.event).0
  }

  /** What all detectors report on the last of the accepted events, in the order they are registered. */
  function ReportedOnLast<D>(evaluate: Evaluator<D>, detectors: seq<D>, seen: seq<Sighting>): seq<Alert>
    requires seen != []
  {
    if detectors == [] then []
    else
      var n, last := |detectors| - 1, seen[|seen| - 1];
      ReportedOnLast(evaluate, detectors[..n], seen)
      + evaluate(Watch(evaluate, detectors[n], seen[..|seen| - 1]), last.book, last.event).1
  }

  function Reported<D>(evaluate: Evaluator<D>, detectors: seq<D>, seen: seq<Sighting>): seq<Alert> {
    if seen == [] then []
    else Reported(evaluate, detectors, seen[..|seen| - 1]) + ReportedOnLast(evaluate, detectors, seen)
  }

  function WatchAll<D>(evaluate: Evaluator<D>, detectors: seq<D>, seen: seq<Sighting>): seq<D> {
    seq(|detectors|, k requires 0 <= k < |detectors| => Watch(evaluate, detectors[k], seen))
  }

  // ---------------------------------------------------------------- projection

  lemma {:induction false} AdvanceEach<D>(evaluate: Evaluator<D>, detectors: seq<D>, b: Book, e: Event)
    ensures |Advance(evaluate, detectors, b, e)| == |detectors|
    ensures forall k :: 0 <= k < |detectors| ==> Advance(evaluate, detectors, b, e)[k] == evaluate(detectors[k], b, e).0
  {
    if detectors != [] {
      AdvanceEach(evaluate, detectors[..|detectors| - 1], b, e);
    }
  }

  lemma WatchOneMore<D>(evaluate: Evaluator<D>, detectors: seq<D>, seen: seq<Sighting>, x: Sighting)
    ensures Advance(evaluate, WatchAll(evaluate, detectors, seen), x.book, x.event)
            == WatchAll(evaluate, detectors, seen + [x])
  {
    assert (seen + [x])[..|seen|] == seen;
    AdvanceEach(evaluate, WatchAll(evaluate, detectors, seen), x.book, x.event);
  }

  lemma {:induction false} GatherIsReported<D>(evaluate: Evaluator<D>, detectors: seq<D>, seen: seq<Sighting>, x: Sighting)
    ensures Gather(evaluate, WatchAll(evaluate, detectors, seen), x.book, x.event)
            == ReportedOnLast(evaluate, detectors, seen + [x])
  {
    if detectors != [] {
      var n := |detectors| - 1;
      GatherIsReported(evaluate, detectors[..n], seen, x);
      assert WatchAll(evaluate, detectors, seen)[..n] == WatchAll(evaluate, detectors[..n], seen);
      assert (seen + [x])[..|seen|] == seen;
    }
  }

  /** One more event changes only its own instrument's book. */
  lemma AloneBookStep(events: seq<Event>, instrumentId: string)
    requires events != []
    ensures AloneBook(events, instrumentId) ==
            if events[|events| - 1].InstrumentId() == instrumentId then LastOutcome(events).book
            else AloneBook(events[..|events| - 1], instrumentId)
  {
    var n := |events| - 1;
    var prior := EventsOf(events[..n], instrumentId);
    if events[n].InstrumentId() == instrumentId {
      assert (prior + [events[n]])[..|prior|] == prior;
    } else {
      assert prior + [] == prior;
    }
  }

  ghost predicate HasEvent(events: seq<Event>, instrumentId: string) {
    exists n :: 0 <= n < |events| && events[n].InstrumentId() == instrumentId
  }

  ghost predicate ProjectsBooks(events: seq<Event>, books: map<string, Book>) {
    && (forall i :: i in books <==> HasEvent(events, i))
    && (forall i :: BookAt(books, i) == AloneBook(events, i))
  }

  ghost predicate Projects<D>(evaluate: Evaluator<D>, detectors: seq<D>, events: seq<Event>, g: Progress<D>) {
    && ProjectsBooks(events, g.pipeline.books)
    && g.pipeline.skipped == Rejections(events)
    && g.pipeline.detectors == WatchAll(evaluate, detectors, Accepted(events))
    && g.alerts == Reported(evaluate, detectors, Accepted(events))
  }

  lemma BooksStep(events: seq<Event>, books: map<string, Book>)
    requires events != [] && ProjectsBooks(events[..|events| - 1], books)
    ensures var e := events[|events| - 1];
            && Apply(BookAt(books, e.InstrumentId()), e) == LastOutcome(events)
            && ProjectsBooks(events, books[e.InstrumentId() := LastOutcome(events).book])
  {
    hide Apply, AloneBook, HasEvent;
    var init, e := events[..|events| - 1], events[|events| - 1];
    assert init + [e] == events;
    var after := books[e.InstrumentId() := LastOutcome(events).book];
    forall i
      ensures BookAt(after, i) == AloneBook(events, i) && (i in after <==> HasEvent(events, i))
    {
      AloneBookStep(events, i);
      HasEventStep(init, e, i);
    }
  }

  lemma ProjectsStep<D>(evaluate: Evaluator<D>, detectors: seq<D>, events: seq<Event>, g: Progress<D>)
    requires events != [] && Projects(evaluate, detectors, events[..|events| - 1], g)
    ensures Projects(evaluate, detectors, events, Handle(evaluate, g, events[|events| - 1]))
  {
    hide ProjectsBooks, LastOutcome, Apply, BookAt;
    var r, e := LastOutcome(events), events[|events| - 1];
    BooksStep(events, g.pipeline.books);
    var seen := Accepted(events[..|events| - 1]);
    if r.ok {
      var x := Sighting(r.book, e);
      WatchOneMore(evaluate, detectors, seen, x);
      GatherIsReported(evaluate, detectors, seen, x);
      assert (seen + [x])[..|seen|] == seen;
    } else {
      assert seen + [] == seen;
    }
  }

  lemma HasEventStep(init: seq<Event>, e: Event, i: string)
    ensures HasEvent(init + [e], i) <==> HasEvent(init, i) || e.InstrumentId() == i
  {
    var all := init + [e];
    if HasEvent(init, i) {
      var n :| 0 <= n < |init| && init[n].InstrumentId() == i;
      assert all[n].InstrumentId() == i;
    } else if e.InstrumentId() == i {
      assert all[|init|].InstrumentId() == i;
    }
  }

  /**
   After any events: every book is the one its own events alone would have built, the skip counter
   is the number of rejected events, and each detector has been shown exactly the accepted events,
   in order, each with the book right after it; the alerts are what they then reported.
   */
  lemma {:induction false} RunProjects<D>(evaluate: Evaluator<D>, detectors: seq<D>, events: seq<Event>)
    ensures Projects(evaluate, detectors, events, Run(evaluate, detectors, events))
  {
    if events == [] {
      forall i
        ensures BookAt(map[], i) == AloneBook(events, i)
      {
        assert EventsOf(events, i) == [];
      }
      assert WatchAll(evaluate, detectors, []) == detectors;
    } else {
      hide Projects, Handle;
      RunProjects(evaluate, detectors, events[..|events| - 1]);
      ProjectsStep(evaluate, detectors, events, Run(evaluate, detectors, events[..|events| - 1]));
    }
  }
}
