/** Event lists from a fresh start on which the program falls short of what its comments promise. */
module Shortfalls {
  import opened FixTypes
  import opened BookModel
  import opened BookProperties
  import opened PipelineModel
  import opened SpoofingScore
  import opened SpoofingModel
  import opened SpoofingCounts
  import opened Holdings
  import opened Coupling
  import opened CouplingRuns

  function Placed(id: string, instrument: string): Event {
    OrderEvent(Order(id, "acct", instrument, Buy, 100.0, 10, Limit, 1, New, "venue", id))
  }

  function Replaced(id: string, orig: string, instrument: string, price: real): Event {
    OrderEvent(Order(id, "acct", instrument, Buy, price, 10, Limit, 2, OrderStatus.Replaced, "venue", orig))
  }

  function Pulled(orig: string, instrument: string): Event {
    OrderEvent(Order("pull", "acct", instrument, Buy, 100.0, 10, Limit, 2, Cancelled, "venue", orig))
  }

  lemma IdsDiffer()
    ensures "a" != "c" && "X" != "Y"
  {
    assert "a"[0] != "c"[0] && "X"[0] != "Y"[0];
  }

  lemma ApplyTwo(b: Book, e1: Event, e2: Event)
    ensures ApplyAll(b, [e1]) == Apply(b, e1).book
    ensures ApplyAll(b, [e1, e2]) == Apply(Apply(b, e1).book, e2).book
  {
    assert [e1, e2][..1] == [e1] && [e1][..0] == [];
  }

  /** Two orders, `a` in front of `c`, as a fresh book holds them. */
  function TwoResting(): seq<Resting> {
    [Resting(0, "a", "acct", Buy, 100.0, 10, 1, false), Resting(1, "c", "acct", Buy, 100.0, 10, 1, false)]
  }

  lemma PositionsOfTwo()
    ensures Position(TwoResting()[..1], "c") == 1
    ensures Position(TwoResting(), "a") == 0 && Position(TwoResting(), "c") == 1
  {
    IdsDiffer();
  }

  lemma IntactIdsDistinct(b: Book)
    requires Intact(b)
    ensures IdsDistinct(b.live)
  {
  }

  lemma OnePlaced()
    ensures Apply(Empty("X"), Placed("a", "X")) == Outcome(Book("X", TwoResting()[..1], 1, 1, 1), true)
  {
    assert [] + [TwoResting()[0]] == TwoResting()[..1];
  }

  lemma TwoPlaced()
    ensures var b := ApplyAll(Empty("X"), [Placed("a", "X"), Placed("c", "X")]);
            b == Book("X", TwoResting(), 2, 2, 1) && Intact(b)
  {
    IdsDiffer();
    PositionsOfTwo();
    hide Position, ApplyAll;
    ApplyTwo(Empty("X"), Placed("a", "X"), Placed("c", "X"));
    OnePlaced();
    assert TwoResting()[..1] + [TwoResting()[1]] == TwoResting();
  }

  /**
   Received: New a, New c, then a place-keeping Replace of a onto c. Two orders now queue under the id c;
   the one that had it first can no longer be found, and stays in the book whatever else is received.
   */
  lemma TheftHappens(later: seq<Event>)
    ensures var before, last := [Placed("a", "X"), Placed("c", "X")], Replaced("c", "a", "X", 100.0);
            var b := ApplyAll(Empty("X"), before);
            && Intact(b) && StealsId(b, last) && Apply(b, last).ok
            && var after := Apply(b, last).book;
               && after.live == [TwoResting()[0].(id := "c"), TwoResting()[1].(lost := true)]
               && !Intact(after) && TwoResting()[1].(lost := true) in ApplyAll(after, later).live
  {
    hide Intact, ApplyAll;
    IdsDiffer();
    TwoPlaced();
    PositionsOfTwo();
    var b := ApplyAll(Empty("X"), [Placed("a", "X"), Placed("c", "X")]);
    IntactIffNoTheft(b, Replaced("c", "a", "X", 100.0));
    var after := Apply(b, Replaced("c", "a", "X", 100.0)).book;
    assert after.live[1] == TwoResting()[1].(lost := true);
    LostForEver(after, later, after.live[1]);
  }

  /** Received: New a, New c, then a Replace of a onto c at another price. It is rejected, and a is gone. */
  lemma RejectedReplaceCanLoseAnOrder()
    ensures var before, last := [Placed("a", "X"), Placed("c", "X")], Replaced("c", "a", "X", 101.0);
            var b := ApplyAll(Empty("X"), before);
            && IsResting(b, "a") && LosesOrder(b, last) && !Apply(b, last).ok
            && !IsResting(Apply(b, last).book, "a") && |Apply(b, last).book.live| == 1
  {
    IdsDiffer();
    TwoPlaced();
    PositionsOfTwo();
    hide Position, ApplyAll, Intact;
    var b := ApplyAll(Empty("X"), [Placed("a", "X"), Placed("c", "X")]);
    IntactIdsDistinct(b);
    RestingAfterRemove(b, "a", "a");
    RestingAfterRemove(b, "a", "c");
  }

  // ------------------------------------------------------ detector and books

  lemma ReachedOneMore<D>(evaluate: Evaluator<D>, detectors: seq<D>, events: seq<Event>, e: Event)
    ensures Reached(evaluate, detectors, events + [e]) == Process(evaluate, Reached(evaluate, detectors, events), e).0
  {
    assert (events + [e])[..|events|] == events;
  }

  /** After New a on X, in any pipeline with a spoofing detector: in step, and a rests on X alone. */
  lemma AfterOneNew<D(!new)>(evaluate: Evaluator<D>, cfg: Config, v: View<D>, detectors: seq<D>, k: nat)
    requires BuiltWith(evaluate, cfg, v, detectors, k)
    ensures var p := Reached(evaluate, detectors, [Placed("a", "X")]);
            && InStep(v, k, p) && p.skipped == 0 && p.books == map["X" := Apply(Empty("X"), Placed("a", "X")).book]
            && IsResting(p.books["X"], "a") && "a" in v.state(p.detectors[k]).tracked
  {
    var start, e := Reached(evaluate, detectors, []), Placed("a", "X");
    StartInStep(evaluate, cfg, v, detectors, k);
    ReachedOneMore(evaluate, detectors, [], e);
    assert [] + [e] == [e];
    CoupledIffCoherent(evaluate, cfg, v, start, k, e);
    PipelineStep(evaluate, cfg, v, start, k, e);
  }

  /** With a on X and no book for Y yet, neither a New a on Y nor a Cancel of a on Y is coherent; Y accepts both. */
  lemma NotForY(books: map<string, Book>)
    requires "X" in books && IsResting(books["X"], "a") && "Y" !in books
    ensures !Coherent(books, Placed("a", "Y")) && !Coherent(books, Pulled("a", "Y"))
    ensures Apply(BookAt(books, "Y"), Placed("a", "Y")).ok && Apply(BookAt(books, "Y"), Pulled("a", "Y")).ok
  {
    assert !RestsNowhereElse(books, "Y", "a");
  }

  /**
   Received: New a on X, then New a on Y. Both books accept, but the detector overwrites what it tracked:
   it is out of step, and its counters are wrong.
   */
  lemma SameIdOnTwoInstruments<D(!new)>(evaluate: Evaluator<D>, cfg: Config, v: View<D>, detectors: seq<D>, k: nat)
    requires BuiltWith(evaluate, cfg, v, detectors, k)
    ensures InStep(v, k, Reached(evaluate, detectors, [Placed("a", "X")]))
    ensures var p := Reached(evaluate, detectors, [Placed("a", "X"), Placed("a", "Y")]);
            && p.skipped == 0 && k < |p.detectors| && !InStep(v, k, p)
            && !CountsExact(v.state(p.detectors[k]).tracked, v.state(p.detectors[k]).counts)
  {
    hide Coherent, BooksSound, Agree, Evaluate, CountsExact, Hosts, Apply, IsResting, Advance, Gather;
    IdsDiffer();
    var p, e := Reached(evaluate, detectors, [Placed("a", "X")]), Placed("a", "Y");
    AfterOneNew(evaluate, cfg, v, detectors, k);
    ReachedOneMore(evaluate, detectors, [Placed("a", "X")], e);
    assert [Placed("a", "X")] + [e] == [Placed("a", "X"), e];
    NotForY(p.books);
    var r := Apply(BookAt(p.books, "Y"), e);
    CoupledIffCoherent(evaluate, cfg, v, p, k, e);
    PipelineStep(evaluate, cfg, v, p, k, e);
    CountsStayExactIff(cfg, v.state(p.detectors[k]), r.book, e);
  }

  /** Received: New a on X, then a Cancel of a on Y. It is accepted as an ordinary race, and the detector forgets a. */
  lemma CancelOnTheWrongInstrument<D(!new)>(evaluate: Evaluator<D>, cfg: Config, v: View<D>, detectors: seq<D>, k: nat)
    requires BuiltWith(evaluate, cfg, v, detectors, k)
    ensures InStep(v, k, Reached(evaluate, detectors, [Placed("a", "X")]))
    ensures var p := Reached(evaluate, detectors, [Placed("a", "X"), Pulled("a", "Y")]);
            p.skipped == 0 && "X" in p.books && IsResting(p.books["X"], "a") && !InStep(v, k, p)
  {
    hide Coherent, BooksSound, Agree, Evaluate, CountsExact, Hosts, IsResting, Advance, Gather;
    IdsDiffer();
    var p, e := Reached(evaluate, detectors, [Placed("a", "X")]), Pulled("a", "Y");
    AfterOneNew(evaluate, cfg, v, detectors, k);
    ReachedOneMore(evaluate, detectors, [Placed("a", "X")], e);
    assert [Placed("a", "X")] + [e] == [Placed("a", "X"), e];
    NotForY(p.books);
    CoupledIffCoherent(evaluate, cfg, v, p, k, e);
    PipelineStep(evaluate, cfg, v, p, k, e);
  }
}
