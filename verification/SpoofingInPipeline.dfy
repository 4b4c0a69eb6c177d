/**
 The spoofing detector inside the running pipeline, which shows detectors a book only through its
 depth snapshot: the snapshot answers everything the detector asks, so the pipeline object keeps the
 detector in step with its books.
 */
module SpoofingInPipeline {
  import opened Options
  import opened FixTypes
  import opened BookModel
  import opened OrderBookState
  import opened DepthSnapshots
  import opened Alerts
  import opened PipelineModel
  import opened LivePipelines
  import opened SpoofingScore
  import opened SpoofingModel
  import opened Coupling
  import opened CouplingRuns

  function FirstPrice(levels: seq<PriceLevel>): Option<real> {
    if levels == [] then None else Some(levels[0].price)
  }

  /** The total shown at a price, or zero if no level has it. */
  function ShownAt(levels: seq<PriceLevel>, price: real): int {
    if levels == [] then 0
    else if levels[|levels| - 1].price == price then levels[|levels| - 1].totalQty
    else ShownAt(levels[..|levels| - 1], price)
  }

  function QuotesIn(snap: DepthSnapshot, e: Event): Quotes {
    Quotes(FirstPrice(snap.bids), FirstPrice(snap.asks),
           if e.OrderEvent? then ShownAt(if e.order.side.Buy? then snap.bids else snap.asks, e.order.price) else 0)
  }

  /** Its spoofing detectors evaluate as such on what the snapshot shows. */
  ghost predicate HostsOnSnapshots<D(!new)>(evaluate: Detector<D>, cfg: Config, v: View<D>) {
    forall d, snap, e :: v.isSpoofing(d) ==> EvaluatesOnSnapshot(evaluate, cfg, v, d, snap, e)
  }

  ghost predicate EvaluatesOnSnapshot<D>(evaluate: Detector<D>, cfg: Config, v: View<D>, d: D, snap: DepthSnapshot, e: Event) {
    var r := evaluate(d, snap, e).0;
    v.isSpoofing(r) && v.state(r) == EvaluateOn(cfg, v.state(d), QuotesIn(snap, e), snap.sequence, e).0
  }

  lemma {:induction false} ShownAtLevels(live: seq<Resting>, side: Side, prices: seq<real>, price: real)
    ensures ShownAt(LevelsAt(live, side, prices), price) ==
            if price in prices then TotalQty(LevelOf(live, side, price)) else 0
  {
    if prices != [] {
      var init, last := prices[..|prices| - 1], prices[|prices| - 1];
      ShownAtLevels(live, side, init, price);
      assert prices == init + [last];
      var levels := LevelsAt(live, side, prices);
      assert levels[..|levels| - 1] == LevelsAt(live, side, init);
    }
  }

  lemma NothingAtUnlistedPrice(live: seq<Resting>, side: Side, price: real)
    requires price !in PricesOf(live, side)
    ensures LevelOf(live, side, price) == []
  {
    LevelExists(live, side, price);
    QueueMatchesLevel(live, side, price);
  }

  lemma SideShown(live: seq<Resting>, side: Side, prices: seq<real>, price: real)
    requires forall p :: p in prices <==> p in PricesOf(live, side)
    ensures ShownAt(LevelsAt(live, side, prices), price) == TotalQty(LevelOf(live, side, price))
  {
    ShownAtLevels(live, side, prices, price);
    if price !in prices {
      NothingAtUnlistedPrice(live, side, price);
    }
  }

  /** The first level of each side is the best price, and the levels show every quantity. */
  lemma SnapshotAnswers(b: Book, e: Event)
    ensures QuotesIn(SnapshotOf(b), e) == QuotesOf(b.live, e)
  {
    var bids, asks := Reversed(Ascending(PricesOf(b.live, Buy))), Ascending(PricesOf(b.live, Sell));
    BestIsAtTheEnd(b.live, Buy);
    BestIsAtTheEnd(b.live, Sell);
    LevelsAtPrices(b.live, Buy, bids);
    LevelsAtPrices(b.live, Sell, asks);
    ReversedMembers(Ascending(PricesOf(b.live, Buy)));
    if e.OrderEvent? {
      SideShown(b.live, Buy, bids, e.order.price);
      SideShown(b.live, Sell, asks, e.order.price);
    }
  }

  /** Seeing snapshots makes no difference to what a spoofing detector does. */
  lemma SnapshotsSuffice<D(!new)>(evaluate: Detector<D>, cfg: Config, v: View<D>)
    requires HostsOnSnapshots(evaluate, cfg, v)
    ensures Hosts(OnBooks(evaluate), cfg, v)
  {
    hide EvaluateOn, QuotesIn, QuotesOf;
    forall d, b, e | v.isSpoofing(d)
      ensures Evaluates(OnBooks(evaluate), cfg, v, d, b, e)
    {
      SnapshotAnswers(b, e);
      assert EvaluatesOnSnapshot(evaluate, cfg, v, d, SnapshotOf(b), e);
    }
  }

  /**
   One call of the pipeline object, with any detectors beside the spoofing detector in place `k`: it
   leaves that detector in step with the book objects if and only if the event is coherent.
   */
  method ProcessInStep<D(!new)>(pipeline: LivePipeline<D>, ghost cfg: Config, ghost v: View<D>, ghost k: nat, e: Event)
    returns (result: ProcessResult)
    requires pipeline.Valid() && HostsOnSnapshots(pipeline.evaluate, cfg, v)
    requires InStep(v, k, pipeline.Now())
    modifies pipeline, pipeline.books.Values
    ensures pipeline.Valid() && fresh(pipeline.books.Values - old(pipeline.books.Values))
    ensures (pipeline.Now(), result) == Process(OnBooks(pipeline.evaluate), old(pipeline.Now()), e)
    ensures InStep(v, k, pipeline.Now()) <==> old(Coherent(pipeline.Models(), e))
  {
    hide LivePipeline.Valid, Coherent, InStep, Process, HostsOnSnapshots, Hosts;
    SnapshotsSuffice(pipeline.evaluate, cfg, v);
    CoupledIffCoherent(OnBooks(pipeline.evaluate), cfg, v, pipeline.Now(), k, e);
    result := pipeline.Process(e);
  }
}
