/** What the consuming loops compute from the events they pop, and what any schedule makes of it. */
module ConsumerModel {
  import opened FixTypes
  import opened BookModel
  import opened Alerts
  import opened PipelineModel
  import opened SpscRing
  import opened RingDrain

  /** The pipeline, everything sent to the alert sink, and the consumer's own counters. */
  datatype Consumer<D> = Consumer(progress: Progress<D>, processed: nat, skipped: nat)

  function Idle<D>(detectors: seq<D>): Consumer<D> {
    Consumer(Progress(PipelineModel.Start(detectors), []), 0, 0)
  }

  function Consume<D>(evaluate: Evaluator<D>): (Consumer<D>, Event) -> Consumer<D> {
    (c: Consumer<D>, e: Event) =>
      var skips := if Process(evaluate, c.progress.pipeline, e).1.skippedInconsistent then 1 else 0;
      Consumer(Handle(evaluate, c.progress, e), c.processed + 1, c.skipped + skips)
  }

  function ConsumeAll<D>(evaluate: Evaluator<D>, detectors: seq<D>, events: seq<Event>): Consumer<D> {
    Fold(Consume(evaluate), Idle(detectors), events)
  }

  /** The loop's counters and the pipeline behind it, after any popped events. */
  lemma {:induction false} ConsumerProjects<D>(evaluate: Evaluator<D>, detectors: seq<D>, events: seq<Event>)
    ensures var c := ConsumeAll(evaluate, detectors, events);
            c.progress == Run(evaluate, detectors, events) && c.processed == |events| && c.skipped == Rejections(events)
  {
    if events == [] {
      assert Rejections(events) == 0;
    } else {
      var init, e := events[..|events| - 1], events[|events| - 1];
      ConsumerProjects(evaluate, detectors, init);
      RunProjects(evaluate, detectors, init);
      RunProjects(evaluate, detectors, events);
      assert Apply(BookAt(Run(evaluate, detectors, init).pipeline.books, e.InstrumentId()), e) == LastOutcome(events);
    }
  }

  /**
   Whatever the schedule, once the loop has exited every pushed event was processed or dropped, the
   skip counter counts the rejections among those processed, and the alerts are those of a single
   thread running the pipeline over the popped events.
   */
  lemma ConsumerAccounts<D>(evaluate: Evaluator<D>, detectors: seq<D>, cap: nat, blank: Event, input: seq<Event>,
                            ticks: seq<Tick>, z: System<Event>)
    requires cap >= 2 && Leads(RingDrain.Start(cap, blank, input), ticks, z) && z.loop.Exited?
    ensures var c := ConsumeAll(evaluate, detectors, z.ring.popped);
            && c.processed + z.ring.dropCount == |input|
            && c.skipped == Rejections(z.ring.popped)
            && c.progress.alerts == Reported(evaluate, detectors, Accepted(z.ring.popped))
  {
    DrainAccountsForEverything(cap, blank, input, ticks, z);
    ConsumerProjects(evaluate, detectors, z.ring.popped);
    RunProjects(evaluate, detectors, z.ring.popped);
  }

  /**
   With a cell for every event, as a replay has (`RingBufferCapacityFor`), every schedule ends with the
   alerts of the sequential run over the input.
   */
  lemma ReplayIsSequential<D>(evaluate: Evaluator<D>, detectors: seq<D>, cap: nat, blank: Event, input: seq<Event>,
                              ticks: seq<Tick>, z: System<Event>)
    requires cap >= 2 && cap >= |input| && Leads(RingDrain.Start(cap, blank, input), ticks, z) && z.loop.Exited?
    ensures z.ring.dropCount == 0
    ensures var c := ConsumeAll(evaluate, detectors, z.ring.popped);
            && c.processed == |input| && c.skipped == Rejections(input)
            && c.progress.alerts == Run(evaluate, detectors, input).alerts
  {
    RoomForAllMeansNoDrops(cap, blank, input, ticks, z);
    ConsumerProjects(evaluate, detectors, input);
  }
}
