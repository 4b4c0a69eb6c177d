/** The consumer loop on its own objects, run while no other thread is inside the queue. */
module LiveConsumers {
  import opened FixTypes
  import opened BookModel
  import opened Alerts
  import opened PipelineModel
  import opened LivePipelines
  import opened RingDrain
  import opened ConsumerModel
  import opened SpscRingBuffers

  lemma StartOfFold<D>(evaluate: Evaluator<D>, c: Consumer<D>)
    ensures Fold(Consume(evaluate), c, []) == c
  {
  }

  class LiveConsumer<!D> {
    const pipeline: LivePipeline<D>
    var sink: seq<Alert>
    var eventsProcessed: nat
    var eventsSkippedInconsistent: nat

    ghost predicate Valid()
      reads this, pipeline, pipeline.books.Values
    {
      pipeline.Valid()
    }

    ghost function Now(): Consumer<D>
      reads this, pipeline, pipeline.books.Values
    {
      Consumer(Progress(pipeline.Now(), sink), eventsProcessed, eventsSkippedInconsistent)
    }

    constructor (pipeline: LivePipeline<D>)
      requires pipeline.Valid()
      ensures Valid() && this.pipeline == pipeline && Now() == Consumer(Progress(pipeline.Now(), []), 0, 0)
    {
      this.pipeline := pipeline;
      sink, eventsProcessed, eventsSkippedInconsistent := [], 0, 0;
    }

    method ProcessOne(e: Event)
      requires Valid()
      modifies this, pipeline, pipeline.books.Values
      ensures Valid() && fresh(pipeline.books.Values - old(pipeline.books.Values))
      ensures Now() == Consume(OnBooks(pipeline.evaluate))(old(Now()), e)
    {
      hide LivePipeline.Valid, LivePipeline.Now, LivePipeline.Models, BookAt, Process;
      var result := pipeline.Process(e);
      eventsProcessed := eventsProcessed + 1;
      if result.skippedInconsistent {
        eventsSkippedInconsistent := eventsSkippedInconsistent + 1;
        return;
      }
      sink := sink + result.alerts;
    }

    /** One popped event of the run, seen from the list of all events it will pop. */
    method Step(e: Event, ghost start: Consumer<D>, ghost all: seq<Event>, ghost n: nat)
      requires Valid() && n < |all| && e == all[n]
      requires Now() == Fold(Consume(OnBooks(pipeline.evaluate)), start, all[..n])
      modifies this, pipeline, pipeline.books.Values
      ensures Valid() && fresh(pipeline.books.Values - old(pipeline.books.Values))
      ensures Now() == Fold(Consume(OnBooks(pipeline.evaluate)), start, all[..n + 1])
    {
      hide LivePipeline.Valid, Consume;
      assert all[..n + 1][..n] == all[..n];
      ProcessOne(e);
    }

    /** The loop's pop, tried once more after the done flag before giving up. */
    method NextEvent(queue: SpscRingBuffer<Event>) returns (ok: bool, e: Event)
      requires queue.Valid()
      modifies queue, queue.sequences
      ensures queue.Valid() && queue.dropped == old(queue.dropped)
      ensures ok <==> old(queue.Contents()) != []
      ensures ok ==> e == old(queue.Contents())[0] && queue.Contents() == old(queue.Contents())[1..]
      ensures !ok ==> queue.Contents() == []
    {
      hide SpscRingBuffer.Valid, SpscRingBuffer.Contents;
      e := *;
      ok, e := queue.Pop(e);
      if !ok {
        ok, e := queue.Pop(e);
      }
    }

    /**
     The loop once the producer is done: every queued event is processed, in order, and the queue is
     left empty.
     */
    method Run(queue: SpscRingBuffer<Event>)
      requires Valid() && queue.Valid()
      modifies this, pipeline, pipeline.books.Values, queue, queue.sequences
      ensures Valid() && queue.Valid() && queue.Contents() == [] && queue.dropped == old(queue.dropped)
      ensures Now() == Fold(Consume(OnBooks(pipeline.evaluate)), old(Now()), old(queue.Contents()))
    {
      hide LivePipeline.Valid, Consume, Fold, SpscRingBuffer.Valid, SpscRingBuffer.Contents;
      StartOfFold(OnBooks(pipeline.evaluate), Now());
      ghost var start, all, n := Now(), queue.Contents(), 0;
      while true
        invariant Valid() && queue.Valid() && queue.dropped == old(queue.dropped)
        invariant fresh(pipeline.books.Values - old(pipeline.books.Values))
        invariant n <= |all| && queue.Contents() == all[n..]
        invariant Now() == Fold(Consume(OnBooks(pipeline.evaluate)), start, all[..n])
        decreases |all| - n
      {
        var ok, e := NextEvent(queue);
        if !ok {
          break;
        }
        Step(e, start, all, n);
        n := n + 1;
      }
      assert all[..n] == all;
    }
  }
}
