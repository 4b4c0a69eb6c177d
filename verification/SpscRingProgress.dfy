/** When `push` can finish without the consumer, and why no reachable state is stuck. */
module SpscRingProgress {
  import opened SpscRing
  import opened SpscRingSafety
  import opened SpscRingTheorems

  /** The consumer sits between its CAS and its store on the one cell this push is waiting for. */
  predicate WaitsForConsumer<T>(s: State<T>) {
    s.producer.Pushing? && s.producer.pos >= s.cap && s.consumer.Holds(s.producer.pos - s.cap)
  }

  /** An upper bound on the producer's own steps left, when it does not have to wait. */
  function Rank<T>(s: State<T>): nat
    requires s.Shaped()
  {
    match s.producer
    case Idle => 0
    case Pushing(_, pos, _, _, pc) =>
      match pc
      case StoreTail => 1
      case Publish => 2
      case Write => 3
      case Check => if s.seqs[Slot(pos, s.cap)] == pos then 4 else 13
      case Count => 5
      case Claiming(Free(_, _)) => 6
      case Claiming(Take(_)) => 7
      case Claiming(Cas(p)) => if p == s.head then 8 else 11
      case Claiming(LoadSeq(p)) => if p == s.head then 9 else 12
      case Claiming(LoadHead) => 10
  }

  /** Not waiting, and nothing left in the wanted cell: the cell reads as vacated. */
  lemma WantedCellVacated<T>(s: State<T>)
    requires Inv(s) && s.producer.Pushing? && !s.producer.pc.StoreTail? && !WaitsForConsumer(s)
    requires s.producer.pos - s.cap < s.head
    requires !s.producer.Holds(if s.producer.pos < s.cap then s.head else s.producer.pos - s.cap)
    ensures s.seqs[Slot(s.producer.pos, s.cap)] == s.producer.pos
  {
    if s.seqs[Slot(s.producer.pos, s.cap)] != s.producer.pos {
      SeenFull(s);
    }
  }

  lemma SeekingMakesProgress<T>(s: State<T>)
    requires Inv(s) && Seeking(s.producer) && !WaitsForConsumer(s)
    ensures Rank(StepProducer(s, true)) < Rank(s)
  {
    var c := s.producer.pc.claim;
    if c.LoadSeq? && c.pos == s.head {
      if s.head < |s.pushed| {
        UnclaimedCell(s, s.head);
        assert CellInv(s, Slot(s.head, s.cap));
      } else {
        WantedCellVacated(s);
      }
    } else if c.LoadSeq? && s.seqs[Slot(c.pos, s.cap)] == c.pos {
      SeenEmpty(s, c.pos);
    }
  }

  lemma ProducerMakesProgress<T>(s: State<T>)
    requires Inv(s) && s.producer.Pushing? && !WaitsForConsumer(s)
    ensures Rank(StepProducer(s, true)) < Rank(s)
  {
    if Seeking(s.producer) {
      SeekingMakesProgress(s);
    } else if s.producer.pc.Count? {
      WantedCellVacated(s);
    }
  }

  /** How many more elements the producer will count as dropped if it finishes this push alone. */
  function Due<T>(s: State<T>): nat
    requires s.Shaped()
  {
    match s.producer
    case Idle => 0
    case Pushing(_, pos, _, _, pc) =>
      match pc
      case Check => if s.seqs[Slot(pos, s.cap)] == pos then 0 else 1
      case Claiming(_) => if Uncounted(s.producer) == 1 || s.head < |s.pushed| then 1 else 0
      case Count => 1
      case _ => 0
  }

  /** What a step of the producer cannot change: what is due in the end, counted or not. */
  ghost predicate SameDues<T>(s: State<T>, t: State<T>)
    requires s.Shaped() && t.Shaped()
  {
    && t.dropCount + Due(t) == s.dropCount + Due(s)
    && t.head + Due(t) - Uncounted(t.producer) == s.head + Due(s) - Uncounted(s.producer)
  }

  lemma SeekingPaysDues<T>(s: State<T>, casOk: bool)
    requires Inv(s) && Seeking(s.producer) && !WaitsForConsumer(s)
    ensures SameDues(s, StepProducer(s, casOk))
  {
    var c := s.producer.pc.claim;
    if c.LoadSeq? && s.seqs[Slot(c.pos, s.cap)] == c.pos {
      SeenEmpty(s, c.pos);
      WantedCellVacated(s);
    }
  }

  lemma DueIsPaid<T>(s: State<T>, casOk: bool)
    requires Inv(s) && s.producer.Pushing? && !WaitsForConsumer(s)
    ensures SameDues(s, StepProducer(s, casOk))
  {
    if Seeking(s.producer) {
      SeekingPaysDues(s, casOk);
    } else if s.producer.pc.Count? {
      WantedCellVacated(s);
    } else if s.producer.pc.Check? && s.seqs[Slot(s.producer.pos, s.cap)] != s.producer.pos {
      SeenFull(s);
    }
  }

  /** What `pushed` will be once the push under way has been published. */
  function AfterPush<T>(s: State<T>): seq<T> {
    if s.producer.Pushing? && !s.producer.pc.StoreTail? then s.pushed + [s.producer.item] else s.pushed
  }

  lemma ProducerStepIsQuiet<T>(s: State<T>, casOk: bool)
    requires Inv(s) && s.producer.Pushing? && !WaitsForConsumer(s)
    ensures var t := StepProducer(s, casOk);
            !WaitsForConsumer(t) && t.consumer == s.consumer && t.popped == s.popped && AfterPush(t) == AfterPush(s)
  {
  }

  predicate ProducerOnly<T>(run: seq<Action<T>>) {
    forall i :: 0 <= i < |run| ==> run[i].StepPush?
  }

  /** Every schedule of the producer alone, whatever its compare-and-swaps do, keeps what is due. */
  lemma {:induction false} ProducerAloneKeepsDues<T>(s: State<T>, run: seq<Action<T>>, t: State<T>)
    requires Inv(s) && !WaitsForConsumer(s) && ProducerOnly(run) && Reaches(s, run, t)
    ensures Inv(t) && SameDues(s, t)
    ensures t.consumer == s.consumer && t.popped == s.popped && AfterPush(t) == AfterPush(s)
    decreases |run|
  {
    if run != [] {
      assert run[0].StepPush?;
      var u := StepProducer(s, run[0].casOk);
      DueIsPaid(s, run[0].casOk);
      ProducerStepIsQuiet(s, run[0].casOk);
      ProducerStepKeepsInv(s, run[0].casOk);
      assert forall i :: 0 <= i < |run| - 1 ==> run[1..][i] == run[i + 1];
      hide Inv, Due, Uncounted, AfterPush, WaitsForConsumer;
      ProducerAloneKeepsDues(u, run[1..], t);
    }
  }

  lemma {:induction false} AloneRun<T>(s: State<T>) returns (run: seq<Action<T>>, t: State<T>)
    requires Inv(s) && !WaitsForConsumer(s)
    ensures ProducerOnly(run) && |run| <= Rank(s)
    ensures Reaches(s, run, t) && t.producer.Idle?
    decreases Rank(s)
  {
    if s.producer.Idle? {
      run, t := [], s;
    } else {
      ProducerMakesProgress(s);
      ProducerStepIsQuiet(s, true);
      ProducerStepKeepsInv(s, true);
      var rest, v := AloneRun(StepProducer(s, true));
      run, t := [StepPush(true)] + rest, v;
      assert run[1..] == rest;
    }
  }

  /** Unless it waits for the consumer's store, a push finishes on its own in at most 13 steps. */
  lemma PushFinishesAlone<T>(s: State<T>) returns (run: seq<Action<T>>, t: State<T>)
    requires Inv(s) && !WaitsForConsumer(s)
    ensures ProducerOnly(run) && |run| <= Rank(s) <= 13
    ensures Reaches(s, run, t)
    ensures t.producer.Idle? && t.pushed == AfterPush(s) && t.consumer == s.consumer && t.popped == s.popped
    ensures t.dropCount == s.dropCount + Due(s) && t.head == s.head + Due(s) - Uncounted(s.producer)
  {
    run, t := AloneRun(s);
    ProducerAloneKeepsDues(s, run, t);
  }

  /** While the consumer sits between CAS and store on the wanted cell, no amount of spinning helps. */
  lemma {:induction false} PushCannotFinishWaiting<T>(s: State<T>, run: seq<Action<T>>, t: State<T>)
    requires Inv(s) && WaitsForConsumer(s) && s.producer.pc.Check?
    requires ProducerOnly(run) && Reaches(s, run, t)
    ensures WaitsForConsumer(t) && t.pushed == s.pushed
    decreases |run|
  {
    SpinningWaits(s, run, t);
  }

  lemma SpinStepWaits<T>(s: State<T>, casOk: bool)
    requires Inv(s) && WaitsForConsumer(s)
    requires s.producer.pc.Check? || s.producer.pc.Claiming? || s.producer.pc.Count?
    ensures var t := StepProducer(s, casOk);
            && WaitsForConsumer(t) && t.pushed == s.pushed
            && (t.producer.pc.Check? || t.producer.pc.Claiming? || t.producer.pc.Count?)
  {
    if s.producer.pc.Check? {
      HeldCell(s, s.producer.pos - s.cap);
    }
  }

  lemma {:induction false} SpinningWaits<T>(s: State<T>, run: seq<Action<T>>, t: State<T>)
    requires Inv(s) && WaitsForConsumer(s)
    requires s.producer.pc.Check? || s.producer.pc.Claiming? || s.producer.pc.Count?
    requires ProducerOnly(run) && Reaches(s, run, t)
    ensures WaitsForConsumer(t) && t.pushed == s.pushed
    decreases |run|
  {
    if run != [] {
      assert run[0].StepPush?;
      SpinStepWaits(s, run[0].casOk);
      ProducerStepKeepsInv(s, run[0].casOk);
      assert forall i :: 0 <= i < |run| - 1 ==> run[1..][i] == run[i + 1];
      SpinningWaits(StepProducer(s, run[0].casOk), run[1..], t);
    }
  }

  /** The consumer's own two steps from its CAS to its store never block. */
  lemma ConsumerLetsGo<T>(s: State<T>) returns (run: seq<Action<T>>, t: State<T>)
    requires Inv(s)
    ensures |run| <= 2 && Reaches(s, run, t) && Inv(t)
    ensures t.producer == s.producer && t.pushed == s.pushed && !WaitsForConsumer(t)
  {
    run, t := [], s;
    if s.consumer.Popping? && s.consumer.claim.Take? {
      var u := Next(s, StepPop(true));
      StepKeepsInv(s, StepPop(true));
      StepKeepsInv(u, StepPop(true));
      run, t := [StepPop(true), StepPop(true)], Next(u, StepPop(true));
      assert run[1..] == [StepPop(true)];
      assert Reaches(u, [StepPop(true)], t);
    } else if s.consumer.Popping? && s.consumer.claim.Free? {
      StepKeepsInv(s, StepPop(true));
      run, t := [StepPop(true)], Next(s, StepPop(true));
    }
  }

  /** No reachable state is deadlocked: the push under way can always be finished in 15 more steps. */
  lemma PushCanAlwaysFinish<T(!new)>(s: State<T>)
    requires Reachable(s)
    ensures exists run: seq<Action<T>>, t: State<T> ::
              |run| <= 15 && Reaches(s, run, t) && t.producer.Idle? && t.pushed == AfterPush(s)
  {
    ReachableInv(s);
    var r1, u := ConsumerLetsGo(s);
    var r2, t := PushFinishesAlone(u);
    ReachesTrans(s, r1, u, r2, t);
    assert |r1 + r2| <= 15;
  }

  /**
   A whole push with no consumer claim in flight and the consumer not scheduled: under every schedule
   of the producer, spurious failures of its compare-and-swap included, it drops one if full, else none.
   */
  lemma PushAloneDropsOneIffFull<T(!new)>(s: State<T>, item: T, run: seq<Action<T>>, t: State<T>)
    requires Reachable(s) && s.producer.Idle? && Pending(s) == []
    requires s.Shaped() && ProducerOnly(run) && Reaches(Next(s, BeginPush(item)), run, t) && t.producer.Idle?
    ensures t.pushed == s.pushed + [item] && t.popped == s.popped
    ensures var drops := if |s.pushed| - s.head == s.cap then 1 else 0;
            t.dropCount == s.dropCount + drops && t.head == s.head + drops
  {
    ReachableInv(s);
    StepKeepsInv(s, BeginPush(item));
    var u := Next(s, BeginPush(item));
    ProducerAloneKeepsDues(u, run, t);
    if u.seqs[Slot(u.producer.pos, u.cap)] == u.producer.pos {
      SeenVacated(u);
    } else {
      SeenFull(u);
    }
  }

  /** Such a schedule exists from every such state, so the statement above is about something. */
  lemma PushAloneCompletes<T(!new)>(s: State<T>, item: T)
    requires Reachable(s) && s.producer.Idle? && Pending(s) == []
    ensures s.Shaped()
    ensures exists run: seq<Action<T>>, t: State<T> ::
              ProducerOnly(run) && |run| <= 13 && Reaches(Next(s, BeginPush(item)), run, t) && t.producer.Idle?
  {
    ReachableInv(s);
    StepKeepsInv(s, BeginPush(item));
    var run, t := PushFinishesAlone(Next(s, BeginPush(item)));
  }
}
