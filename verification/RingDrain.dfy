/**
 The queue with its two clients: a feeder that pushes a fixed list of events and then raises the
 done flag, and a `run` loop that pops until it sees the flag and one more pop comes back empty.
 The same loop is used by the live consumer, the book registry and the scoring worker.
 */
module RingDrain {
  import opened SpscRing
  import opened SpscRingSafety
  import opened SpscRingTheorems
  import opened CellIndex

  /** Position in the `run` loop: first pop, flag load, pop after the flag, loop left. */
  datatype Loop = AtPop | AtFlag | AtLastPop | Exited

  /** `todo` is what the feeder still has to push; `input` (auxiliary) is the whole list. */
  datatype System<T> = System(ring: State<T>, todo: seq<T>, done: bool, loop: Loop, input: seq<T>)

  function Start<T>(cap: nat, blank: T, input: seq<T>): System<T> {
    System(Init(cap, blank), input, false, AtPop, input)
  }

  datatype Tick = Feeder(casOk: bool) | Runner(casOk: bool)

  function StepFeeder<T>(y: System<T>, casOk: bool): System<T>
    requires y.ring.Shaped()
  {
    if y.ring.producer.Pushing? then y.(ring := Next(y.ring, StepPush(casOk)))
    else if y.todo != [] then y.(ring := Next(y.ring, BeginPush(y.todo[0])), todo := y.todo[1..])
    else y.(done := true)
  }

  function StepRunner<T>(y: System<T>, casOk: bool): System<T>
    requires y.ring.Shaped()
  {
    match y.loop
    case Exited => y
    case AtFlag => y.(loop := if y.done then AtLastPop else AtPop)
    case _ =>
      if y.ring.consumer.Resting? then y.(ring := Next(y.ring, BeginPop))
      else
        var r := Next(y.ring, StepPop(casOk));
        if r.consumer.Popping? then y.(ring := r)
        else if |r.popped| > |y.ring.popped| then y.(ring := r, loop := AtPop)
        else if y.loop.AtPop? then y.(ring := r, loop := AtFlag)
        else y.(ring := r, loop := Exited)
  }

  function Step<T>(y: System<T>, k: Tick): System<T>
    requires y.ring.Shaped()
  {
    match k
    case Feeder(ok) => StepFeeder(y, ok)
    case Runner(ok) => StepRunner(y, ok)
  }

  /** `z` is reached from `y` under the schedule `ticks`. */
  ghost predicate Leads<T>(y: System<T>, ticks: seq<Tick>, z: System<T>)
    decreases |ticks|
  {
    if ticks == [] then y == z
    else y.ring.Shaped() && Leads(Step(y, ticks[0]), ticks[1..], z)
  }

  /** What the feeder has taken from its list and not published yet. */
  function InHand<T>(p: Producer<T>): seq<T> {
    if p.Pushing? && !p.pc.StoreTail? then [p.item] else []
  }

  ghost predicate DrainInv<T>(y: System<T>) {
    && Inv(y.ring)
    && y.input == y.ring.pushed + InHand(y.ring.producer) + y.todo
    && (y.done ==> y.todo == [] && y.ring.producer.Idle?)
    && (y.loop.AtLastPop? || y.loop.Exited? ==> y.done)
    && (y.loop.AtFlag? || y.loop.Exited? ==> y.ring.consumer.Resting?)
    && (y.loop.Exited? ==> y.ring.head == |y.ring.pushed|)
    && (|y.input| <= y.ring.cap ==>
          && Picked(y.ring.pushed, y.ring.claims, ByProducer) == []
          && (y.ring.producer.Pushing? ==> !y.ring.producer.pc.Claiming? && !y.ring.producer.pc.Count?))
  }

  lemma FeederKeepsInv<T>(y: System<T>, casOk: bool)
    requires DrainInv(y)
    ensures DrainInv(StepFeeder(y, casOk))
  {
    if y.ring.producer.Pushing? {
      FeederPushStep(y, casOk);
    } else if y.todo != [] {
      StepKeepsInv(y.ring, BeginPush(y.todo[0]));
    }
  }

  /** One step inside `push`: what the feeder and the loop can observe of it. */
  lemma PushStepEffect<T>(s: State<T>, casOk: bool)
    requires Inv(s) && s.producer.Pushing?
    ensures var t := StepProducer(s, casOk);
            && t.cap == s.cap && t.consumer == s.consumer && t.popped == s.popped
            && t.pushed + InHand(t.producer) == s.pushed + InHand(s.producer)
  {
    if s.producer.pc.Claiming? {
      ClaimStepEffect(s, casOk);
    }
  }

  lemma ClaimStepEffect<T>(s: State<T>, casOk: bool)
    requires s.Shaped() && s.producer.Pushing? && s.producer.pc.Claiming?
    ensures var t := StepProducer(s, casOk);
            && t.cap == s.cap && t.consumer == s.consumer && t.popped == s.popped && t.pushed == s.pushed
            && t.producer.Pushing? && t.producer.item == s.producer.item && !t.producer.pc.StoreTail?
  {
  }

  /** With room for every push, the wanted cell is always vacated and the producer never claims. */
  lemma PushStepWithRoom<T>(s: State<T>, casOk: bool)
    requires Inv(s) && s.producer.Pushing? && !s.producer.pc.Claiming? && !s.producer.pc.Count?
    requires |s.pushed| + |InHand(s.producer)| <= s.cap && Picked(s.pushed, s.claims, ByProducer) == []
    ensures var t := StepProducer(s, casOk);
            && |t.claims| <= |t.pushed| && Picked(t.pushed, t.claims, ByProducer) == []
            && (t.producer.Pushing? ==> !t.producer.pc.Claiming? && !t.producer.pc.Count?)
  {
    if s.producer.pc.Publish? {
      PickedIgnoresTail(s.pushed, s.producer.item, s.claims, ByProducer);
    } else if s.producer.pc.Check? && s.seqs[Slot(s.producer.pos, s.cap)] != s.producer.pos {
      SeenFull(s);
    }
  }

  lemma FeederPushStep<T>(y: System<T>, casOk: bool)
    requires DrainInv(y) && y.ring.producer.Pushing?
    ensures DrainInv(StepFeeder(y, casOk))
  {
    StepKeepsInv(y.ring, StepPush(casOk));
    PushStepEffect(y.ring, casOk);
    if |y.input| <= y.ring.cap {
      PushStepWithRoom(y.ring, casOk);
    }
  }

  lemma RunnerKeepsInv<T>(y: System<T>, casOk: bool)
    requires DrainInv(y)
    ensures DrainInv(StepRunner(y, casOk))
  {
    var s := y.ring;
    if y.loop.AtPop? || y.loop.AtLastPop? {
      if s.consumer.Resting? {
        StepKeepsInv(s, BeginPop);
      } else {
        RunnerPopStep(y, casOk);
      }
    }
  }

  /** One step inside `pop`: what the loop can observe of it. */
  lemma PopStepEffect<T>(s: State<T>, casOk: bool)
    requires Inv(s) && s.consumer.Popping?
    ensures var t := Next(s, StepPop(casOk));
            && t.cap == s.cap && t.pushed == s.pushed && t.producer == s.producer
            && Picked(t.pushed, t.claims, ByProducer) == Picked(s.pushed, s.claims, ByProducer)
            && (t.consumer.Resting? && |t.popped| <= |s.popped| ==> t.head == |t.pushed|)
  {
    if s.consumer.claim.LoadSeq? {
      QuietClaimStep(s, s.consumer.claim, ByConsumer, casOk);
    } else if s.consumer.claim.Cas? && s.head == s.consumer.claim.pos {
      PickedClaim(s.pushed, s.claims, ByConsumer, ByProducer);
    }
  }

  lemma RunnerPopStep<T>(y: System<T>, casOk: bool)
    requires DrainInv(y) && (y.loop.AtPop? || y.loop.AtLastPop?) && y.ring.consumer.Popping?
    ensures DrainInv(StepRunner(y, casOk))
  {
    StepKeepsInv(y.ring, StepPop(casOk));
    PopStepEffect(y.ring, casOk);
  }

  lemma TickKeepsInv<T>(y: System<T>, k: Tick)
    requires DrainInv(y)
    ensures DrainInv(Step(y, k))
  {
    match k
    case Feeder(ok) => FeederKeepsInv(y, ok);
    case Runner(ok) => RunnerKeepsInv(y, ok);
  }

  lemma TickKeepsInput<T>(y: System<T>, k: Tick)
    requires y.ring.Shaped()
    ensures Step(y, k).input == y.input && Step(y, k).ring.cap == y.ring.cap
  {
  }

  lemma {:induction false} ScheduleKeepsInv<T>(y: System<T>, ticks: seq<Tick>, z: System<T>)
    requires DrainInv(y) && Leads(y, ticks, z)
    ensures DrainInv(z) && z.input == y.input && z.ring.cap == y.ring.cap
    decreases |ticks|
  {
    if ticks != [] {
      TickKeepsInv(y, ticks[0]);
      TickKeepsInput(y, ticks[0]);
      ScheduleKeepsInv(Step(y, ticks[0]), ticks[1..], z);
    }
  }

  lemma StartInv<T>(cap: nat, blank: T, input: seq<T>)
    requires cap >= 2
    ensures DrainInv(Start(cap, blank, input))
  {
    InitInv(cap, blank);
  }

  /**
   However the two threads are scheduled, once the loop has exited every pushed event was either
   processed, in push order, or counted as dropped.
   */
  lemma DrainAccountsForEverything<T>(cap: nat, blank: T, input: seq<T>, ticks: seq<Tick>, z: System<T>)
    requires cap >= 2 && Leads(Start(cap, blank, input), ticks, z) && z.loop.Exited?
    ensures z.ring.pushed == input && z.done && z.ring.producer.Idle? && z.ring.consumer.Resting?
    ensures |z.ring.popped| + z.ring.dropCount == |input|
    ensures |z.ring.claims| == |input| && z.ring.popped == Picked(input, z.ring.claims, ByConsumer)
  {
    StartInv(cap, blank, input);
    ScheduleKeepsInv(Start(cap, blank, input), ticks, z);
    PickedSplit(z.ring.pushed, z.ring.claims);
  }

  lemma {:induction false} PickedAll<T>(pushed: seq<T>, claims: seq<Taker>)
    requires |claims| <= |pushed| && Picked(pushed, claims, ByProducer) == []
    ensures Picked(pushed, claims, ByConsumer) == pushed[..|claims|]
  {
    if claims != [] {
      var n := |claims| - 1;
      PickedAll(pushed, claims[..n]);
      assert pushed[..n + 1] == pushed[..n] + [pushed[n]];
    }
  }

  /** With room for all pushes, no schedule drops anything: at every moment, and at the exit. */
  lemma RoomForAllMeansNoDrops<T>(cap: nat, blank: T, input: seq<T>, ticks: seq<Tick>, z: System<T>)
    requires cap >= 2 && |input| <= cap && Leads(Start(cap, blank, input), ticks, z)
    ensures z.ring.dropCount == 0 && z.ring.popped <= input
    ensures z.loop.Exited? ==> z.ring.popped == input
  {
    StartInv(cap, blank, input);
    ScheduleKeepsInv(Start(cap, blank, input), ticks, z);
    PickedAll(z.ring.pushed, z.ring.claims);
    var r := z.ring;
    assert r.popped <= r.popped + Pending(r) == r.pushed[..r.head];
    assert r.pushed[..r.head] <= input;
  }

  /** What a client that handles events one at a time has computed after `events`. */
  function Fold<S, T>(handle: (S, T) -> S, start: S, events: seq<T>): S {
    if events == [] then start
    else handle(Fold(handle, start, events[..|events| - 1]), events[|events| - 1])
  }

  // --------------------------------------------------- capacity of the replay

  /** The capacity a replay of `n` events is given: the least power of two that is at least `n` and 1024. */
  method RingBufferCapacityFor(n: nat) returns (capacity: nat)
    ensures capacity >= n && capacity >= 1024 && AcceptableCapacity(capacity)
    ensures capacity == 1024 || capacity / 2 < n
  {
    capacity := 1024;
    while capacity < n
      invariant AcceptableCapacity(capacity) && capacity >= 1024
      invariant capacity == 1024 || capacity / 2 < n
      decreases n - capacity
    {
      capacity := capacity * 2;
      assert capacity / 2 < n;
    }
  }
}
