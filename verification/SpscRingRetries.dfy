/**
 How often `push` can retry under any schedule of both threads: without bound only while the consumer
 sits between its CAS and its store on the wanted cell.
 */
module SpscRingRetries {
  import opened SpscRing
  import opened SpscRingSafety
  import opened SpscRingTheorems
  import opened SpscRingProgress

  /** The index whose cell the push wants is still unclaimed, or the consumer has not let go of it yet. */
  predicate Open<T>(s: State<T>) {
    s.producer.Pushing? && s.producer.pos >= s.cap
    && (s.producer.pos - s.cap >= s.head || s.consumer.Holds(s.producer.pos - s.cap))
  }

  /** How many indices the consumer can still win while this push is looking for one. */
  function Unclaimed<T>(s: State<T>): nat {
    if s.producer.Pushing? && !s.producer.pc.StoreTail? && s.head <= |s.pushed| then |s.pushed| - s.head else 0
  }

  /** An upper bound on the steps the push can take, outside waiting, before it is done. */
  function Energy<T>(s: State<T>): nat
    requires s.Shaped()
  {
    (if WaitsForConsumer(s) then 0 else Rank(s)) + 3 * Unclaimed(s) + (if Open(s) then 13 else 0)
  }

  /** The consumer's own steps that this push may still have to wait for. */
  function Expects<T>(s: State<T>): nat {
    if !Open(s) then 0
    else if s.consumer.Popping? && s.consumer.claim.Free? && s.consumer.Holds(s.producer.pos - s.cap) then 1
    else 2
  }

  /** A compare-and-swap that fails although nobody else has moved the head. */
  predicate FailsSpuriously<T>(s: State<T>, a: Action<T>) {
    a == StepPush(false) && s.producer.Pushing? && s.producer.pc == Claiming(Cas(s.head))
  }

  // ------------------------------------------------------------ one step at a time

  lemma WantedNotHeldAfterwards<T>(s: State<T>)
    requires Inv(s) && WaitsForConsumer(s)
    ensures s.producer.pc.Check? || s.producer.pc.Claiming? || s.producer.pc.Count?
  {
    HeldCell(s, s.producer.pos - s.cap);
  }

  lemma WaitingStepIsFree<T>(s: State<T>, casOk: bool)
    requires Inv(s) && WaitsForConsumer(s)
    ensures Energy(StepProducer(s, casOk)) <= Energy(s)
  {
    WantedNotHeldAfterwards(s);
    SpinStepWaits(s, casOk);
  }

  /** The rank falls whatever the compare-and-swap does, unless it fails spuriously. */
  lemma RankFalls<T>(s: State<T>, casOk: bool)
    requires Inv(s) && s.producer.Pushing? && !WaitsForConsumer(s)
    ensures Rank(StepProducer(s, casOk)) < Rank(s) + (if FailsSpuriously(s, StepPush(casOk)) then 2 else 0)
  {
    hide Inv;
    ProducerMakesProgress(s);
  }

  lemma ProducerReopensNothing<T>(s: State<T>, casOk: bool)
    requires Inv(s) && s.producer.Pushing?
    ensures var t := StepProducer(s, casOk);
            Unclaimed(t) <= Unclaimed(s) && (Open(t) ==> Open(s)) && (Expects(t) <= Expects(s))
  {
    hide Cells, DropInv, Accounts;
  }

  lemma BusyStepPays<T>(s: State<T>, casOk: bool)
    requires Inv(s) && s.producer.Pushing? && !WaitsForConsumer(s)
    ensures Energy(StepProducer(s, casOk)) < Energy(s) + (if FailsSpuriously(s, StepPush(casOk)) then 2 else 0)
  {
    hide Inv, Rank, Unclaimed, Open, StepProducer, FailsSpuriously;
    RankFalls(s, casOk);
    ProducerReopensNothing(s, casOk);
  }

  lemma CellIsSound<T>(s: State<T>, c: nat)
    requires Inv(s) && c < s.cap
    ensures CellInv(s, c)
  {
  }

  lemma FreeingPays<T>(s: State<T>, casOk: bool)
    requires Inv(s) && s.producer.Pushing? && s.consumer.Popping? && s.consumer.claim.Free?
    ensures Energy(StepConsumer(s, casOk)) <= Energy(s)
  {
    hide Cells, DropInv, Accounts;
    var h := s.consumer.claim.pos;
    HeldCell(s, h);
    if !s.producer.pc.StoreTail? && Slot(s.producer.pos, s.cap) == Slot(h, s.cap) {
      assert CellInv(s, Slot(h, s.cap)) by { CellIsSound(s, Slot(h, s.cap)); }
      NextIs(s, s.producer.pos);
    }
  }

  lemma ConsumerStepIsFree<T>(s: State<T>, casOk: bool)
    requires Inv(s) && s.producer.Pushing? && s.consumer.Popping?
    ensures Energy(StepConsumer(s, casOk)) <= Energy(s)
  {
    hide Cells, DropInv, Accounts;
    if s.consumer.claim.Free? {
      FreeingPays(s, casOk);
    }
  }

  lemma ConsumerReopensNothing<T>(s: State<T>, a: Action<T>)
    requires Inv(s) && s.producer.Pushing? && Enabled(s, a) && (a.BeginPop? || a.StepPop?)
    ensures Expects(Next(s, a)) <= Expects(s) - (if a.StepPop? && WaitsForConsumer(s) then 1 else 0)
  {
    hide Cells, DropInv, Accounts;
  }

  // ------------------------------------------------------------------ whole runs

  predicate IsBusy<T>(s: State<T>, a: Action<T>) {
    a.StepPush? && !WaitsForConsumer(s)
  }

  /** The producer's steps during one push, leaving out those it takes while it waits for the consumer. */
  ghost function BusySteps<T>(s: State<T>, run: seq<Action<T>>): nat
    requires SamePush(s, run)
    decreases |run|
  {
    if run == [] then 0 else (if IsBusy(s, run[0]) then 1 else 0) + BusySteps(Next(s, run[0]), run[1..])
  }

  ghost function SpuriousSteps<T>(s: State<T>, run: seq<Action<T>>): nat
    requires SamePush(s, run)
    decreases |run|
  {
    if run == [] then 0 else (if FailsSpuriously(s, run[0]) then 1 else 0) + SpuriousSteps(Next(s, run[0]), run[1..])
  }

  /** The consumer's steps while the push waits for it. */
  ghost function AwaitedSteps<T>(s: State<T>, run: seq<Action<T>>): nat
    requires SamePush(s, run)
    decreases |run|
  {
    if run == [] then 0
    else (if run[0].StepPop? && WaitsForConsumer(s) then 1 else 0) + AwaitedSteps(Next(s, run[0]), run[1..])
  }

  lemma StepPays<T>(s: State<T>, a: Action<T>)
    requires Inv(s) && s.producer.Pushing? && Enabled(s, a)
    ensures Energy(Next(s, a)) + (if IsBusy(s, a) then 1 else 0) <= Energy(s) + (if FailsSpuriously(s, a) then 2 else 0)
    ensures Expects(Next(s, a)) + (if a.StepPop? && WaitsForConsumer(s) then 1 else 0) <= Expects(s)
  {
    hide Inv, StepProducer, StepConsumer, FailsSpuriously;
    match a {
      case StepPush(ok) =>
        ProducerReopensNothing(s, ok);
        if WaitsForConsumer(s) { WaitingStepIsFree(s, ok); } else { BusyStepPays(s, ok); }
      case StepPop(ok) =>
        ConsumerStepIsFree(s, ok);
        ConsumerReopensNothing(s, a);
      case BeginPop =>
        ConsumerReopensNothing(s, a);
    }
  }

  lemma {:induction false} RunPays<T>(s: State<T>, run: seq<Action<T>>)
    requires Inv(s) && SamePush(s, run)
    ensures BusySteps(s, run) <= Energy(s) + 2 * SpuriousSteps(s, run)
    ensures AwaitedSteps(s, run) <= Expects(s)
    decreases |run|
  {
    if run != [] {
      hide Inv, Energy, Expects, Next, IsBusy, FailsSpuriously, WaitsForConsumer;
      StepPays(s, run[0]);
      StepKeepsInv(s, run[0]);
      RunPays(Next(s, run[0]), run[1..]);
    }
  }

  /**
   Under every schedule of both threads: outside waiting, one push takes at most a fixed number of steps
   plus two for each spurious failure of its compare-and-swap, however often the consumer overtakes it.
   And it waits for at most two steps of the consumer, those between its CAS and its store.
   */
  lemma PushSpinsOnlyWaiting<T(!new)>(s: State<T>, item: T, run: seq<Action<T>>)
    requires Reachable(s) && s.producer.Idle?
    requires s.Shaped() && SamePush(Next(s, BeginPush(item)), run)
    ensures var u := Next(s, BeginPush(item));
            && BusySteps(u, run) <= 26 + 3 * s.cap + 2 * SpuriousSteps(u, run)
            && AwaitedSteps(u, run) <= 2
  {
    ReachableInv(s);
    StepKeepsInv(s, BeginPush(item));
    RunPays(Next(s, BeginPush(item)), run);
  }
}
