/** The `run` loop always comes to its end: at once when the feeder is done, and from every state in some way. */
module RingDrainProgress {
  import opened SpscRing
  import opened SpscRingSafety
  import opened SpscRingTheorems
  import opened SpscRingProgress
  import opened SpscRingExtremes
  import opened RingDrain

  // ------------------------------------------------------- the loop on its own

  /** The steps left in the pop under way, if nobody interferes and its compare-and-swap succeeds. */
  function PopRank<T>(s: State<T>): nat {
    match s.consumer
    case Resting => 6
    case Popping(c) =>
      match c
      case LoadHead => 5
      case LoadSeq(p) => if p == s.head then 4 else 6
      case Cas(p) => if p == s.head then 3 else 5
      case Take(_) => 2
      case Free(_, _) => 1
  }

  /** An upper bound on the steps the loop still takes once the feeder is done. */
  function LoopRank<T>(y: System<T>): nat
    requires y.ring.head <= |y.ring.pushed|
  {
    var left := 13 * (|y.ring.pushed| - y.ring.head);
    match y.loop
    case Exited => 0
    case AtFlag => left + 7
    case _ =>
      if y.ring.consumer.Popping? && (y.ring.consumer.claim.Take? || y.ring.consumer.claim.Free?)
      then left + 13 + PopRank(y.ring)
      else left + PopRank(y.ring) + (if y.loop.AtPop? then 7 else 0)
  }

  predicate RunnerFailsSpuriously<T>(y: System<T>, k: Tick) {
    k == Runner(false) && y.ring.consumer == Popping(Cas(y.ring.head))
  }

  /** With nobody else claiming, a sequence number other than the expected two means a stale position. */
  lemma AloneLoadSeq<T>(s: State<T>, p: nat)
    requires Inv(s) && s.producer.Idle? && s.consumer == Popping(LoadSeq(p))
    ensures p == s.head && s.head < |s.pushed| ==> s.seqs[Slot(p, s.cap)] == p + 1
    ensures p == s.head && s.head == |s.pushed| ==> s.seqs[Slot(p, s.cap)] == p
    ensures p < s.head ==> s.seqs[Slot(p, s.cap)] != p
  {
    if p < s.head {
      if s.seqs[Slot(p, s.cap)] == p {
        SeenEmpty(s, p);
      }
    } else if s.head < |s.pushed| {
      FrontIsPublished(s);
    } else {
      assert CellInv(s, Slot(p, s.cap));
      NextIs(s, p);
    }
  }

  lemma PopStepPays<T>(y: System<T>, casOk: bool)
    requires DrainInv(y) && y.done && (y.loop.AtPop? || y.loop.AtLastPop?) && y.ring.consumer.Popping?
    ensures var z := StepRunner(y, casOk);
            && z.ring.head <= |z.ring.pushed|
            && LoopRank(z) < LoopRank(y) + (if RunnerFailsSpuriously(y, Runner(casOk)) then 2 else 0)
  {
    hide Cells, DropInv, Accounts, ProducerInv;
    var c := y.ring.consumer.claim;
    if c.LoadSeq? {
      AloneLoadSeq(y.ring, c.pos);
    }
  }

  lemma RunnerPays<T>(y: System<T>, casOk: bool)
    requires DrainInv(y) && y.done && !y.loop.Exited?
    ensures var z := StepRunner(y, casOk);
            && z.done && z.ring.head <= |z.ring.pushed|
            && LoopRank(z) < LoopRank(y) + (if RunnerFailsSpuriously(y, Runner(casOk)) then 2 else 0)
  {
    if (y.loop.AtPop? || y.loop.AtLastPop?) && y.ring.consumer.Popping? {
      PopStepPays(y, casOk);
    }
  }

  /** The loop's own steps until it exits. */
  ghost function RunnerSteps<T>(y: System<T>, ticks: seq<Tick>): nat
    decreases |ticks|
  {
    if ticks == [] || !y.ring.Shaped() then 0
    else (if ticks[0].Runner? && !y.loop.Exited? then 1 else 0) + RunnerSteps(Step(y, ticks[0]), ticks[1..])
  }

  ghost function RunnerFailures<T>(y: System<T>, ticks: seq<Tick>): nat
    decreases |ticks|
  {
    if ticks == [] || !y.ring.Shaped() then 0
    else (if RunnerFailsSpuriously(y, ticks[0]) then 1 else 0) + RunnerFailures(Step(y, ticks[0]), ticks[1..])
  }

  lemma DoneFeederRests<T>(y: System<T>, casOk: bool)
    requires DrainInv(y) && y.done
    ensures StepFeeder(y, casOk) == y
  {
  }

  lemma DrainBasics<T>(y: System<T>)
    requires DrainInv(y)
    ensures y.ring.Shaped() && y.ring.head <= |y.ring.pushed| <= y.ring.head + y.ring.cap
  {
  }

  lemma {:induction false} DrainPays<T>(y: System<T>, ticks: seq<Tick>)
    requires DrainInv(y) && y.done
    ensures y.ring.head <= |y.ring.pushed|
    ensures RunnerSteps(y, ticks) <= LoopRank(y) + 2 * RunnerFailures(y, ticks)
    decreases |ticks|
  {
    hide DrainInv, LoopRank, StepRunner, StepFeeder, RunnerFailsSpuriously;
    DrainBasics(y);
    if ticks != [] {
      TickKeepsInv(y, ticks[0]);
      match ticks[0] {
        case Feeder(ok) =>
          DoneFeederRests(y, ok);
          NotRunner<T>(y, ok);
        case Runner(ok) =>
          if y.loop.Exited? {
            ExitedRests(y, ok);
          } else {
            RunnerPays(y, ok);
          }
      }
      DrainPays(Step(y, ticks[0]), ticks[1..]);
    }
  }

  lemma NotRunner<T>(y: System<T>, casOk: bool)
    ensures !RunnerFailsSpuriously(y, Feeder(casOk))
  {
  }

  lemma ExitedRests<T>(y: System<T>, casOk: bool)
    requires y.ring.Shaped() && y.loop.Exited?
    ensures StepRunner(y, casOk) == y
  {
  }

  lemma LoopRankBounded<T>(y: System<T>)
    requires y.ring.head <= |y.ring.pushed| <= y.ring.head + y.ring.cap
    ensures LoopRank(y) <= 13 * y.ring.cap + 15
  {
  }

  /**
   Once the feeder is done the loop cannot go on: under every schedule it takes a bounded number of steps,
   plus two for each spurious failure of its compare-and-swap, before it exits.
   */
  lemma DrainIsBounded<T>(cap: nat, blank: T, input: seq<T>, before: seq<Tick>, y: System<T>, ticks: seq<Tick>)
    requires cap >= 2 && Leads(Start(cap, blank, input), before, y) && y.done
    ensures RunnerSteps(y, ticks) <= 13 * cap + 15 + 2 * RunnerFailures(y, ticks)
  {
    StartInv(cap, blank, input);
    ScheduleKeepsInv(Start(cap, blank, input), before, y);
    DrainBasics(y);
    LoopRankBounded(y);
    DrainPays(y, ticks);
    hide DrainInv, LoopRank, Leads, Start;
  }

  // ------------------------------------------------------- from every state

  lemma OneMoreTick<T>(y: System<T>, k: Tick, ticks: seq<Tick>, z: System<T>)
    requires y.ring.Shaped() && Leads(Step(y, k), ticks, z)
    ensures Leads(y, [k] + ticks, z)
  {
    assert ([k] + ticks)[1..] == ticks;
  }

  lemma {:induction false} LoopFinishes<T>(y: System<T>) returns (ticks: seq<Tick>, z: System<T>)
    requires DrainInv(y) && y.done
    ensures Leads(y, ticks, z) && z.loop.Exited?
    decreases LoopRankOf(y)
  {
    if y.loop.Exited? {
      ticks, z := [], y;
    } else {
      hide DrainInv, LoopRank, StepRunner;
      DrainBasics(y);
      RunnerPays(y, true);
      TrueNeverFails(y);
      TickKeepsInv(y, Runner(true));
      var u := StepRunner(y, true);
      DrainBasics(u);
      var rest: seq<Tick>;
      rest, z := LoopFinishes(u);
      ticks := [Runner(true)] + rest;
      OneMoreTick(y, Runner(true), rest, z);
    }
  }

  lemma TrueNeverFails<T>(y: System<T>)
    ensures !RunnerFailsSpuriously(y, Runner(true))
  {
  }

  ghost function LoopRankOf<T>(y: System<T>): nat {
    if y.ring.head <= |y.ring.pushed| then LoopRank(y) else 0
  }

  /** The steps of the loop that free the cell a push is waiting for. */
  function Holding<T>(s: State<T>): nat {
    if s.consumer.Popping? && s.consumer.claim.Take? then 2
    else if s.consumer.Popping? && s.consumer.claim.Free? then 1 else 0
  }

  lemma HolderMoves<T>(y: System<T>)
    requires DrainInv(y) && WaitsForConsumer(y.ring)
    ensures var z := StepRunner(y, true);
            && z.todo == y.todo && z.ring.producer == y.ring.producer && Holding(z.ring) < Holding(y.ring)
  {
    hide Cells, DropInv, Accounts, ProducerInv;
  }

  /** Whatever has happened, the feeder can still finish its list and raise the flag. */
  lemma {:induction false} FeederFinishes<T>(y: System<T>) returns (ticks: seq<Tick>, z: System<T>)
    requires DrainInv(y)
    ensures Leads(y, ticks, z) && DrainInv(z) && z.done
    decreases |y.todo|, y.ring.producer.Pushing?, Holding(y.ring), RankOf(y)
  {
    if y.done {
      ticks, z := [], y;
    } else {
      var k := if WaitsForConsumer(y.ring) then Runner(true) else Feeder(true);
      TickKeepsInv(y, k);
      FeederMoves(y);
      var u := Step(y, k);
      var rest: seq<Tick>;
      if u.done {
        rest, z := [], u;
      } else {
        rest, z := FeederFinishes(u);
      }
      ticks := [k] + rest;
      OneMoreTick(y, k, rest, z);
    }
  }

  ghost function RankOf<T>(y: System<T>): nat {
    if y.ring.Shaped() then Rank(y.ring) else 0
  }

  lemma FeederMoves<T>(y: System<T>)
    requires DrainInv(y) && !y.done
    ensures WaitsForConsumer(y.ring) ==> y.ring.producer.Pushing?
    ensures var u := Step(y, if WaitsForConsumer(y.ring) then Runner(true) else Feeder(true));
            || u.done || |u.todo| < |y.todo|
            || (|u.todo| == |y.todo| && y.ring.producer.Pushing? &&
                  (!u.ring.producer.Pushing? || Holding(u.ring) < Holding(y.ring)
                   || (Holding(u.ring) == Holding(y.ring) && RankOf(u) < RankOf(y))))
  {
    if WaitsForConsumer(y.ring) {
      HolderMoves(y);
    } else if y.ring.producer.Pushing? {
      ProducerMakesProgress(y.ring);
      ProducerStepIsQuiet(y.ring, true);
    }
  }

  /** No schedule ever leads the system astray: from wherever it is, the loop can still come to its exit. */
  lemma DrainCanAlwaysExit<T(!new)>(cap: nat, blank: T, input: seq<T>, ticks: seq<Tick>, y: System<T>)
    requires cap >= 2 && Leads(Start(cap, blank, input), ticks, y)
    ensures exists more: seq<Tick>, z: System<T> ::
              Leads(Start(cap, blank, input), ticks + more, z) && Leads(y, more, z) && z.loop.Exited?
  {
    StartInv(cap, blank, input);
    ScheduleKeepsInv(Start(cap, blank, input), ticks, y);
    var t1, u := FeederFinishes(y);
    var t2, z := LoopFinishes(u);
    LeadsTrans(y, t1, u, t2, z);
    LeadsTrans(Start(cap, blank, input), ticks, y, t1 + t2, z);
  }

  lemma {:induction false} LeadsTrans<T>(y: System<T>, t1: seq<Tick>, u: System<T>, t2: seq<Tick>, z: System<T>)
    requires Leads(y, t1, u) && Leads(u, t2, z)
    ensures Leads(y, t1 + t2, z)
    decreases |t1|
  {
    if t1 == [] {
      assert t1 + t2 == t2;
    } else {
      assert (t1 + t2)[1..] == t1[1..] + t2;
      LeadsTrans(Step(y, t1[0]), t1[1..], u, t2, z);
    }
  }
}
