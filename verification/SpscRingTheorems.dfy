/** What every interleaving of `push` and `pop` guarantees, stated on reachable states. */
module SpscRingTheorems {
  import opened SpscRing
  import opened SpscRingSafety

  ghost predicate Reachable<T(!new)>(s: State<T>) {
    s.cap >= 2 && exists run: seq<Action<T>> :: Reaches(Init(s.cap, s.blank), run, s)
  }

  lemma ReachableInv<T(!new)>(s: State<T>)
    requires Reachable(s)
    ensures Inv(s)
  {
    var run: seq<Action<T>> :| Reaches(Init(s.cap, s.blank), run, s);
    InitInv(s.cap, s.blank);
    RunKeepsInv(Init(s.cap, s.blank), run, s);
  }

  // ----------------------------------------------------- ownership of a cell

  /** Cell `c` is free for the push of some logical index of the current lap. */
  ghost predicate Vacated<T>(s: State<T>, c: nat)
    requires s.Shaped() && c < s.cap
  {
    exists i: nat :: Slot(i, s.cap) == c && |s.pushed| <= i < |s.pushed| + s.cap && s.seqs[c] == i
  }

  /** Cell `c` holds the value of some published, unclaimed index. */
  ghost predicate Published<T>(s: State<T>, c: nat)
    requires s.Shaped() && c < s.cap
  {
    exists i: nat :: Slot(i, s.cap) == c && s.head <= i < |s.pushed| && s.seqs[c] == i + 1 && s.data[c] == s.pushed[i]
  }

  /** Some thread has won the index in cell `c` and has not freed the cell yet. */
  ghost predicate Claimed<T>(s: State<T>, c: nat)
    requires s.Shaped() && c < s.cap
  {
    exists i: nat :: Slot(i, s.cap) == c && i < s.head && s.seqs[c] == i + 1 && InFlight(s, i)
  }

  lemma CellIsInOneState<T(!new)>(s: State<T>, c: nat)
    requires Reachable(s) && c < s.cap
    ensures s.Shaped()
    ensures Vacated(s, c) || Published(s, c) || Claimed(s, c)
    ensures !(Vacated(s, c) && Published(s, c))
    ensures !(Vacated(s, c) && Claimed(s, c))
    ensures !(Published(s, c) && Claimed(s, c))
  {
    ReachableInv(s);
    assert CellInv(s, c);
    var n := s.next[c];
    if Occupied(s, n - s.cap) {
      assert Slot(n - s.cap, s.cap) == c;
    } else {
      assert Slot(n, s.cap) == c && s.seqs[c] == n;
    }
    forall i: nat, j: nat | Slot(i, s.cap) == c && Slot(j, s.cap) == c && i == j + 1
      ensures false
    {
      SameCellFarApart(j, i, s.cap);
    }
  }

  /** The producer may touch the data of cell `c`: it is about to fill it, or it has claimed it. */
  predicate ProducerOwns<T>(s: State<T>, c: nat)
    requires s.cap >= 1
  {
    s.producer.Pushing? &&
    (((s.producer.pc.Write? || s.producer.pc.Publish?) && c == Slot(s.producer.pos, s.cap))
     || (s.producer.pc.Claiming? && (s.producer.pc.claim.Take? || s.producer.pc.claim.Free?) && c == Slot(s.producer.pc.claim.pos, s.cap)))
  }

  predicate ConsumerOwns<T>(s: State<T>, c: nat)
    requires s.cap >= 1
  {
    s.consumer.Popping? && (s.consumer.claim.Take? || s.consumer.claim.Free?) && c == Slot(s.consumer.claim.pos, s.cap)
  }

  lemma CellHasOneOwner<T(!new)>(s: State<T>, c: nat)
    requires Reachable(s) && c < s.cap
    ensures !(ProducerOwns(s, c) && ConsumerOwns(s, c))
  {
    ReachableInv(s);
    if ConsumerOwns(s, c) {
      HeldCell(s, s.consumer.claim.pos);
      if s.producer.Pushing? && s.producer.pc.Claiming? {
        if s.producer.pc.claim.Take? || s.producer.pc.claim.Free? {
          HoldersApart(s, s.producer.pc.claim.pos, s.consumer.claim.pos);
        }
      } else if s.producer.Pushing? && (s.producer.pc.Write? || s.producer.pc.Publish?) {
        SeenVacated(s);
      }
    }
  }

  /** The claimer of index `i` takes the value of the `i`-th push, whichever thread it is. */
  lemma ClaimerTakesItsIndex<T(!new)>(s: State<T>, a: Action<T>, i: nat)
    requires Reachable(s) && Enabled(s, a)
    requires a.StepPop? ==> s.consumer.claim == Take(i)
    requires a.StepPush? ==> s.producer.pc == Claiming(Take(i))
    requires a.StepPop? || a.StepPush?
    ensures i < |s.pushed| && s.Shaped()
    ensures a.StepPop? ==> Next(s, a).consumer == Popping(Free(i, s.pushed[i]))
    ensures a.StepPush? ==> Next(s, a).producer.pc == Claiming(Free(i, s.pushed[i]))
  {
    ReachableInv(s);
  }

  // -------------------------------------------------------------- accounting

  /** The indices `who` has claimed, in the order they were claimed. */
  function Indices(claims: seq<Taker>, who: Taker): seq<nat> {
    if claims == [] then []
    else
      var n := |claims| - 1;
      Indices(claims[..n], who) + (if claims[n] == who then [n] else [])
  }

  ghost predicate StrictlyIncreasing(ns: seq<nat>) {
    forall i, j :: 0 <= i < j < |ns| ==> ns[i] < ns[j]
  }

  lemma {:induction false} PickedFollowsIndices<T>(pushed: seq<T>, claims: seq<Taker>, who: Taker)
    requires |claims| <= |pushed|
    ensures StrictlyIncreasing(Indices(claims, who))
    ensures forall k :: 0 <= k < |Indices(claims, who)| ==> Indices(claims, who)[k] < |claims|
    ensures |Picked(pushed, claims, who)| == |Indices(claims, who)|
    ensures forall k :: 0 <= k < |Indices(claims, who)| ==>
              Picked(pushed, claims, who)[k] == pushed[Indices(claims, who)[k]]
  {
    if claims != [] {
      PickedFollowsIndices(pushed, claims[..|claims| - 1], who);
    }
  }

  lemma {:induction false} IndicesPartition(claims: seq<Taker>, i: nat)
    requires i < |claims|
    ensures i in Indices(claims, ByConsumer) <==> claims[i] == ByConsumer
    ensures i in Indices(claims, ByProducer) <==> claims[i] == ByProducer
  {
    var n := |claims| - 1;
    if i < n {
      IndicesPartition(claims[..n], i);
    } else {
      IndicesBounded(claims[..n], ByConsumer);
      IndicesBounded(claims[..n], ByProducer);
    }
  }

  lemma {:induction false} IndicesBounded(claims: seq<Taker>, who: Taker)
    ensures forall i :: i in Indices(claims, who) ==> i < |claims|
  {
    if claims != [] {
      IndicesBounded(claims[..|claims| - 1], who);
    }
  }

  lemma {:induction false} PickedSplit<T>(pushed: seq<T>, claims: seq<Taker>)
    requires |claims| <= |pushed|
    ensures |Picked(pushed, claims, ByConsumer)| + |Picked(pushed, claims, ByProducer)| == |claims|
  {
    if claims != [] {
      PickedSplit(pushed, claims[..|claims| - 1]);
    }
  }

  /** Nothing is lost and nothing is counted twice, at any moment of any run. */
  lemma Conservation<T(!new)>(s: State<T>)
    requires Reachable(s)
    ensures |s.pushed| == |s.popped| + s.dropCount + |Pending(s)| + Uncounted(s.producer) + (|s.pushed| - s.head)
    ensures s.head <= |s.pushed| <= s.head + s.cap
  {
    ReachableInv(s);
    PickedSplit(s.pushed, s.claims);
  }

  /** Popped and dropped indices partition the claimed prefix; popped values keep the push order. */
  lemma PoppedInPushOrder<T(!new)>(s: State<T>)
    requires Reachable(s)
    ensures |s.claims| == s.head <= |s.pushed|
    ensures forall i: nat :: i < s.head ==> (i in Indices(s.claims, ByConsumer) <==> i !in Indices(s.claims, ByProducer))
    ensures var idx := Indices(s.claims, ByConsumer);
            && StrictlyIncreasing(idx)
            && |idx| == |s.popped| + |Pending(s)|
            && (forall k :: 0 <= k < |s.popped| ==> idx[k] < |s.pushed| && s.popped[k] == s.pushed[idx[k]])
  {
    ReachableInv(s);
    forall i: nat | i < s.head
      ensures i in Indices(s.claims, ByConsumer) <==> i !in Indices(s.claims, ByProducer)
    {
      IndicesPartition(s.claims, i);
    }
    PickedFollowsIndices(s.pushed, s.claims, ByConsumer);
    var idx, picked := Indices(s.claims, ByConsumer), Picked(s.pushed, s.claims, ByConsumer);
    forall k | 0 <= k < |s.popped|
      ensures idx[k] < |s.pushed| && s.popped[k] == s.pushed[idx[k]]
    {
      assert picked[k] == s.popped[k];
    }
  }

  /** `pop` answers false only if nothing published was unclaimed when it read the cell's sequence. */
  lemma PopFailsOnlyWhenEmpty<T(!new)>(s: State<T>, casOk: bool)
    requires Reachable(s) && s.consumer.Popping?
    ensures s.Shaped()
    ensures var t := Next(s, StepPop(casOk));
            t.consumer.Resting? && t.popped == s.popped ==> s.head == |s.pushed|
  {
    ReachableInv(s);
    if s.consumer.claim.LoadSeq? {
      QuietClaimStep(s, s.consumer.claim, ByConsumer, casOk);
    } else if s.consumer.claim.Free? {
      assert |s.popped + [s.consumer.claim.value]| == |s.popped| + 1;
    }
  }

  // ------------------------------------------------------------- drop bound

  /** The producer is inside one and the same `push` during the whole run. */
  ghost predicate SamePush<T>(s: State<T>, run: seq<Action<T>>)
    decreases |run|
  {
    s.producer.Pushing? &&
    (run == [] || (s.Shaped() && Enabled(s, run[0]) && SamePush(Next(s, run[0]), run[1..])))
  }

  lemma {:induction false} DropsDuringPush<T>(s: State<T>, run: seq<Action<T>>, t: State<T>)
    requires SamePush(s, run) && Reaches(s, run, t)
    ensures t.producer.Pushing? && t.producer.item == s.producer.item
    ensures t.dropCount - t.producer.drops == s.dropCount - s.producer.drops
    decreases |run|
  {
    if run != [] {
      var u := Next(s, run[0]);
      assert u.producer.item == s.producer.item && u.dropCount - u.producer.drops == s.dropCount - s.producer.drops;
      DropsDuringPush(u, run[1..], t);
    }
  }

  /**
   One `push`, from its call to its return, discards at most `cap - 1` elements, all of them
   older than the one it adds, and answers `true` exactly when it discarded none.
   */
  lemma PushDropBound<T(!new)>(s: State<T>, item: T, run: seq<Action<T>>, t: State<T>)
    requires Reachable(s) && s.producer.Idle?
    requires s.Shaped() && SamePush(Next(s, BeginPush(item)), run) && Reaches(Next(s, BeginPush(item)), run, t)
    requires t.producer.Pushing? && t.producer.pc.StoreTail?
    ensures 0 <= t.dropCount - s.dropCount <= s.cap - 1
    ensures !t.producer.dropped <==> t.dropCount == s.dropCount
    ensures t.head <= t.producer.pos + 1 == |t.pushed| && t.pushed[t.producer.pos] == item
  {
    var s1 := Next(s, BeginPush(item));
    ReachableInv(s);
    StepKeepsInv(s, BeginPush(item));
    RunKeepsInv(s1, run, t);
    DropsDuringPush(s1, run, t);
    CapacityIsConstant(s1, run, t);
  }

  lemma {:induction false} CapacityIsConstant<T>(s: State<T>, run: seq<Action<T>>, t: State<T>)
    requires Reaches(s, run, t)
    ensures t.cap == s.cap && t.blank == s.blank
    decreases |run|
  {
    if run != [] {
      CapacityIsConstant(Next(s, run[0]), run[1..], t);
    }
  }

  /** An element the producer discards was published before the one being pushed. */
  lemma DroppedIsOlder<T(!new)>(s: State<T>, i: nat)
    requires Reachable(s) && s.producer.Holds(i)
    ensures i < s.producer.pos
  {
    ReachableInv(s);
  }

  // ------------------------------------------------- why one cell is not enough

  /** Every unclaimed element is still in its cell. */
  ghost predicate NothingOverwritten<T>(s: State<T>) {
    s.Shaped() && |s.pushed| <= s.head + s.cap &&
    forall i: nat | s.head <= i < |s.pushed| :: s.data[Slot(i, s.cap)] == s.pushed[i]
  }

  function PushRun<T>(item: T): seq<Action<T>> {
    [BeginPush(item), StepPush(true), StepPush(true), StepPush(true), StepPush(true)]
  }

  /** A push that finds its cell vacated, with the consumer asleep. */
  lemma PushAlone<T>(s: State<T>, item: T)
    requires s.Shaped() && s.producer.Idle? && s.seqs[Slot(s.tail, s.cap)] == s.tail
    ensures var c := Slot(s.tail, s.cap);
            Reaches(s, PushRun(item), s.(data := s.data[c := item], seqs := s.seqs[c := s.tail + 1],
                                         pushed := s.pushed + [item], next := s.next[c := s.tail + s.cap],
                                         tail := s.tail + 1))
  {
    hide Reaches, Next, Enabled, Slot;
    var p: Action<T> := StepPush(true);
    var c, push := Slot(s.tail, s.cap), Pushing(item, s.tail, false, 0, Check);
    var s1 := s.(producer := push);
    var s2 := s1.(producer := push.(pc := Write));
    var s3 := s2.(data := s.data[c := item], producer := push.(pc := Publish));
    var s4 := s3.(seqs := s.seqs[c := s.tail + 1], pushed := s.pushed + [item], next := s.next[c := s.tail + s.cap],
                  producer := push.(pc := StoreTail));
    BeginStep(s, item);
    VacatedStep(s1);
    StoringStep(s2);
    StoringStep(s3);
    StoringStep(s4);
    FiveSteps(s, BeginPush(item), p, s1, s2, s3, s4, s4.(tail := s.tail + 1, producer := Idle));
  }

  lemma BeginStep<T>(s: State<T>, item: T)
    requires s.Shaped() && s.producer.Idle?
    ensures Enabled(s, BeginPush(item)) && Next(s, BeginPush(item)) == s.(producer := Pushing(item, s.tail, false, 0, Check))
  {
  }

  lemma VacatedStep<T>(s: State<T>)
    requires s.Shaped() && s.producer.Pushing? && s.producer.pc.Check?
    requires s.seqs[Slot(s.producer.pos, s.cap)] == s.producer.pos
    ensures Enabled(s, StepPush(true)) && Next(s, StepPush(true)) == s.(producer := s.producer.(pc := Write))
  {
  }

  /** The steps of a push that has found its cell vacated. */
  lemma StoringStep<T>(s: State<T>)
    requires s.Shaped() && s.producer.Pushing?
    ensures Enabled(s, StepPush(true))
    ensures var p, c, t := s.producer, Slot(s.producer.pos, s.cap), Next(s, StepPush(true));
            && (p.pc.Write? ==> t == s.(data := s.data[c := p.item], producer := p.(pc := Publish)))
            && (p.pc.Publish? ==>
                  t == s.(seqs := s.seqs[c := p.pos + 1], pushed := s.pushed + [p.item],
                          next := s.next[c := p.pos + s.cap], producer := p.(pc := StoreTail)))
            && (p.pc.StoreTail? ==> t == s.(tail := p.pos + 1, producer := Idle))
  {
  }

  lemma FiveSteps<T>(s: State<T>, a: Action<T>, p: Action<T>, s1: State<T>, s2: State<T>, s3: State<T>, s4: State<T>,
                     s5: State<T>)
    requires s.Shaped() && Enabled(s, a) && s1 == Next(s, a) && s1.Shaped() && Enabled(s1, p) && s2 == Next(s1, p)
    requires s2.Shaped() && Enabled(s2, p) && s3 == Next(s2, p) && s3.Shaped() && Enabled(s3, p) && s4 == Next(s3, p)
    requires s4.Shaped() && Enabled(s4, p) && s5 == Next(s4, p)
    ensures Reaches(s, [a, p, p, p, p], s5)
  {
    hide Reaches, Next, Enabled, State.Shaped;
    StaysPut(s5);
    assert [p] + [] == [p] && [p] + [p] == [p, p] && [p] + [p, p] == [p, p, p] && [p] + [p, p, p] == [p, p, p, p];
    assert [a] + [p, p, p, p] == [a, p, p, p, p];
    OneMoreStep(s4, p, [], s5);
    OneMoreStep(s3, p, [p], s5);
    OneMoreStep(s2, p, [p, p], s5);
    OneMoreStep(s1, p, [p, p, p], s5);
    OneMoreStep(s, a, [p, p, p, p], s5);
  }

  lemma StaysPut<T>(s: State<T>)
    ensures Reaches(s, [], s)
  {
  }

  lemma OneMoreStep<T>(s: State<T>, a: Action<T>, run: seq<Action<T>>, t: State<T>)
    requires s.Shaped() && Enabled(s, a) && Reaches(Next(s, a), run, t)
    ensures Reaches(s, [a] + run, t)
  {
    assert ([a] + run)[1..] == run;
  }

  lemma {:induction false} ReachesTrans<T>(s: State<T>, r1: seq<Action<T>>, t: State<T>, r2: seq<Action<T>>, u: State<T>)
    requires Reaches(s, r1, t) && Reaches(t, r2, u)
    ensures Reaches(s, r1 + r2, u)
    decreases |r1|
  {
    if r1 == [] {
      assert r1 + r2 == r2;
    } else {
      assert (r1 + r2)[1..] == r1[1..] + r2;
      ReachesTrans(Next(s, r1[0]), r1[1..], t, r2, u);
    }
  }

  /** With a single cell, two pushes in a row lose the first element without counting a drop. */
  lemma OneCellLosesAnElement<T(!new)>(blank: T, a: T, b: T)
    requires a != b
    ensures exists run: seq<Action<T>>, s: State<T> ::
              && Reaches(Init(1, blank), run, s) && !NothingOverwritten(s)
              && s.pushed == [a, b] && s.head == 0 && s.popped == [] && s.dropCount == 0
  {
    var s0 := Init(1, blank);
    PushAlone(s0, a);
    var s1 := s0.(data := [a], seqs := [1], pushed := [a], next := [1], tail := 1);
    assert s0.data[0 := a] == [a] && s0.seqs[0 := 1] == [1] && s0.next[0 := 1] == [1] && s0.pushed + [a] == [a];
    PushAlone(s1, b);
    var s2 := s1.(data := [b], seqs := [2], pushed := [a, b], next := [2], tail := 2);
    assert s1.data[0 := b] == [b] && s1.seqs[0 := 2] == [2] && s1.next[0 := 2] == [2] && s1.pushed + [b] == [a, b];
    ReachesTrans(s0, PushRun(a), s1, PushRun(b), s2);
  }

  /** The constructor's lower bound on the capacity is exactly what keeps elements from being overwritten. */
  lemma SafeIffTwoCells<T(!new)>(cap: nat, blank: T, a: T, b: T)
    requires cap >= 1 && a != b
    ensures (forall run: seq<Action<T>>, s: State<T> :: Reaches(Init(cap, blank), run, s) ==> NothingOverwritten(s))
            <==> cap >= 2
  {
    if cap >= 2 {
      forall run: seq<Action<T>>, s: State<T> | Reaches(Init(cap, blank), run, s)
        ensures NothingOverwritten(s)
      {
        InitInv(cap, blank);
        RunKeepsInv(Init(cap, blank), run, s);
        forall i: nat | s.head <= i < |s.pushed|
          ensures s.data[Slot(i, s.cap)] == s.pushed[i]
        {
          UnclaimedCell(s, i);
        }
      }
    } else {
      OneCellLosesAnElement(blank, a, b);
    }
  }
}
