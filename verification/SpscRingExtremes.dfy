/** Runs in which a push has to wait for the consumer, and in which it discards as much as one push can. */
module SpscRingExtremes {
  import opened SpscRing
  import opened SpscRingSafety
  import opened SpscRingTheorems
  import opened SpscRingProgress

  /** `n` pushes one after the other, the consumer asleep. */
  lemma {:induction false} Fill<T>(cap: nat, blank: T, item: T, n: nat) returns (run: seq<Action<T>>, s: State<T>)
    requires cap >= 2 && n <= cap
    ensures Reaches(Init(cap, blank), run, s) && Inv(s)
    ensures s.cap == cap && s.blank == blank && s.producer.Idle? && s.consumer.Resting? && s.head == 0 && |s.pushed| == n
  {
    InitInv(cap, blank);
    if n == 0 {
      run, s := [], Init(cap, blank);
    } else {
      var r, u := Fill(cap, blank, item, n - 1);
      var c := Slot(u.tail, cap);
      assert CellInv(u, c);
      NextIs(u, u.tail);
      PushAlone(u, item);
      s := u.(data := u.data[c := item], seqs := u.seqs[c := u.tail + 1], pushed := u.pushed + [item],
              next := u.next[c := u.tail + cap], tail := u.tail + 1);
      run := r + PushRun(item);
      ReachesTrans(Init(cap, blank), r, u, PushRun(item), s);
      RunKeepsInv(u, PushRun(item), s);
    }
  }

  lemma FrontIsPublished<T>(s: State<T>)
    requires Inv(s) && s.head < |s.pushed|
    ensures s.seqs[Slot(s.head, s.cap)] == s.head + 1
  {
    UnclaimedCell(s, s.head);
    assert CellInv(s, Slot(s.head, s.cap));
  }

  /** The consumer wins the front element and falls asleep before it frees the cell. */
  lemma Stall<T>(s: State<T>) returns (run: seq<Action<T>>, t: State<T>)
    requires Inv(s) && s.consumer.Resting? && s.head < |s.pushed|
    ensures Reaches(s, run, t) && Inv(t)
    ensures t == s.(head := s.head + 1, claims := s.claims + [ByConsumer], consumer := Popping(Take(s.head)))
    ensures run == [BeginPop, StepPop(true), StepPop(true), StepPop(true)]
  {
    hide Reaches, Cells, CellInv, DropInv, Accounts, ProducerInv;
    var p: Action<T> := StepPop(true);
    FrontIsPublished(s);
    var s1 := Next(s, BeginPop);
    var s2 := Next(s1, p);
    assert s2.consumer == Popping(LoadSeq(s.head));
    var s3 := Next(s2, p);
    assert s3.consumer == Popping(Cas(s.head));
    t := Next(s3, p);
    StaysPut(t);
    assert [p] + [] == [p] && [p] + [p] == [p, p] && [p] + [p, p] == [p, p, p];
    OneMoreStep(s3, p, [], t);
    OneMoreStep(s2, p, [p], t);
    OneMoreStep(s1, p, [p, p], t);
    OneMoreStep(s, BeginPop, [p, p, p], t);
    run := [BeginPop] + [p, p, p];
    RunKeepsInv(s, run, t);
  }

  lemma Prepend<T>(s: State<T>, a: Action<T>, run: seq<Action<T>>, t: State<T>)
    requires s.Shaped() && s.producer.Pushing? && Enabled(s, a)
    requires SamePush(Next(s, a), run) && Reaches(Next(s, a), run, t)
    ensures SamePush(s, [a] + run) && Reaches(s, [a] + run, t)
  {
    assert ([a] + run)[1..] == run;
  }

  /** The push has something left to reclaim, or has just looked for its cell. */
  predicate Reclaiming<T>(s: State<T>) {
    s.producer.Pushing? && (s.producer.pc.Check? || s.producer.pc.Claiming? || s.producer.pc.Count?)
    && (s.producer.pc.Check? || Uncounted(s.producer) == 1 || s.head < |s.pushed|)
  }

  ghost function Left<T>(s: State<T>): nat
    requires s.Shaped() && s.head <= |s.pushed|
  {
    20 * (|s.pushed| - s.head) + 20 * Uncounted(s.producer) + Rank(s)
  }

  lemma LookingStep<T>(s: State<T>)
    requires Inv(s) && Seeking(s.producer) && s.producer.pc.claim.LoadSeq? && s.head < |s.pushed|
    ensures var t := StepProducer(s, true);
            Seeking(t.producer) && Rank(t) < Rank(s) && t == s.(producer := t.producer)
  {
    hide Cells, DropInv, Accounts;
    var p := s.producer.pc.claim.pos;
    if p == s.head {
      FrontIsPublished(s);
    } else if s.seqs[Slot(p, s.cap)] == p {
      SeenEmpty(s, p);
    }
  }

  lemma ReclaimStep<T>(s: State<T>)
    requires Inv(s) && WaitsForConsumer(s) && Reclaiming(s)
    requires !(s.producer.pc.Check? && s.head == |s.pushed|)
    ensures var t := StepProducer(s, true);
            && Reclaiming(t) && t.head <= |t.pushed| && Left(t) < Left(s)
            && t.dropCount + Uncounted(t.producer) - t.head == s.dropCount + Uncounted(s.producer) - s.head
  {
    if Seeking(s.producer) && s.producer.pc.claim.LoadSeq? {
      LookingStep(s);
    } else {
      OtherReclaimStep(s);
    }
  }

  lemma OtherReclaimStep<T>(s: State<T>)
    requires Inv(s) && WaitsForConsumer(s) && Reclaiming(s)
    requires !(s.producer.pc.Check? && s.head == |s.pushed|)
    requires !(s.producer.pc.Claiming? && s.producer.pc.claim.LoadSeq?)
    ensures var t := StepProducer(s, true);
            && Reclaiming(t) && t.head <= |t.pushed| && Left(t) < Left(s)
            && t.dropCount + Uncounted(t.producer) - t.head == s.dropCount + Uncounted(s.producer) - s.head
  {
    hide Cells, DropInv, Accounts;
    HeldCell(s, s.producer.pos - s.cap);
  }

  /** While the consumer holds the wanted cell, the push can reclaim everything else. */
  lemma {:induction false} ReclaimAll<T>(s: State<T>) returns (run: seq<Action<T>>, t: State<T>)
    requires Inv(s) && WaitsForConsumer(s) && Reclaiming(s)
    ensures SamePush(s, run) && Reaches(s, run, t) && Inv(t)
    ensures WaitsForConsumer(t) && t.producer.pc.Check? && t.head == |t.pushed|
    ensures t.consumer == s.consumer && t.cap == s.cap && t.pushed == s.pushed
    ensures t.dropCount - t.head == s.dropCount + Uncounted(s.producer) - s.head
    decreases Left(s)
  {
    hide Cells, DropInv, Accounts, Rank;
    if s.producer.pc.Check? && s.head == |s.pushed| {
      run, t := [], s;
    } else {
      var p: Action<T> := StepPush(true);
      ReclaimStep(s);
      SpinStepWaits(s, true);
      ProducerStepKeepsInv(s, true);
      var u := Next(s, p);
      var rest, v := ReclaimAll(u);
      run, t := [p] + rest, v;
      Prepend(s, p, rest, v);
    }
  }

  /** The consumer wakes up and frees the cell, and the push goes through. */
  lemma Release<T>(s: State<T>) returns (run: seq<Action<T>>, t: State<T>)
    requires Inv(s) && WaitsForConsumer(s) && s.producer.pc.Check? && s.consumer.claim.Take?
    ensures SamePush(s, run) && Reaches(s, run, t)
    ensures t.producer.Pushing? && t.producer.pc.StoreTail? && t.dropCount == s.dropCount
  {
    hide Cells, DropInv, Accounts;
    var c: Action<T>, p: Action<T> := StepPop(true), StepPush(true);
    var s1 := Next(s, c);
    StepKeepsInv(s, c);
    var s2 := Next(s1, c);
    StepKeepsInv(s1, c);
    WantedCellVacated(s2);
    var s3 := Next(s2, p);
    var s4 := Next(s3, p);
    t := Next(s4, p);
    Prepend(s4, p, [], t);
    Prepend(s3, p, [p], t);
    Prepend(s2, p, [p, p], t);
    assert [p] + [p] == [p, p] && [p] + [p, p] == [p, p, p];
    Prepend(s1, c, [p, p, p], t);
    Prepend(s, c, [c] + [p, p, p], t);
    run := [c] + ([c] + [p, p, p]);
  }

  /**
   For every capacity there is a reachable state with one element fewer than the capacity unclaimed, from
   which one push has to wait for the consumer and meanwhile discards everything there is.
   */
  lemma DropBoundIsReached<T(!new)>(cap: nat, blank: T, item: T)
    returns (s: State<T>, run: seq<Action<T>>, t: State<T>)
    requires cap >= 2
    ensures Reachable(s) && s.cap == cap && s.producer.Idle? && |s.pushed| - s.head == cap - 1
    ensures s.Shaped() && WaitsForConsumer(Next(s, BeginPush(item)))
    ensures SamePush(Next(s, BeginPush(item)), run) && Reaches(Next(s, BeginPush(item)), run, t)
    ensures t.producer.Pushing? && t.producer.pc.StoreTail? && t.dropCount - s.dropCount == cap - 1
  {
    var r1, full := Fill(cap, blank, item, cap);
    var r2, s' := Stall(full);
    s := s';
    ReachesTrans(Init(cap, blank), r1, full, r2, s);
    var u := Next(s, BeginPush(item));
    StepKeepsInv(s, BeginPush(item));
    var r3, v := ReclaimAll(u);
    var r4, w := Release(v);
    run, t := r3 + r4, w;
    ReachesTrans(u, r3, v, r4, w);
    SamePushTrans(u, r3, v, r4);
  }

  lemma {:induction false} SamePushTrans<T>(s: State<T>, r1: seq<Action<T>>, t: State<T>, r2: seq<Action<T>>)
    requires SamePush(s, r1) && Reaches(s, r1, t) && SamePush(t, r2)
    ensures SamePush(s, r1 + r2)
    decreases |r1|
  {
    if r1 == [] {
      assert r1 + r2 == r2;
    } else {
      assert (r1 + r2)[1..] == r1[1..] + r2;
      SamePushTrans(Next(s, r1[0]), r1[1..], t, r2);
    }
  }
}
