/**
 `pop` while no other thread is inside the queue: it hands out the oldest element, or answers false at
 once if there is none. This is what `SpscRingBuffer` proves of the code on its arrays.
 */
module SpscRingAlone {
  import opened SpscRing
  import opened SpscRingSafety
  import opened SpscRingTheorems
  import opened SpscRingExtremes

  /** The published, unclaimed elements, oldest first. */
  function Contents<T>(s: State<T>): seq<T>
    requires s.head <= |s.pushed|
  {
    s.pushed[s.head..]
  }

  predicate ConsumerOnly<T>(run: seq<Action<T>>) {
    forall i :: 0 <= i < |run| ==> run[i].StepPop?
  }

  /** The elements this pop will have handed out in the end, in a list of at most one. */
  function Dealt<T>(s: State<T>): seq<T>
    requires s.head <= |s.pushed|
  {
    if s.consumer.Resting? then []
    else if s.consumer.claim.Take? || s.consumer.claim.Free? then Pending(s)
    else if s.head < |s.pushed| then [s.pushed[s.head]] else []
  }

  /** What a step of the consumer cannot change while it is alone. */
  ghost predicate SameDeal<T>(s: State<T>, t: State<T>) {
    && s.head <= |s.pushed| && t.head <= |t.pushed|
    && t.popped + Dealt(t) == s.popped + Dealt(s)
    && t.head + (if Seeks(t) then |Dealt(t)| else 0) == s.head + (if Seeks(s) then |Dealt(s)| else 0)
    && t.pushed == s.pushed && t.producer == s.producer && t.dropCount == s.dropCount
  }

  predicate Seeks<T>(s: State<T>) {
    s.consumer.Popping? && !s.consumer.claim.Take? && !s.consumer.claim.Free?
  }

  lemma AloneStep<T>(s: State<T>, casOk: bool)
    requires Inv(s) && s.consumer.Popping?
    ensures SameDeal(s, StepConsumer(s, casOk))
  {
    hide Cells, DropInv, Accounts, ProducerInv;
    var c := s.consumer.claim;
    if c.LoadSeq? && s.seqs[Slot(c.pos, s.cap)] == c.pos {
      SeenEmpty(s, c.pos);
    }
  }

  lemma {:induction false} AloneKeepsDeal<T>(s: State<T>, run: seq<Action<T>>, t: State<T>)
    requires Inv(s) && ConsumerOnly(run) && Reaches(s, run, t)
    ensures SameDeal(s, t)
    decreases |run|
  {
    hide Inv, Dealt, Seeks, StepConsumer;
    HeadInRange(s);
    if run != [] {
      assert run[0].StepPop?;
      var u := StepConsumer(s, run[0].casOk);
      AloneStep(s, run[0].casOk);
      ConsumerStepKeepsInv(s, run[0].casOk);
      assert forall i :: 0 <= i < |run| - 1 ==> run[1..][i] == run[i + 1];
      AloneKeepsDeal(u, run[1..], t);
    }
  }

  lemma HeadInRange<T>(s: State<T>)
    requires Inv(s)
    ensures s.head <= |s.pushed|
  {
  }

  /** Whatever its compare-and-swaps do, a pop that has the queue to itself removes the oldest element iff there is one. */
  lemma PopAlone<T(!new)>(s: State<T>, run: seq<Action<T>>, t: State<T>)
    requires Reachable(s) && s.consumer.Resting? && s.Shaped()
    requires ConsumerOnly(run) && Reaches(Next(s, BeginPop), run, t) && t.consumer.Resting?
    ensures s.head <= |s.pushed| && t.head <= |t.pushed|
    ensures Contents(s) == [] ==> t.popped == s.popped && Contents(t) == []
    ensures Contents(s) != [] ==> t.popped == s.popped + [Contents(s)[0]] && Contents(t) == Contents(s)[1..]
  {
    ReachableInv(s);
    HeadInRange(s);
    StepKeepsInv(s, BeginPop);
    AloneKeepsDeal(Next(s, BeginPop), run, t);
    hide Inv, Reachable, Reaches, State.Shaped;
    assert t.popped + [] == t.popped && s.popped + [] == s.popped;
  }

  function Twice<T>(): seq<Action<T>> {
    [StepPop(true), StepPop(true)]
  }

  /** On an empty queue it answers false after two loads. */
  lemma EmptyPopAnswersFalse<T(!new)>(s: State<T>)
    requires Reachable(s) && s.producer.Idle? && s.consumer.Resting? && s.head == |s.pushed|
    ensures Reaches(s, [BeginPop] + Twice<T>(), s)
  {
    ReachableInv(s);
    var p: Action<T> := StepPop(true);
    EmptyCell(s);
    var s1 := Next(s, BeginPop);
    var s2 := Next(s1, p);
    assert s2 == s.(consumer := Popping(LoadSeq(s.head)));
    assert Next(s2, p) == s;
    StaysPut(s);
    assert [p] + [] == [p] && [p] + [p] == Twice<T>();
    OneMoreStep(s2, p, [], s);
    OneMoreStep(s1, p, [p], s);
    OneMoreStep(s, BeginPop, Twice<T>(), s);
  }

  lemma EmptyCell<T>(s: State<T>)
    requires Inv(s) && s.producer.Idle? && s.consumer.Resting? && s.head == |s.pushed|
    ensures s.seqs[Slot(s.head, s.cap)] == s.head
  {
    assert CellInv(s, Slot(s.head, s.cap));
    NextIs(s, s.head);
  }

  /** Otherwise it answers true after five steps. */
  lemma FullPopAnswersTrue<T(!new)>(s: State<T>) returns (t: State<T>)
    requires Reachable(s) && s.consumer.Resting? && s.head < |s.pushed|
    ensures Reaches(s, [BeginPop] + (Twice<T>() + [StepPop(true)] + Twice<T>()), t) && t.consumer.Resting?
  {
    ReachableInv(s);
    var p: Action<T> := StepPop(true);
    var run, u := Stall(s);
    var v := Next(u, p);
    t := Next(v, p);
    StaysPut(t);
    assert [p] + [] == [p] && [p] + [p] == Twice<T>();
    OneMoreStep(v, p, [], t);
    OneMoreStep(u, p, [p], t);
    ReachesTrans(s, run, u, Twice<T>(), t);
    assert run + Twice<T>() == [BeginPop] + (Twice<T>() + [StepPop(true)] + Twice<T>());
  }
}
