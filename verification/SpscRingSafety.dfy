/** Every step of either thread keeps the invariant, hence so does every interleaving. */
module SpscRingSafety {
  import opened SpscRing

  lemma InitInv<T>(cap: nat, blank: T)
    requires cap >= 2
    ensures Inv(Init(cap, blank))
  {
    forall c: nat | c < cap
      ensures CellInv(Init(cap, blank), c)
    {
    }
  }

  lemma {:induction false} PickedIgnoresTail<T>(pushed: seq<T>, x: T, claims: seq<Taker>, who: Taker)
    requires |claims| <= |pushed|
    ensures Picked(pushed + [x], claims, who) == Picked(pushed, claims, who)
  {
    if claims != [] {
      PickedIgnoresTail(pushed, x, claims[..|claims| - 1], who);
    }
  }

  lemma PickedClaim<T>(pushed: seq<T>, claims: seq<Taker>, winner: Taker, who: Taker)
    requires |claims| < |pushed|
    ensures Picked(pushed, claims + [winner], who) ==
            Picked(pushed, claims, who) + (if winner == who then [pushed[|claims|]] else [])
  {
    assert (claims + [winner])[..|claims|] == claims;
  }

  /** A cell read as `published p` by a claimer really is: with two or more cells, `p + 1` names nothing else. */
  lemma SeenPublished<T>(s: State<T>, p: nat)
    requires Inv(s) && p <= s.head && s.seqs[Slot(p, s.cap)] == p + 1
    ensures p < |s.pushed|
  {
    assert CellInv(s, Slot(p, s.cap));
    var n := s.next[Slot(p, s.cap)];
    if n == p + 1 {
      SameCellFarApart(p, n, s.cap);
    }
  }

  /** A claimer that reads its own index in the cell has found the queue empty. */
  lemma SeenEmpty<T>(s: State<T>, p: nat)
    requires Inv(s) && p <= s.head && s.seqs[Slot(p, s.cap)] == p
    ensures s.head == |s.pushed| == p
  {
    assert CellInv(s, Slot(p, s.cap));
    var n := s.next[Slot(p, s.cap)];
    if n == p + s.cap - 1 {
      SameCellFarApart(p, n, s.cap);
    }
  }

  /** The cell of an unclaimed index holds exactly the value pushed there. */
  lemma UnclaimedCell<T>(s: State<T>, h: nat)
    requires Inv(s) && s.head <= h < |s.pushed|
    ensures s.next[Slot(h, s.cap)] == h + s.cap && s.data[Slot(h, s.cap)] == s.pushed[h]
  {
    assert CellInv(s, Slot(h + s.cap, s.cap));
    NextIs(s, h + s.cap);
  }

  lemma HeldCell<T>(s: State<T>, h: nat)
    requires Inv(s) && InFlight(s, h)
    ensures h < s.head && s.next[Slot(h, s.cap)] == h + s.cap && s.seqs[Slot(h, s.cap)] == h + 1
  {
    assert CellInv(s, Slot(h + s.cap, s.cap));
    NextIs(s, h + s.cap);
  }

  /** The two threads never hold the same element, nor two elements in the same cell. */
  lemma HoldersApart<T>(s: State<T>, h: nat, k: nat)
    requires Inv(s) && s.producer.Holds(h) && s.consumer.Holds(k)
    ensures h != k && Slot(h, s.cap) != Slot(k, s.cap)
  {
    HeldCell(s, h);
    HeldCell(s, k);
    assert s.claims[h] == ByProducer && s.claims[k] == ByConsumer;
  }

  /** A cell that reads `pos` at the publish position is vacated. */
  lemma SeenVacated<T>(s: State<T>)
    requires Inv(s) && s.seqs[Slot(|s.pushed|, s.cap)] == |s.pushed|
    ensures !Occupied(s, |s.pushed| - s.cap) && s.next[Slot(|s.pushed|, s.cap)] == |s.pushed|
  {
    assert CellInv(s, Slot(|s.pushed|, s.cap));
    NextIs(s, |s.pushed|);
  }

  lemma SeenFull<T>(s: State<T>)
    requires Inv(s) && s.seqs[Slot(|s.pushed|, s.cap)] != |s.pushed|
    ensures Occupied(s, |s.pushed| - s.cap)
  {
    assert CellInv(s, Slot(|s.pushed|, s.cap));
    NextIs(s, |s.pushed|);
  }

  // ----------------------------------------------------------- claim steps

  /** Steps of the claim protocol that change only the claimer's own position. */
  lemma QuietClaimStep<T>(s: State<T>, c: Claim<T>, who: Taker, casOk: bool)
    requires Inv(s) && ClaimInv(s, c, who) && (c.LoadHead? || c.LoadSeq?)
    ensures var (t, out) := StepClaim(s, c, who, casOk);
            && t == s
            && (out.Running? ==> ClaimInv(s, out.claim, who) && !out.claim.Take? && !out.claim.Free?)
            && !out.Got?
            && (out.Empty? ==> s.head == |s.pushed|)
  {
    if c.LoadSeq? {
      var q := s.seqs[Slot(c.pos, s.cap)];
      if q == c.pos + 1 {
        SeenPublished(s, c.pos);
      } else if q == c.pos {
        SeenEmpty(s, c.pos);
      }
    }
  }

  // -------------------------------------------------- what happens to the cells

  /** The memory the cells live in, except for what the step at hand changes. */
  ghost predicate SameIndices<T>(s: State<T>, t: State<T>) {
    t.Shaped() && t.cap == s.cap && t.next == s.next && t.pushed == s.pushed
  }

  lemma CellsUntouched<T>(s: State<T>, t: State<T>)
    requires Inv(s) && SameIndices(s, t) && t.head == s.head && t.seqs == s.seqs && t.data == s.data
    requires forall k: nat :: InFlight(t, k) <==> InFlight(s, k)
    ensures Cells(t)
  {
    forall i: nat | i < t.cap
      ensures CellInv(t, i)
    {
      assert CellInv(s, i);
    }
  }

  lemma CellsAfterWin<T>(s: State<T>, t: State<T>)
    requires Inv(s) && SameIndices(s, t) && t.head == s.head + 1 && t.seqs == s.seqs && t.data == s.data
    requires forall k: nat :: InFlight(t, k) <==> InFlight(s, k) || k == s.head
    ensures Cells(t)
  {
    forall i: nat | i < t.cap
      ensures CellInv(t, i)
    {
      assert CellInv(s, i);
    }
  }

  lemma CellsAfterTake<T>(s: State<T>, t: State<T>, h: nat)
    requires Inv(s) && InFlight(s, h)
    requires SameIndices(s, t) && t.head == s.head && t.seqs == s.seqs
    requires t.data == s.data[Slot(h, s.cap) := s.blank]
    requires forall k: nat :: InFlight(t, k) <==> InFlight(s, k)
    ensures Cells(t)
  {
    HeldCell(s, h);
    forall i: nat | i < t.cap
      ensures CellInv(t, i)
    {
      assert CellInv(s, i);
    }
  }

  lemma CellsAfterFree<T>(s: State<T>, t: State<T>, h: nat)
    requires Inv(s) && InFlight(s, h)
    requires SameIndices(s, t) && t.head == s.head && t.data == s.data
    requires t.seqs == s.seqs[Slot(h, s.cap) := h + s.cap]
    requires forall k: nat :: InFlight(t, k) <==> InFlight(s, k) && k != h
    ensures Cells(t)
  {
    HeldCell(s, h);
    forall i: nat | i < t.cap
      ensures CellInv(t, i)
    {
      assert CellInv(s, i);
      if s.next[i] - s.cap == h {
        assert i == Slot(s.next[i], s.cap) == Slot(h, s.cap);
      }
    }
  }

  lemma CellsAfterPublish<T>(s: State<T>, t: State<T>)
    requires Inv(s) && s.producer.Pushing? && s.producer.pc.Publish?
    requires var p, cell := s.producer.pos, Slot(s.producer.pos, s.cap);
             && t.Shaped() && t.cap == s.cap && t.head == s.head && t.data == s.data
             && t.seqs == s.seqs[cell := p + 1] && t.next == s.next[cell := p + s.cap]
             && t.pushed == s.pushed + [s.producer.item]
    requires forall k: nat :: InFlight(t, k) <==> InFlight(s, k)
    ensures Cells(t)
  {
    SeenVacated(s);
    forall i: nat | i < t.cap
      ensures CellInv(t, i)
    {
      assert CellInv(s, i);
    }
  }

  // ------------------------------------------------------------ claim steps, continued

  /** Moving the consumer between positions where it holds nothing. */
  lemma MoveConsumer<T>(s: State<T>, c: Consumer<T>)
    requires Inv(s) && (c.Popping? ==> ClaimInv(s, c.claim, ByConsumer) && !c.claim.Take? && !c.claim.Free?)
    requires s.consumer.Popping? ==> !s.consumer.claim.Take? && !s.consumer.claim.Free?
    ensures Inv(s.(consumer := c))
  {
    CellsUntouched(s, s.(consumer := c));
  }

  lemma ConsumerWins<T>(s: State<T>)
    requires Inv(s) && s.consumer == Popping(Cas(s.head))
    ensures Inv(s.(head := s.head + 1, claims := s.claims + [ByConsumer], consumer := Popping(Take(s.head))))
  {
    var t := s.(head := s.head + 1, claims := s.claims + [ByConsumer], consumer := Popping(Take(s.head)));
    UnclaimedCell(s, s.head);
    PickedClaim(s.pushed, s.claims, ByConsumer, ByConsumer);
    PickedClaim(s.pushed, s.claims, ByConsumer, ByProducer);
    CellsAfterWin(s, t);
  }

  lemma ConsumerTakes<T>(s: State<T>, p: nat)
    requires Inv(s) && s.consumer == Popping(Take(p))
    ensures Inv(s.(data := s.data[Slot(p, s.cap) := s.blank], consumer := Popping(Free(p, s.data[Slot(p, s.cap)]))))
  {
    var t := s.(data := s.data[Slot(p, s.cap) := s.blank], consumer := Popping(Free(p, s.data[Slot(p, s.cap)])));
    HeldCell(s, p);
    if s.producer.Pushing? && s.producer.pc.Claiming? && s.producer.pc.claim.Take? {
      HoldersApart(s, s.producer.pc.claim.pos, p);
    }
    if s.producer.Pushing? && s.producer.pc.Publish? {
      SeenVacated(s);
    }
    CellsAfterTake(s, t, p);
  }

  lemma ConsumerFrees<T>(s: State<T>, p: nat, v: T)
    requires Inv(s) && s.consumer == Popping(Free(p, v))
    ensures Inv(s.(seqs := s.seqs[Slot(p, s.cap) := p + s.cap], consumer := Resting, popped := s.popped + [v]))
  {
    var t := s.(seqs := s.seqs[Slot(p, s.cap) := p + s.cap], consumer := Resting, popped := s.popped + [v]);
    HeldCell(s, p);
    if s.producer.Pushing? && s.producer.pc.Claiming? && (s.producer.pc.claim.Take? || s.producer.pc.claim.Free?) {
      HoldersApart(s, s.producer.pc.claim.pos, p);
    }
    if s.producer.Pushing? && (s.producer.pc.Write? || s.producer.pc.Publish?) {
      SeenVacated(s);
    }
    CellsAfterFree(s, t, p);
  }

  lemma ConsumerStepKeepsInv<T>(s: State<T>, casOk: bool)
    requires Inv(s) && s.consumer.Popping?
    ensures Inv(StepConsumer(s, casOk))
  {
    var c := s.consumer.claim;
    match c {
      case Cas(p) =>
        if s.head == p && casOk {
          ConsumerWins(s);
        } else {
          MoveConsumer(s, Popping(LoadSeq(s.head)));
        }
      case Take(p) => ConsumerTakes(s, p);
      case Free(p, v) => ConsumerFrees(s, p, v);
      case _ =>
        QuietClaimStep(s, c, ByConsumer, casOk);
        MoveConsumer(s, StepConsumer(s, casOk).consumer);
    }
  }

  /** Moving the producer without touching shared memory or what it holds. */
  lemma MoveProducer<T>(s: State<T>, p: Producer<T>)
    requires Inv(s) && ProducerInv(s.(producer := p))
    requires Uncounted(p) == 0 && Uncounted(s.producer) == 0
    ensures Inv(s.(producer := p))
  {
    CellsUntouched(s, s.(producer := p));
  }

  lemma ProducerWins<T>(s: State<T>)
    requires Inv(s) && s.producer.Pushing? && s.producer.pc == Claiming(Cas(s.head))
    ensures Inv(s.(head := s.head + 1, claims := s.claims + [ByProducer],
                   producer := s.producer.(pc := Claiming(Take(s.head)))))
  {
    var t := s.(head := s.head + 1, claims := s.claims + [ByProducer],
                producer := s.producer.(pc := Claiming(Take(s.head))));
    UnclaimedCell(s, s.head);
    PickedClaim(s.pushed, s.claims, ByProducer, ByConsumer);
    PickedClaim(s.pushed, s.claims, ByProducer, ByProducer);
    CellsAfterWin(s, t);
  }

  lemma ProducerTakes<T>(s: State<T>, p: nat)
    requires Inv(s) && s.producer.Pushing? && s.producer.pc == Claiming(Take(p))
    ensures Inv(s.(data := s.data[Slot(p, s.cap) := s.blank],
                   producer := s.producer.(pc := Claiming(Free(p, s.data[Slot(p, s.cap)])))))
  {
    var t := s.(data := s.data[Slot(p, s.cap) := s.blank],
                producer := s.producer.(pc := Claiming(Free(p, s.data[Slot(p, s.cap)]))));
    HeldCell(s, p);
    if s.consumer.Popping? && s.consumer.claim.Take? {
      HoldersApart(s, p, s.consumer.claim.pos);
    }
    CellsAfterTake(s, t, p);
  }

  lemma ProducerFrees<T>(s: State<T>, p: nat, v: T)
    requires Inv(s) && s.producer.Pushing? && s.producer.pc == Claiming(Free(p, v))
    ensures Inv(s.(seqs := s.seqs[Slot(p, s.cap) := p + s.cap], producer := s.producer.(pc := Count)))
  {
    var t := s.(seqs := s.seqs[Slot(p, s.cap) := p + s.cap], producer := s.producer.(pc := Count));
    HeldCell(s, p);
    if s.consumer.Popping? && (s.consumer.claim.Take? || s.consumer.claim.Free?) {
      HoldersApart(s, p, s.consumer.claim.pos);
    }
    CellsAfterFree(s, t, p);
  }

  lemma ProducerLooks<T>(s: State<T>, d: Claim<T>)
    requires Inv(s) && Seeking(s.producer)
    requires ClaimInv(s, d, ByProducer) && !d.Take? && !d.Free?
    ensures Inv(s.(producer := s.producer.(pc := Claiming(d))))
  {
    MoveProducer(s, s.producer.(pc := Claiming(d)));
  }

  lemma ProducerFindsNothing<T>(s: State<T>)
    requires Inv(s) && Seeking(s.producer)
    ensures Inv(s.(producer := s.producer.(pc := Check)))
  {
    MoveProducer(s, s.producer.(pc := Check));
  }

  lemma ProducerSeeks<T>(s: State<T>, casOk: bool)
    requires Inv(s) && s.producer.Pushing? && s.producer.pc.Claiming?
    requires s.producer.pc.claim.LoadHead? || s.producer.pc.claim.LoadSeq?
    ensures Inv(StepProducer(s, casOk))
  {
    var (t, out) := StepClaim(s, s.producer.pc.claim, ByProducer, casOk);
    QuietClaimStep(s, s.producer.pc.claim, ByProducer, casOk);
    if out.Running? {
      ProducerLooks(s, out.claim);
    } else {
      ProducerFindsNothing(s);
    }
  }

  lemma ProducerTriesCas<T>(s: State<T>, casOk: bool)
    requires Inv(s) && s.producer.Pushing? && s.producer.pc.Claiming? && s.producer.pc.claim.Cas?
    ensures Inv(StepProducer(s, casOk))
  {
    if s.head == s.producer.pc.claim.pos && casOk {
      ProducerWins(s);
    } else {
      ProducerLooks(s, LoadSeq(s.head));
    }
  }

  lemma ProducerClaimStepKeepsInv<T>(s: State<T>, casOk: bool)
    requires Inv(s) && s.producer.Pushing? && s.producer.pc.Claiming?
    ensures Inv(StepProducer(s, casOk))
  {
    match s.producer.pc.claim {
      case Cas(_) => ProducerTriesCas(s, casOk);
      case Take(h) => ProducerTakes(s, h);
      case Free(h, v) => ProducerFrees(s, h, v);
      case _ => ProducerSeeks(s, casOk);
    }
  }

  // ------------------------------------------------------------ push steps

  lemma ProducerChecks<T>(s: State<T>)
    requires Inv(s) && s.producer.Pushing? && s.producer.pc.Check?
    ensures var found := s.seqs[Slot(s.producer.pos, s.cap)] == s.producer.pos;
            Inv(s.(producer := s.producer.(pc := if found then Write else Claiming(LoadHead))))
  {
    var p := s.producer;
    if s.seqs[Slot(p.pos, s.cap)] == p.pos {
      MoveProducer(s, p.(pc := Write));
    } else {
      SeenFull(s);
      MoveProducer(s, p.(pc := Claiming(LoadHead)));
    }
  }

  lemma ProducerCounts<T>(s: State<T>)
    requires Inv(s) && s.producer.Pushing? && s.producer.pc.Count?
    ensures Inv(s.(dropCount := s.dropCount + 1,
                   producer := s.producer.(dropped := true, drops := s.producer.drops + 1, pc := Check)))
  {
    var t := s.(dropCount := s.dropCount + 1,
                producer := s.producer.(dropped := true, drops := s.producer.drops + 1, pc := Check));
    CellsUntouched(s, t);
  }

  lemma ProducerWrites<T>(s: State<T>)
    requires Inv(s) && s.producer.Pushing? && s.producer.pc.Write?
    ensures Inv(s.(data := s.data[Slot(s.producer.pos, s.cap) := s.producer.item],
                   producer := s.producer.(pc := Publish)))
  {
    var t := s.(data := s.data[Slot(s.producer.pos, s.cap) := s.producer.item],
                producer := s.producer.(pc := Publish));
    SeenVacated(s);
    if s.consumer.Popping? && s.consumer.claim.Take? {
      HeldCell(s, s.consumer.claim.pos);
    }
    forall i: nat | i < s.cap
      ensures CellInv(t, i)
    {
      assert CellInv(s, i);
    }
  }

  lemma ProducerPublishes<T>(s: State<T>)
    requires Inv(s) && s.producer.Pushing? && s.producer.pc.Publish?
    ensures var p := s.producer;
            var cell := Slot(p.pos, s.cap);
            Inv(s.(seqs := s.seqs[cell := p.pos + 1], pushed := s.pushed + [p.item],
                   next := s.next[cell := p.pos + s.cap], producer := p.(pc := StoreTail)))
  {
    var p := s.producer;
    var cell := Slot(p.pos, s.cap);
    var t := s.(seqs := s.seqs[cell := p.pos + 1], pushed := s.pushed + [p.item],
                next := s.next[cell := p.pos + s.cap], producer := p.(pc := StoreTail));
    SeenVacated(s);
    PickedIgnoresTail(s.pushed, p.item, s.claims, ByConsumer);
    PickedIgnoresTail(s.pushed, p.item, s.claims, ByProducer);
    CellsAfterPublish(s, t);
  }

  lemma ProducerStepKeepsInv<T>(s: State<T>, casOk: bool)
    requires Inv(s) && s.producer.Pushing?
    ensures Inv(StepProducer(s, casOk))
  {
    match s.producer.pc {
      case Check => ProducerChecks(s);
      case Claiming(_) => ProducerClaimStepKeepsInv(s, casOk);
      case Count => ProducerCounts(s);
      case Write => ProducerWrites(s);
      case Publish => ProducerPublishes(s);
      case StoreTail => ProducerStores(s);
    }
  }

  lemma ProducerStores<T>(s: State<T>)
    requires Inv(s) && s.producer.Pushing? && s.producer.pc.StoreTail?
    ensures Inv(s.(tail := s.producer.pos + 1, producer := Idle))
  {
    CellsUntouched(s, s.(tail := s.producer.pos + 1, producer := Idle));
  }

  /** One step of either thread, whatever the other thread is doing. */
  lemma StepKeepsInv<T>(s: State<T>, a: Action<T>)
    requires Inv(s) && Enabled(s, a)
    ensures Inv(Next(s, a))
  {
    match a
    case BeginPush(item) => MoveProducer(s, Pushing(item, s.tail, false, 0, Check));
    case BeginPop => MoveConsumer(s, Popping(LoadHead));
    case StepPush(ok) => ProducerStepKeepsInv(s, ok);
    case StepPop(ok) => ConsumerStepKeepsInv(s, ok);
  }

  lemma {:induction false} RunKeepsInv<T>(s: State<T>, run: seq<Action<T>>, t: State<T>)
    requires Inv(s) && Reaches(s, run, t)
    ensures Inv(t)
    decreases |run|
  {
    if run != [] {
      StepKeepsInv(s, run[0]);
      RunKeepsInv(Next(s, run[0]), run[1..], t);
    }
  }
}
