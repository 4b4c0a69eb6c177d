/**
 The lock-free hand-off queue as a state machine.

 One producer thread runs `push`, one consumer thread runs `pop`; both may claim the front of the
 queue. Every atomic access of the program is one step here, and a run is any interleaving of
 the steps of the two threads. Memory is sequentially consistent.
 */
module SpscRing {

  /** The cell of a logical index: the index less all its whole laps. */
  function Slot(i: nat, cap: nat): (c: nat)
    requires cap >= 1
    ensures c < cap
    decreases i
  {
    if i < cap then i else Slot(i - cap, cap)
  }

  /** Who won the compare-and-swap on `head_` for a logical index. */
  datatype Taker = ByConsumer | ByProducer

  /** Where a thread stands inside `try_claim_front`, with its local variables. */
  datatype Claim<T> =
    | LoadHead
    | LoadSeq(pos: nat)
    | Cas(pos: nat)
    | Take(pos: nat)
    | Free(pos: nat, value: T)
  {
    /** The thread has won index `h` and has not yet freed its cell. */
    predicate Holds(h: nat) {
      (Take? || Free?) && pos == h
    }
  }

  /** Where the producer stands inside `push`. */
  datatype PushPc<T> = Check | Claiming(claim: Claim<T>) | Count | Write | Publish | StoreTail

  /** `drops` is an auxiliary count of the elements this one push has discarded so far. */
  datatype Producer<T> = Idle | Pushing(item: T, pos: nat, dropped: bool, drops: nat, pc: PushPc<T>)
  {
    predicate Holds(h: nat) {
      Pushing? && pc.Claiming? && pc.claim.Holds(h)
    }
  }

  datatype Consumer<T> = Resting | Popping(claim: Claim<T>)
  {
    predicate Holds(h: nat) {
      Popping? && claim.Holds(h)
    }
  }

  /**
   The shared memory, the two threads, and four auxiliary variables no step reads:
   `pushed` (all published values, in order), `claims` (who claimed index 0, 1, ...), `popped`
   (what `pop` has handed to the consumer) and `next` (per cell, the logical index that will be
   written to it next).
   */
  datatype State<T> = State(
    cap: nat, blank: T,
    head: nat, tail: nat, seqs: seq<nat>, data: seq<T>, dropCount: nat,
    producer: Producer<T>, consumer: Consumer<T>,
    pushed: seq<T>, claims: seq<Taker>, popped: seq<T>, next: seq<nat>)
  {
    ghost predicate Shaped() {
      cap >= 1 && |seqs| == cap && |data| == cap && |next| == cap
    }
  }

  function Init<T>(cap: nat, blank: T): State<T> {
    State(cap, blank, 0, 0, seq(cap, i => i), seq(cap, _ => blank), 0, Idle, Resting,
          [], [], [], seq(cap, i => i))
  }

  // ------------------------------------------------------------------ steps

  datatype Outcome<T> = Running(claim: Claim<T>) | Got(value: T) | Empty

  /** One atomic step of `try_claim_front`. `casOk` is false when the weak CAS fails spuriously. */
  function StepClaim<T>(s: State<T>, c: Claim<T>, who: Taker, casOk: bool): (r: (State<T>, Outcome<T>))
    requires s.Shaped()
  {
    match c
    case LoadHead => (s, Running(LoadSeq(s.head)))
    case LoadSeq(p) =>
      var q := s.seqs[Slot(p, s.cap)];
      if q == p + 1 then (s, Running(Cas(p)))
      else if q == p then (s, Empty)
      else (s, Running(LoadHead))
    case Cas(p) =>
      if s.head == p && casOk then (s.(head := p + 1, claims := s.claims + [who]), Running(Take(p)))
      else (s, Running(LoadSeq(s.head)))
    case Take(p) =>
      (s.(data := s.data[Slot(p, s.cap) := s.blank]), Running(Free(p, s.data[Slot(p, s.cap)])))
    case Free(p, v) =>
      (s.(seqs := s.seqs[Slot(p, s.cap) := p + s.cap]), Got(v))
  }

  datatype Action<T> = BeginPush(item: T) | StepPush(casOk: bool) | BeginPop | StepPop(casOk: bool)

  predicate Enabled<T>(s: State<T>, a: Action<T>) {
    match a
    case BeginPush(_) => s.producer.Idle?
    case StepPush(_) => s.producer.Pushing?
    case BeginPop => s.consumer.Resting?
    case StepPop(_) => s.consumer.Popping?
  }

  function StepProducer<T>(s: State<T>, casOk: bool): State<T>
    requires s.Shaped() && s.producer.Pushing?
  {
    var p := s.producer;
    var cell := Slot(p.pos, s.cap);
    match p.pc
    case Check =>
      s.(producer := p.(pc := if s.seqs[cell] == p.pos then Write else Claiming(LoadHead)))
    case Claiming(c) =>
      var (t, out) := StepClaim(s, c, ByProducer, casOk);
      t.(producer := p.(pc := match out
                              case Running(d) => Claiming(d)
                              case Got(_) => Count
                              case Empty => Check))
    case Count =>
      s.(dropCount := s.dropCount + 1, producer := p.(dropped := true, drops := p.drops + 1, pc := Check))
    case Write =>
      s.(data := s.data[cell := p.item], producer := p.(pc := Publish))
    case Publish =>
      s.(seqs := s.seqs[cell := p.pos + 1], pushed := s.pushed + [p.item],
         next := s.next[cell := p.pos + s.cap], producer := p.(pc := StoreTail))
    case StoreTail =>
      s.(tail := p.pos + 1, producer := Idle)
  }

  function StepConsumer<T>(s: State<T>, casOk: bool): State<T>
    requires s.Shaped() && s.consumer.Popping?
  {
    var (t, out) := StepClaim(s, s.consumer.claim, ByConsumer, casOk);
    match out
    case Running(d) => t.(consumer := Popping(d))
    case Got(v) => t.(consumer := Resting, popped := s.popped + [v])
    case Empty => t.(consumer := Resting)
  }

  function Next<T>(s: State<T>, a: Action<T>): State<T>
    requires s.Shaped() && Enabled(s, a)
  {
    match a
    case BeginPush(item) => s.(producer := Pushing(item, s.tail, false, 0, Check))
    case StepPush(ok) => StepProducer(s, ok)
    case BeginPop => s.(consumer := Popping(LoadHead))
    case StepPop(ok) => StepConsumer(s, ok)
  }

  /** `t` is reached from `s` by the schedule `run`. */
  ghost predicate Reaches<T>(s: State<T>, run: seq<Action<T>>, t: State<T>)
    decreases |run|
  {
    if run == [] then s == t
    else s.Shaped() && Enabled(s, run[0]) && Reaches(Next(s, run[0]), run[1..], t)
  }

  // -------------------------------------------------------------- invariant

  predicate InFlight<T>(s: State<T>, h: nat) {
    s.producer.Holds(h) || s.consumer.Holds(h)
  }

  /** Cell `c` still carries the element published for logical index `i`: unclaimed or being taken. */
  predicate Occupied<T>(s: State<T>, i: int) {
    i >= 0 && (i >= s.head || InFlight(s, i))
  }

  ghost predicate CellInv<T>(s: State<T>, c: nat)
    requires s.Shaped() && c < s.cap
  {
    var n := s.next[c];
    && Slot(n, s.cap) == c
    && |s.pushed| <= n < |s.pushed| + s.cap
    && if Occupied(s, n - s.cap)
       then s.seqs[c] == n - s.cap + 1 && (n - s.cap >= s.head ==> s.data[c] == s.pushed[n - s.cap])
       else s.seqs[c] == n
  }

  ghost predicate Cells<T>(s: State<T>)
    requires s.Shaped()
  {
    forall c: nat | c < s.cap :: CellInv(s, c)
  }

  ghost predicate ClaimInv<T>(s: State<T>, c: Claim<T>, who: Taker)
    requires s.Shaped() && s.head <= |s.pushed| && |s.claims| == s.head
  {
    match c
    case LoadHead => true
    case LoadSeq(p) => p <= s.head
    case Cas(p) => p <= s.head && p < |s.pushed|
    case Take(p) => p < s.head && |s.pushed| <= p + s.cap && s.claims[p] == who && s.data[Slot(p, s.cap)] == s.pushed[p]
    case Free(p, v) => p < s.head && |s.pushed| <= p + s.cap && s.claims[p] == who && v == s.pushed[p]
  }

  /** 1 while the producer has won an element it has not yet counted as dropped. */
  function Uncounted<T>(p: Producer<T>): nat {
    if p.Pushing? && (p.pc.Count? || (p.pc.Claiming? && (p.pc.claim.Take? || p.pc.claim.Free?))) then 1 else 0
  }

  /** The producer is still trying to win an element. */
  predicate Seeking<T>(p: Producer<T>) {
    p.Pushing? && p.pc.Claiming? && !p.pc.claim.Take? && !p.pc.claim.Free?
  }

  /** What one push has discarded, against the one cell it is waiting for. */
  ghost predicate DropInv<T>(s: State<T>)
    requires s.producer.Pushing? && |s.claims| == s.head
  {
    var p := s.producer;
    var mine := p.drops + Uncounted(p);
    var oldest := p.pos - s.cap;
    && (p.dropped <==> p.drops > 0)
    && if p.pc.Write? || p.pc.Publish? || p.pc.StoreTail? then p.drops < s.cap
       else if Seeking(p) then
         && oldest >= 0
         && ((oldest == s.head && mine == 0)
             || (oldest < s.head && s.claims[oldest] == ByConsumer && mine + oldest < s.head))
       else
         mine == 0 || (0 <= oldest < s.head && if s.claims[oldest] == ByConsumer then mine + oldest < s.head else mine == 1)
  }

  ghost predicate ProducerInv<T>(s: State<T>)
    requires s.Shaped() && s.head <= |s.pushed| && |s.claims| == s.head
  {
    match s.producer
    case Idle => |s.pushed| == s.tail
    case Pushing(item, pos, _, _, pc) =>
      && pos == s.tail
      && |s.pushed| == (if pc.StoreTail? then pos + 1 else pos)
      && (pc.StoreTail? ==> s.pushed[pos] == item)
      && (pc.Claiming? ==> ClaimInv(s, pc.claim, ByProducer))
      && (pc.Write? || pc.Publish? ==> s.seqs[Slot(pos, s.cap)] == pos)
      && (pc.Publish? ==> s.data[Slot(pos, s.cap)] == item)
      && DropInv(s)
  }

  /** The values of `pushed` at the indices that `who` has claimed, in index order. */
  function Picked<T>(pushed: seq<T>, claims: seq<Taker>, who: Taker): seq<T>
    requires |claims| <= |pushed|
  {
    if claims == [] then []
    else
      var n := |claims| - 1;
      Picked(pushed, claims[..n], who) + (if claims[n] == who then [pushed[n]] else [])
  }

  /** The element the consumer has won but `pop` has not returned yet. */
  function Pending<T>(s: State<T>): seq<T> {
    if s.consumer.Popping? && (s.consumer.claim.Take? || s.consumer.claim.Free?) && s.consumer.claim.pos < |s.pushed|
    then [s.pushed[s.consumer.claim.pos]] else []
  }

  ghost predicate Accounts<T>(s: State<T>)
    requires |s.claims| <= |s.pushed|
  {
    && Picked(s.pushed, s.claims, ByConsumer) == s.popped + Pending(s)
    && |Picked(s.pushed, s.claims, ByProducer)| == s.dropCount + Uncounted(s.producer)
  }

  ghost predicate Inv<T>(s: State<T>) {
    && s.Shaped() && s.cap >= 2
    && s.head <= |s.pushed| <= s.head + s.cap
    && |s.claims| == s.head
    && Cells(s)
    && ProducerInv(s)
    && (s.consumer.Popping? ==> ClaimInv(s, s.consumer.claim, ByConsumer))
    && Accounts(s)
  }

  // ------------------------------------------------------------- arithmetic

  /** Two indices that share a cell are at least a whole lap apart. */
  lemma {:induction false} SameCellFarApart(i: nat, j: nat, cap: nat)
    requires cap >= 1 && Slot(i, cap) == Slot(j, cap) && i < j
    ensures j - i >= cap
  {
    if i >= cap {
      SameCellFarApart(i - cap, j - cap, cap);
    }
  }

  /** A cell's entry in `next` is determined by any index of the current lap that maps to it. */
  lemma NextIs<T>(s: State<T>, i: nat)
    requires s.Shaped() && CellInv(s, Slot(i, s.cap)) && |s.pushed| <= i < |s.pushed| + s.cap
    ensures s.next[Slot(i, s.cap)] == i
  {
    var n := s.next[Slot(i, s.cap)];
    if n < i { SameCellFarApart(n, i, s.cap); } else if i < n { SameCellFarApart(i, n, s.cap); }
  }
}
