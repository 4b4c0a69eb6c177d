/**
 The queue's own code on its arrays, run by one thread at a time: what `push` and `pop` do to the
 contents when the other thread is not inside a call. Interleavings are the subject of `SpscRing`.
 */
module SpscRingBuffers {
  import opened Options
  import opened SpscRing
  import opened CellIndex

  class SpscRingBuffer<T(0)> {
    const capacity: nat
    const sequences: array<nat>
    const data: array<T>
    var head: nat
    var tail: nat
    var dropped: nat

    ghost predicate Shape() {
      capacity >= 2 && sequences.Length == capacity && data.Length == capacity && sequences as object != data as object
    }

    ghost predicate Valid()
      reads this, sequences
    {
      && Shape() && head <= tail <= head + capacity
      && (forall i :: head <= i < tail ==> sequences[Slot(i, capacity)] == i + 1)
      && (forall i :: tail <= i < head + capacity ==> sequences[Slot(i, capacity)] == i)
    }

    /** The published, unclaimed elements, oldest first. */
    ghost function Contents(): seq<T>
      requires Valid()
      reads this, sequences, data
    {
      Window(data[..], head, tail - head)
    }

    /** The elements of `n` consecutive logical indices, read from their cells. */
    static ghost function Window(cells: seq<T>, from: nat, n: nat): (w: seq<T>)
      requires |cells| >= 1
      ensures |w| == n && forall k :: 0 <= k < n ==> w[k] == cells[Slot(from + k, |cells|)]
    {
      if n == 0 then [] else Window(cells, from, n - 1) + [cells[Slot(from + n - 1, |cells|)]]
    }

    constructor (capacity: nat)
      requires AcceptableCapacity(capacity)
      ensures Valid() && this.capacity == capacity && Contents() == [] && dropped == 0
      ensures fresh(sequences) && fresh(data)
    {
      this.capacity := capacity;
      sequences := new nat[capacity](i => i);
      data := new T[capacity];
      head, tail, dropped := 0, 0, 0;
    }

    /** The constructor throws on a capacity that is not a power of two, or is below two. */
    static method Create(capacity: nat) returns (buffer: Option<SpscRingBuffer<T>>)
      ensures buffer.Some? <==> capacity >= 2 && IsPowerOfTwo(capacity)
      ensures buffer.Some? ==>
                && fresh(buffer.value) && fresh(buffer.value.sequences) && fresh(buffer.value.data)
                && buffer.value.Valid() && buffer.value.Contents() == []
    {
      if capacity >= 1 {
        SharesNoBitIffPowerOfTwo(capacity);
      }
      if capacity < 2 || BitAnd(capacity, capacity - 1) != 0 {
        return None;
      }
      var b := new SpscRingBuffer<T>(capacity);
      buffer := Some(b);
    }

    /** Indices less than a lap apart live in different cells. */
    lemma CellsDiffer(i: nat)
      requires capacity >= 1
      ensures forall j: nat :: i < j < i + capacity ==> Slot(i, capacity) != Slot(j, capacity)
      ensures forall j: nat :: j < i < j + capacity ==> Slot(i, capacity) != Slot(j, capacity)
    {
      forall j: nat | i < j < i + capacity
        ensures Slot(i, capacity) != Slot(j, capacity)
      {
        if Slot(i, capacity) == Slot(j, capacity) { SameCellFarApart(i, j, capacity); }
      }
      forall j: nat | j < i < j + capacity
        ensures Slot(i, capacity) != Slot(j, capacity)
      {
        if Slot(i, capacity) == Slot(j, capacity) { SameCellFarApart(j, i, capacity); }
      }
    }

    method TryClaimFront(defaultOut: T) returns (ok: bool, out: T)
      requires Valid()
      modifies this`head, sequences
      ensures Valid() && tail == old(tail)
      ensures ok <==> old(Contents()) != []
      ensures ok ==> out == old(Contents())[0] && Contents() == old(Contents())[1..]
      ensures !ok ==> out == defaultOut && Contents() == old(Contents())
    {
      out := defaultOut;
      var pos := head;
      var cell := Slot(pos, capacity);
      assert head < tail ==> sequences[Slot(head, capacity)] == head + 1;
      assert head == tail ==> sequences[Slot(head, capacity)] == head;
      if sequences[cell] == pos + 1 {
        CellsDiffer(pos);
        head := pos + 1;
        out := data[cell];
        sequences[cell] := pos + capacity;
        ok := true;
        ghost var before := old(Contents());
        AfterClaim(before, pos);
      } else {
        ok := false;
      }
    }

    /** The back cell reads its own index exactly when the queue is not full. */
    lemma BackCell()
      requires Valid()
      ensures sequences[Slot(tail, capacity)] == tail <==> tail < head + capacity
    {
      if tail == head + capacity {
        assert Slot(tail, capacity) == Slot(head, capacity);
      }
    }

    /** Fills the vacated back cell and publishes it. */
    method Publish(item: T)
      requires Valid() && tail < head + capacity
      modifies this`tail, sequences, data
      ensures Valid() && Contents() == old(Contents()) + [item]
    {
      CellsDiffer(tail);
      ghost var cells := data[..];
      data[Slot(tail, capacity)] := item;
      sequences[Slot(tail, capacity)] := tail + 1;
      tail := tail + 1;
      AfterWrite(cells, tail - 1, item);
    }

    /** Adds at the back; when full, the oldest element makes room and is counted as dropped. */
    method Push(item: T) returns (added: bool)
      requires Valid()
      modifies this, sequences, data
      ensures Valid()
      ensures added <==> |old(Contents())| < capacity
      ensures Contents() == (if added then old(Contents()) else old(Contents())[1..]) + [item]
      ensures dropped == old(dropped) + (if added then 0 else 1)
    {
      var pos := tail;
      added := true;
      BackCell();
      while sequences[Slot(pos, capacity)] != pos
        invariant Valid() && tail == pos
        invariant sequences[Slot(pos, capacity)] == pos <==> pos < head + capacity
        invariant added ==> Contents() == old(Contents()) && dropped == old(dropped)
        invariant !added ==>
                    && |old(Contents())| == capacity && Contents() == old(Contents())[1..]
                    && dropped == old(dropped) + 1
        decreases added
      {
        var discarded: T := *;
        var claimed;
        claimed, discarded := TryClaimFront(discarded);
        if claimed {
          dropped := dropped + 1;
          added := false;
        }
        BackCell();
      }
      Publish(item);
    }

    lemma AfterClaim(before: seq<T>, pos: nat)
      requires Valid() && head == pos + 1 && pos < tail
      requires before == Window(data[..], pos, tail - pos)
      ensures before[0] == data[Slot(pos, capacity)] && Contents() == before[1..]
    {
      assert pos + 0 == pos;
      var c := Contents();
      forall k | 0 <= k < |c|
        ensures c[k] == before[k + 1]
      {
        assert head + k == pos + (k + 1);
      }
    }

    /** Filling the cell at the back leaves the cells of the elements before it alone. */
    lemma AfterWrite(cells: seq<T>, pos: nat, item: T)
      requires Valid() && head <= pos && tail == pos + 1 && |cells| == capacity
      requires data[..] == cells[Slot(pos, capacity) := item]
      ensures Contents() == Window(cells, head, pos - head) + [item]
    {
      CellsDiffer(pos);
      var c, w := Contents(), Window(cells, head, pos - head);
      assert head + (pos - head) == pos;
      assert c[pos - head] == item;
      forall k | 0 <= k < pos - head
        ensures c[k] == w[k]
      {
        assert Slot(head + k, capacity) != Slot(pos, capacity);
      }
    }

    method Pop(defaultOut: T) returns (ok: bool, out: T)
      requires Valid()
      modifies this`head, sequences
      ensures Valid() && dropped == old(dropped)
      ensures ok <==> old(Contents()) != []
      ensures ok ==> out == old(Contents())[0] && Contents() == old(Contents())[1..]
      ensures !ok ==> Contents() == old(Contents())
    {
      ok, out := TryClaimFront(defaultOut);
    }
  }
}
