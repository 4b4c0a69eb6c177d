/** The bit tricks of the queue: the mask that picks a cell, and the test for a usable capacity. */
module CellIndex {
  import opened SpscRing

  /** Bitwise conjunction, from the lowest bit up. */
  function BitAnd(a: nat, b: nat): nat {
    if a == 0 || b == 0 then 0 else 2 * BitAnd(a / 2, b / 2) + (a % 2) * (b % 2)
  }

  predicate IsPowerOfTwo(n: nat)
    decreases n
  {
    n == 1 || (n > 0 && n % 2 == 0 && IsPowerOfTwo(n / 2))
  }

  predicate AcceptableCapacity(capacity: nat) {
    capacity >= 2 && IsPowerOfTwo(capacity)
  }

  lemma {:induction false} AndItself(a: nat)
    ensures BitAnd(a, a) == a
  {
    if a != 0 {
      AndItself(a / 2);
    }
  }

  /** The constructor's test: a positive number shares no bit with its predecessor iff it is a power of two. */
  lemma {:induction false} SharesNoBitIffPowerOfTwo(n: nat)
    requires n >= 1
    ensures BitAnd(n, n - 1) == 0 <==> IsPowerOfTwo(n)
  {
    if n % 2 == 1 {
      AndItself(n / 2);
    } else {
      SharesNoBitIffPowerOfTwo(n / 2);
    }
  }

  /** Halving the index and the capacity halves the cell, and the lowest bit stays. */
  lemma {:induction false} HalfSlot(i: nat, half: nat)
    requires half >= 1
    ensures Slot(i, 2 * half) == 2 * Slot(i / 2, half) + i % 2
  {
    if i >= 2 * half {
      HalfSlot(i - 2 * half, half);
    }
  }

  /** The cell the program reaches by masking an index is the cell of the model. */
  lemma {:induction false} MaskIsSlot(i: nat, cap: nat)
    requires IsPowerOfTwo(cap)
    ensures BitAnd(i, cap - 1) == Slot(i, cap)
    decreases cap
  {
    if i != 0 && cap != 1 {
      MaskIsSlot(i / 2, cap / 2);
      HalfSlot(i, cap / 2);
    }
  }
}
