/** Index arithmetic of a circular buffer whose indices advance with
    `index = (index + 1) % capacity`. */
module Ring {

  /** The array slot holding the `i`-th live element when the oldest one sits at `start`. */
  function Slot(start: nat, i: nat, capacity: nat): (k: nat)
    requires start < capacity && i <= capacity
    ensures k < capacity
  {
    if start + i < capacity then start + i else start + i - capacity
  }

  /** `(start + i) % capacity` is the slot of the `i`-th element. */
  lemma ModIsSlot(start: nat, i: nat, capacity: nat)
    requires start < capacity && i <= capacity
    ensures (start + i) % capacity == Slot(start, i, capacity)
  {
    var x := start + i;
    if x < capacity {
      assert x == 0 * capacity + x;
    } else {
      assert x == 1 * capacity + (x - capacity);
    }
  }

  /** Distinct positions below the capacity occupy distinct slots. */
  lemma SlotInjective(start: nat, i: nat, j: nat, capacity: nat)
    requires start < capacity && i < capacity && j < capacity
    ensures Slot(start, i, capacity) == Slot(start, j, capacity) ==> i == j
  {
  }

  /** Advancing the start by one slot shifts every position by one. */
  lemma SlotAdvance(start: nat, i: nat, capacity: nat)
    requires start < capacity && i < capacity
    ensures (start + 1) % capacity < capacity
    ensures Slot((start + 1) % capacity, i, capacity) == Slot(start, i + 1, capacity)
  {
    ModIsSlot(start, 1, capacity);
  }

  /** Advancing a slot index by one, with wrap-around, moves to the next position. */
  lemma SlotNext(start: nat, i: nat, capacity: nat)
    requires start < capacity && i < capacity
    ensures (Slot(start, i, capacity) + 1) % capacity == Slot(start, i + 1, capacity)
  {
    ModIsSlot(Slot(start, i, capacity), 1, capacity);
  }
}
