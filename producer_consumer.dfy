/** The bounded buffer of `ProducerConsumerWithCondition`: a fixed array used
    as a ring, with a put index, a take index, an element count and running
    totals of produced and consumed items. Each method is one critical
    section, executed atomically while the lock is held. A blocking call
    waits in `while (count == capacity)` (or `count == 0`) until another
    thread changes the state; here that wait is the enabledness predicate
    `CanProduce()` (or `CanConsume()`) in the method's precondition. */
module ProducerConsumer {
  import opened Optional
  import opened Ring

  class ConditionBuffer<T> {
    const capacity: nat
    /** The slots; `None` is a `null` slot. */
    const buffer: array<Option<T>>
    var count: nat
    var putIndex: nat
    var takeIndex: nat
    var totalProduced: nat
    var totalConsumed: nat

    /** The buffered items, oldest first. */
    ghost var Contents: seq<T>

    ghost predicate Valid()
      reads this, buffer
    {
      && buffer.Length == capacity
      && count <= capacity
      && |Contents| == count
      && (capacity == 0 ==> putIndex == 0 && takeIndex == 0)
      && (capacity > 0 ==>
            && takeIndex < capacity
            && putIndex == (takeIndex + count) % capacity
            // the live slots, read from takeIndex on, hold the contents in order
            && (forall i :: 0 <= i < count ==> buffer[Slot(takeIndex, i, capacity)] == Some(Contents[i]))
            // every other slot is null
            && (forall i :: count <= i < capacity ==> buffer[Slot(takeIndex, i, capacity)] == None))
      && totalProduced - totalConsumed == count
    }

    /** `produce` can leave its wait loop. */
    predicate CanProduce()
      reads this
    {
      count < capacity
    }

    /** `consume` can leave its wait loop. */
    predicate CanConsume()
      reads this
    {
      count > 0
    }

    constructor (capacity: nat)
      ensures Valid() && fresh(buffer)
      ensures this.capacity == capacity
      ensures Contents == [] && count == 0 && putIndex == 0 && takeIndex == 0
      ensures totalProduced == 0 && totalConsumed == 0
    {
      this.capacity := capacity;
      buffer := new Option<T>[capacity](_ => None);
      count, putIndex, takeIndex := 0, 0, 0;
      totalProduced, totalConsumed := 0, 0;
      Contents := [];
    }

    /** `produce`: stores `item` after the newest element. */
    method Produce(item: T)
      requires Valid() && CanProduce()
      modifies this, buffer
      ensures Valid()
      ensures Contents == old(Contents) + [item]
      ensures count == old(count) + 1
      ensures putIndex == (old(putIndex) + 1) % capacity && takeIndex == old(takeIndex)
      ensures totalProduced == old(totalProduced) + 1 && totalConsumed == old(totalConsumed)
    {
      ghost var n := count;
      ModIsSlot(takeIndex, n, capacity);
      SlotNext(takeIndex, n, capacity);
      ModIsSlot(takeIndex, n + 1, capacity);
      forall i | 0 <= i < capacity && i != n
        ensures Slot(takeIndex, i, capacity) != putIndex
      {
        SlotInjective(takeIndex, i, n, capacity);
      }
      buffer[putIndex] := Some(item);
      putIndex := (putIndex + 1) % capacity;
      count := count + 1;
      totalProduced := totalProduced + 1;
      Contents := Contents + [item];
    }

    /** `consume`: removes and returns the oldest element, clearing its slot. */
    method Consume() returns (item: T)
      requires Valid() && CanConsume()
      modifies this, buffer
      ensures Valid()
      ensures item == old(Contents)[0] && Contents == old(Contents)[1..]
      ensures count == old(count) - 1
      ensures buffer[old(takeIndex)] == None
      ensures takeIndex == (old(takeIndex) + 1) % capacity && putIndex == old(putIndex)
      ensures totalConsumed == old(totalConsumed) + 1 && totalProduced == old(totalProduced)
    {
      assert buffer[Slot(takeIndex, 0, capacity)] == Some(Contents[0]);
      var slot := buffer[takeIndex];
      item := slot.value;
      buffer[takeIndex] := None;
      ghost var oldTake := takeIndex;
      forall i | 0 <= i < capacity
        ensures i != 0 ==> Slot(oldTake, i, capacity) != oldTake
      {
        SlotInjective(oldTake, i, 0, capacity);
      }
      takeIndex := (takeIndex + 1) % capacity;
      count := count - 1;
      totalConsumed := totalConsumed + 1;
      Contents := Contents[1..];
      forall i | 0 <= i < capacity
        ensures Slot(takeIndex, i, capacity) == Slot(oldTake, i + 1, capacity)
      {
        SlotAdvance(oldTake, i, capacity);
      }
      assert Slot(takeIndex, capacity - 1, capacity) == oldTake;
      ModIsSlot(oldTake, count + 1, capacity);
      ModIsSlot(takeIndex, count, capacity);
    }

    /** `tryProduce`: stores `item` and answers true when there is room;
        on a full buffer answers false and changes nothing. */
    method TryProduce(item: T) returns (ok: bool)
      requires Valid()
      modifies this, buffer
      ensures Valid()
      ensures ok == old(CanProduce())
      ensures ok ==> Contents == old(Contents) + [item]
                     && putIndex == (old(putIndex) + 1) % capacity && takeIndex == old(takeIndex)
                     && totalProduced == old(totalProduced) + 1 && totalConsumed == old(totalConsumed)
      ensures !ok ==> unchanged(this) && unchanged(buffer)
    {
      if count < capacity {
        Produce(item);
        ok := true;
      } else {
        ok := false;
      }
    }

    /** `tryConsume`: removes and returns the oldest element when there is one;
        on an empty buffer returns `null` and changes nothing. */
    method TryConsume() returns (r: Option<T>)
      requires Valid()
      modifies this, buffer
      ensures Valid()
      ensures r.Some? == old(CanConsume())
      ensures r.Some? ==> r.value == old(Contents)[0] && Contents == old(Contents)[1..]
                          && buffer[old(takeIndex)] == None
                          && takeIndex == (old(takeIndex) + 1) % capacity && putIndex == old(putIndex)
                          && totalConsumed == old(totalConsumed) + 1 && totalProduced == old(totalProduced)
      ensures r.None? ==> unchanged(this) && unchanged(buffer)
    {
      if count > 0 {
        var item := Consume();
        r := Some(item);
      } else {
        r := None;
      }
    }
  }

  /** Producing `x` into an empty buffer and consuming gives `x` back and
      leaves the buffer empty again. */
  method ProduceConsumeRoundTrip<T>(b: ConditionBuffer<T>, x: T) returns (y: T)
    requires b.Valid() && b.count == 0 && b.capacity > 0
    modifies b, b.buffer
    ensures b.Valid()
    ensures y == x && b.count == 0 && b.Contents == []
  {
    b.Produce(x);
    y := b.Consume();
  }

  /** A consumer sees items in the order they were produced. */
  method ProduceTwoConsumeTwo<T>(b: ConditionBuffer<T>, x: T, y: T) returns (first: T, second: T)
    requires b.Valid() && b.count == 0 && b.capacity >= 2
    modifies b, b.buffer
    ensures b.Valid()
    ensures first == x && second == y && b.Contents == []
  {
    b.Produce(x);
    b.Produce(y);
    first := b.Consume();
    second := b.Consume();
  }
}
