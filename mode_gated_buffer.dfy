/** The resource pool of `MultipleConditionsDemo`: a ring buffer of `int`s
    like the producer/consumer buffer, plus a read mode and a write mode that
    independently suspend `take` and `put` without touching buffered data.
    `put` waits while `count == capacity || !writeMode` and `take` waits while
    `count == 0 || !readMode`; those waits are the enabledness predicates
    `CanPut()` and `CanTake()` in the preconditions. */
module MultipleConditions {
  import opened Ring

  class ModeGatedBuffer {
    const capacity: nat
    const buffer: array<int>
    var count: nat
    var putIndex: nat
    var takeIndex: nat
    var readMode: bool
    var writeMode: bool

    /** The buffered values, oldest first. */
    ghost var Contents: seq<int>

    ghost predicate Valid()
      reads this, buffer
    {
      && buffer.Length == capacity
      && count <= capacity
      && |Contents| == count
      && (capacity == 0 ==> putIndex == 0 && takeIndex == 0)
      && (capacity > 0 ==>
            && takeIndex < capacity
            && putIndex == (takeIndex + count) % capacity
            && (forall i :: 0 <= i < count ==> buffer[Slot(takeIndex, i, capacity)] == Contents[i]))
    }

    /** `put` can leave its wait loop: there is room and writing is allowed. */
    predicate CanPut()
      reads this
    {
      count < capacity && writeMode
    }

    /** `take` can leave its wait loop: there is an element and reading is allowed. */
    predicate CanTake()
      reads this
    {
      count > 0 && readMode
    }

    constructor (capacity: nat)
      ensures Valid() && fresh(buffer)
      ensures this.capacity == capacity
      ensures Contents == [] && count == 0 && putIndex == 0 && takeIndex == 0
      ensures readMode && writeMode
    {
      this.capacity := capacity;
      buffer := new int[capacity](_ => 0);
      count, putIndex, takeIndex := 0, 0, 0;
      readMode, writeMode := true, true;
      Contents := [];
    }

    /** `put`: stores `value` after the newest element. */
    method Put(value: int)
      requires Valid() && CanPut()
      modifies this, buffer
      ensures Valid()
      ensures Contents == old(Contents) + [value]
      ensures count == old(count) + 1
      ensures putIndex == (old(putIndex) + 1) % capacity && takeIndex == old(takeIndex)
      ensures readMode == old(readMode) && writeMode == old(writeMode)
    {
      ghost var n := count;
      ModIsSlot(takeIndex, n, capacity);
      SlotNext(takeIndex, n, capacity);
      ModIsSlot(takeIndex, n + 1, capacity);
      forall i | 0 <= i < n
        ensures Slot(takeIndex, i, capacity) != putIndex
      {
        SlotInjective(takeIndex, i, n, capacity);
      }
      buffer[putIndex] := value;
      putIndex := (putIndex + 1) % capacity;
      count := count + 1;
      Contents := Contents + [value];
    }

    /** `take`: removes and returns the oldest element (its slot keeps the stale value). */
    method Take() returns (value: int)
      requires Valid() && CanTake()
      modifies this
      ensures Valid()
      ensures value == old(Contents)[0] && Contents == old(Contents)[1..]
      ensures count == old(count) - 1
      ensures takeIndex == (old(takeIndex) + 1) % capacity && putIndex == old(putIndex)
      ensures readMode == old(readMode) && writeMode == old(writeMode)
    {
      assert buffer[Slot(takeIndex, 0, capacity)] == Contents[0];
      value := buffer[takeIndex];
      ghost var oldTake := takeIndex;
      takeIndex := (takeIndex + 1) % capacity;
      count := count - 1;
      Contents := Contents[1..];
      SlotAdvance(oldTake, 0, capacity);
      forall i | 0 <= i < count
        ensures Slot(takeIndex, i, capacity) == Slot(oldTake, i + 1, capacity)
        ensures buffer[Slot(takeIndex, i, capacity)] == Contents[i]
      {
        SlotAdvance(oldTake, i, capacity);
      }
      ModIsSlot(oldTake, count + 1, capacity);
      ModIsSlot(takeIndex, count, capacity);
    }

    /** `disableReadMode`: suspends `take`; `put` and the buffer are unaffected. */
    method DisableReadMode()
      requires Valid()
      modifies this`readMode
      ensures Valid()
      ensures !readMode && writeMode == old(writeMode)
      ensures Contents == old(Contents) && count == old(count)
      ensures putIndex == old(putIndex) && takeIndex == old(takeIndex)
      ensures !CanTake() && CanPut() == old(CanPut())
    {
      readMode := false;
    }

    /** `enableReadMode`: re-allows `take`; `put` and the buffer are unaffected. */
    method EnableReadMode()
      requires Valid()
      modifies this`readMode
      ensures Valid()
      ensures readMode && writeMode == old(writeMode)
      ensures Contents == old(Contents) && count == old(count)
      ensures putIndex == old(putIndex) && takeIndex == old(takeIndex)
      ensures CanTake() == (count > 0) && CanPut() == old(CanPut())
    {
      readMode := true;
    }

    /** `disableWriteMode`: suspends `put`; `take` and the buffer are unaffected. */
    method DisableWriteMode()
      requires Valid()
      modifies this`writeMode
      ensures Valid()
      ensures !writeMode && readMode == old(readMode)
      ensures Contents == old(Contents) && count == old(count)
      ensures putIndex == old(putIndex) && takeIndex == old(takeIndex)
      ensures !CanPut() && CanTake() == old(CanTake())
    {
      writeMode := false;
    }

    /** `enableWriteMode`: re-allows `put`; `take` and the buffer are unaffected. */
    method EnableWriteMode()
      requires Valid()
      modifies this`writeMode
      ensures Valid()
      ensures writeMode && readMode == old(readMode)
      ensures Contents == old(Contents) && count == old(count)
      ensures putIndex == old(putIndex) && takeIndex == old(takeIndex)
      ensures CanPut() == (count < capacity) && CanTake() == old(CanTake())
    {
      writeMode := true;
    }
  }

  /** Buffered values survive a read suspension: after disabling and
      re-enabling reads the flag is back on, the buffer is unchanged, and a
      `take` returns the oldest value that was put before. */
  method SuspendReadsThenTake(b: ModeGatedBuffer, x: int, y: int) returns (first: int)
    requires b.Valid() && b.count == 0 && b.capacity >= 2 && b.writeMode
    modifies b, b.buffer
    ensures b.Valid()
    ensures first == x && b.Contents == [y] && b.readMode
  {
    b.Put(x);
    b.Put(y);
    b.DisableReadMode();
    b.EnableReadMode();
    b.EnableReadMode();
    first := b.Take();
  }
}
