/** How the FIFO sits in memory: the in-use flags and the slot bytes, and what each single change to them keeps. */
module QueueMemory {
  import opened Bits
  import opened ByteOrder
  import opened SlotLayout
  import opened FifoModel

  /** A slot's flag is set exactly while the packet of the frame last stored there is alive. */
  ghost predicate FlagsMatch(flags: seq<bool>, q: Fifo) {
    && 0 < q.capacity == |flags|
    && forall j: int :: |q.log| - q.capacity <= j < |q.log| ==> (flags[Slot(j, q.capacity)] <==> j in q.held)
  }

  /** Every queued or held frame is stored, byte for byte, in its slot. */
  ghost predicate BytesMatch(region: seq<byte>, stride: nat, q: Fifo) {
    && q.capacity > 0
    && forall j: nat :: Present(q, j) && j < |q.log| ==> Stored(region, stride, Slot(j, q.capacity), Image(q.log[j]))
  }

  /** The flag push tests at the head tells whether the frame accepted capacity pushes ago is still held. */
  lemma HeadFlag(flags: seq<bool>, q: Fifo)
    requires FlagsMatch(flags, q)
    ensures flags[Slot(|q.log|, q.capacity)] <==> |q.log| - q.capacity in q.held
  {
    SlotPeriodic(|q.log|, q.capacity);
  }

  lemma FlagsAfterAppend(flags: seq<bool>, q: Fifo, f: Frame)
    requires FlagsMatch(flags, q) && WellFormed(q) && HeadFree(q)
    ensures FlagsMatch(flags, q.(log := q.log + [f]))
  {
    HeadFlag(flags, q);
  }

  lemma FlagsAfterPop(flags: seq<bool>, q: Fifo)
    requires FlagsMatch(flags, q) && WellFormed(q) && Count(q) > 0
    ensures FlagsMatch(flags[Slot(q.taken, q.capacity) := true], Pop(q))
  {
    FlagsAfterStore(flags, q, q.taken, true, Pop(q));
  }

  lemma FlagsAfterRelease(flags: seq<bool>, q: Fifo, k: nat)
    requires FlagsMatch(flags, q) && WellFormed(q) && k in q.held
    ensures FlagsMatch(flags[Slot(k, q.capacity) := false], Release(q, k))
  {
    FlagsAfterStore(flags, q, k, false, Release(q, k));
  }

  lemma FlagsAfterStore(flags: seq<bool>, q: Fifo, k: nat, b: bool, q': Fifo)
    requires FlagsMatch(flags, q) && |q.log| - q.capacity <= k < |q.log|
    requires q'.log == q.log && q'.capacity == q.capacity
    requires forall j :: j != k ==> (j in q'.held <==> j in q.held)
    requires k in q'.held <==> b
    ensures FlagsMatch(flags[Slot(k, q.capacity) := b], q')
  {
    forall j: int | |q.log| - q.capacity <= j < |q.log| && j != k
      ensures Slot(j, q.capacity) != Slot(k, q.capacity)
    {
      if j < k { SlotsDiffer(j, k, q.capacity); } else { SlotsDiffer(k, j, q.capacity); }
    }
  }

  /** Writing into the free slot at the head disturbs no queued and no held frame. */
  lemma WriteAtFreeHead(region: seq<byte>, region': seq<byte>, stride: nat, q: Fifo)
    requires BytesMatch(region, stride, q) && WellFormed(q) && HeadFree(q)
    requires SameOutside(region, region', SlotStart(Slot(|q.log|, q.capacity), stride), stride)
    ensures BytesMatch(region', stride, q)
  {
    var head := Slot(|q.log|, q.capacity);
    forall j: nat | Present(q, j) && j < |q.log|
      ensures Stored(region', stride, Slot(j, q.capacity), Image(q.log[j]))
    {
      SlotsDiffer(j, |q.log|, q.capacity);
      StoredElsewhere(region, region', stride, Slot(j, q.capacity), head, Image(q.log[j]));
    }
  }

  /** Once the whole image is in the free slot, the frame can be appended. */
  lemma BytesAfterAppend(region: seq<byte>, stride: nat, q: Fifo, f: Frame)
    requires BytesMatch(region, stride, q)
    requires Stored(region, stride, Slot(|q.log|, q.capacity), Image(f))
    requires WellFormed(q)
    ensures BytesMatch(region, stride, q.(log := q.log + [f]))
  {
  }

  /** Frames only leave the queue's memory: what is still present is still stored. */
  lemma BytesAfterLeaving(region: seq<byte>, stride: nat, q: Fifo, q': Fifo)
    requires BytesMatch(region, stride, q) && q'.log == q.log && q'.capacity == q.capacity
    requires forall j: nat :: Present(q', j) ==> Present(q, j)
    ensures BytesMatch(region, stride, q')
  {
  }

  /** The slot i places after slot start. */
  function After(start: nat, i: nat, capacity: nat): (k: nat)
    requires capacity > 0
    ensures k < capacity
  {
    (start + i) % capacity
  }

  lemma SlotAdd(j: int, i: nat, capacity: nat)
    requires capacity > 0
    ensures Slot(j + i, capacity) == After(Slot(j, capacity), i, capacity)
  {
    var q, r := j / capacity, j % capacity;
    var q1, r1 := (r + i) / capacity, (r + i) % capacity;
    assert j == q * capacity + r && r + i == q1 * capacity + r1;
    assert j + i == (q + q1) * capacity + r1;
    DivModUnique(j + i, capacity, q + q1, r1);
  }

  /** No slot between tail and head carries a flag. */
  lemma QueuedSlotUnflagged(flags: seq<bool>, q: Fifo, i: nat)
    requires FlagsMatch(flags, q) && WellFormed(q) && i < Count(q)
    ensures !flags[After(Slot(q.taken, q.capacity), i, q.capacity)]
  {
    SlotAdd(q.taken, i, q.capacity);
    hide Slot, After;
    assert q.taken + i !in q.held;
  }
}
