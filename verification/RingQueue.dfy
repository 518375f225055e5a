/** The ring queue itself: each operation is one critical section over the mapped region. The steps inside a critical
    section, and the other threads that run between them, are in QueueSteps. */
module RingQueue {
  import opened ByteOrder
  import opened SlotLayout
  import opened FifoModel
  import opened QueueMemory

  /** A zero-copy view of one slot; ticket is the number of the frame it shows. */
  class FramePacket {
    const meta: Meta
    const dataOffset: nat
    const slotIdx: nat
    var owner: RingQueue?
    ghost const ticket: nat

    constructor (meta: Meta, dataOffset: nat, slotIdx: nat, owner: RingQueue, ghost ticket: nat)
      ensures this.meta == meta && this.dataOffset == dataOffset && this.slotIdx == slotIdx
      ensures this.owner == owner && this.ticket == ticket
    {
      this.meta, this.dataOffset, this.slotIdx := meta, dataOffset, slotIdx;
      this.owner, this.ticket := owner, ticket;
    }
  }

  class RingQueue {
    const capacity: nat
    const maxFrameSize: nat
    var region: array?<byte>
    var slotStride: nat
    var slotInUse: array<bool>
    var head: nat
    var tail: nat
    var count: nat
    var shutdown: bool
    var framesPushed: nat
    var framesDropped: nat
    var framesPopped: nat
    ghost var q: Fifo

    ghost predicate Valid()
      reads this, region, slotInUse
    {
      region != null ==>
        && WellFormed(q) && q.capacity == capacity
        && 0 < maxFrameSize && SLOT_HEADER_SIZE + maxFrameSize <= slotStride
        && region.Length == slotStride * capacity
        && head == Slot(|q.log|, capacity) && tail == Slot(q.taken, capacity) && count == Count(q)
        && shutdown == q.shut
        && framesPushed == |q.log| && framesPopped == q.pops && framesDropped == Dropped(q)
        && FlagsMatch(slotInUse[..], q)
        && BytesMatch(region[..], slotStride, q)
        && forall j :: 0 <= j < |q.log| ==> |q.log[j].payload| < 0x1_0000_0000
    }

    /** Parameter checks and the two allocations; a queue that fails any of them stays unusable. */
    constructor (capacity: nat, maxFrameSize: nat, mmapOk: bool, mallocOk: bool)
      requires SLOT_HEADER_SIZE + maxFrameSize + 63 < 0x1_0000_0000_0000_0000
      requires CalcStride(maxFrameSize) * capacity < 0x1_0000_0000_0000_0000
      ensures Valid() && q == Empty(capacity)
      ensures this.capacity == capacity && this.maxFrameSize == maxFrameSize
      ensures region != null <==> capacity > 0 && maxFrameSize > 0 && mmapOk && mallocOk
      ensures region != null ==> fresh(region) && region.Length == CalcStride(maxFrameSize) * capacity
      ensures fresh(slotInUse)
    {
      this.capacity, this.maxFrameSize := capacity, maxFrameSize;
      slotStride := CalcStride(maxFrameSize);
      region := null;
      slotInUse := new bool[capacity](_ => false);
      head, tail, count, shutdown := 0, 0, 0, false;
      framesPushed, framesDropped, framesPopped := 0, 0, 0;
      q := Empty(capacity);
      new;
      if capacity > 0 && maxFrameSize > 0 && mmapOk && mallocOk {
        region := new byte[slotStride * capacity];
        StrideIsLeastMultiple(maxFrameSize);
        assert WellFormed(q);
      }
    }

    /** memcpy into the mapped region. */
    method StoreBytes(off: nat, b: seq<byte>)
      requires region != null && off + |b| <= region.Length
      modifies region
      ensures region[..] == Overwrite(old(region[..]), off, b)
    {
      ghost var before := region[..];
      var i := 0;
      while i < |b|
        invariant 0 <= i <= |b|
        invariant region[..] == Overwrite(before, off, b[..i])
      {
        region[off + i] := b[i];
        assert b[..i + 1] == b[..i] + [b[i]];
        i := i + 1;
      }
      assert b[..i] == b;
    }

    /** The six header fields, then the payload. */
    method StoreFrame(slot: nat, f: Frame)
      requires region != null && slot < capacity && region.Length == slotStride * capacity
      requires |Image(f)| <= slotStride
      modifies region
      ensures SameOutside(old(region[..]), region[..], SlotStart(slot, slotStride), slotStride)
      ensures Stored(region[..], slotStride, slot, Image(f))
    {
      SlotInside(slot, slotStride, capacity);
      var at := SlotStart(slot, slotStride);
      ghost var r := region[..];
      StoreBytes(at, Le(f.seqNo, 8));
      StoreBytes(at + 8, Le(f.timestamp, 8));
      StoreBytes(at + 16, Le(f.pixelFormat, 4));
      StoreBytes(at + 20, Le(f.width, 2));
      StoreBytes(at + 22, Le(f.height, 2));
      StoreBytes(at + 24, Le(|f.payload|, 4));
      StoreBytes(at + 28, f.payload);
      OverwriteTwice(r, at, Le(f.seqNo, 8), Le(f.timestamp, 8));
      OverwriteTwice(r, at, Le(f.seqNo, 8) + Le(f.timestamp, 8), Le(f.pixelFormat, 4));
      OverwriteTwice(r, at, Le(f.seqNo, 8) + Le(f.timestamp, 8) + Le(f.pixelFormat, 4), Le(f.width, 2));
      OverwriteTwice(r, at, Le(f.seqNo, 8) + Le(f.timestamp, 8) + Le(f.pixelFormat, 4) + Le(f.width, 2),
                     Le(f.height, 2));
      OverwriteTwice(r, at, Le(f.seqNo, 8) + Le(f.timestamp, 8) + Le(f.pixelFormat, 4) + Le(f.width, 2)
                     + Le(f.height, 2), Le(|f.payload|, 4));
      OverwriteTwice(r, at, SlotHeader(f), f.payload);
      assert region[..] == Overwrite(r, at, Image(f));
    }

    /** The eviction loop: runs at most once, and never meets a slot in use. */
    method DropOldest()
      requires Valid() && region != null
      modifies this`tail, this`count, this`framesDropped, this`q
      ensures Valid() && Count(q) < capacity
      ensures q == if Count(old(q)) >= capacity then old(q).(taken := old(q).taken + 1) else old(q)
    {
      hide BytesMatch, Slot, SlotStart;
      QueuedPlusHeldFit(q);
      while count >= capacity
        invariant Valid()
        invariant q == old(q) || (Count(q) < capacity && q == old(q).(taken := old(q).taken + 1))
        invariant Count(old(q)) < capacity ==> q == old(q)
        invariant q.held != {} ==> Count(q) < capacity
        decreases count
      {
        if slotInUse[tail] {
          // A full queue holds nothing, so its oldest slot cannot be in use.
          assert false;
        }
        EvictOne();
      }
    }

    /** Moves the tail past the oldest frame. */
    method EvictOne()
      requires Valid() && region != null && Count(q) > 0 && q.held == {}
      modifies this`tail, this`count, this`framesDropped, this`q
      ensures Valid() && q == old(q).(taken := old(q).taken + 1)
    {
      hide BytesMatch, Slot, SlotStart;
      SlotNext(q.taken, capacity);
      BytesAfterLeaving(region[..], slotStride, q, q.(taken := q.taken + 1));
      tail := (tail + 1) % capacity;
      count := count - 1;
      framesDropped := framesDropped + 1;
      q := q.(taken := q.taken + 1);
    }

    method CountRejected()
      requires Valid() && region != null
      modifies this`framesDropped, this`q
      ensures Valid() && q == old(q).(rejects := old(q).rejects + 1)
    {
      BytesAfterLeaving(region[..], slotStride, q, q.(rejects := q.rejects + 1));
      framesDropped := framesDropped + 1;
      q := q.(rejects := q.rejects + 1);
    }

    /** Stores the frame at the free head slot and publishes it. */
    method Append(f: Frame)
      requires Valid() && region != null && HeadFree(q) && |f.payload| <= maxFrameSize && |f.payload| < 0x1_0000_0000
      modifies this`head, this`count, this`framesPushed, this`q, region
      ensures Valid() && q == old(q).(log := old(q).log + [f])
    {
      hide BytesMatch, Slot, SlotStart;
      StoreFrame(head, f);
      WriteAtFreeHead(old(region[..]), region[..], slotStride, q);
      BytesAfterAppend(region[..], slotStride, q, f);
      FlagsAfterAppend(slotInUse[..], q, f);
      SlotNext(|q.log|, capacity);
      head := (head + 1) % capacity;
      count := count + 1;
      framesPushed := framesPushed + 1;
      q := q.(log := q.log + [f]);
    }

    /** What push does while it owns the mutex. */
    method PushLocked(f: Frame) returns (ok: bool)
      requires Valid() && region != null && |f.payload| <= maxFrameSize && |f.payload| < 0x1_0000_0000
      modifies this`head, this`tail, this`count, this`framesPushed, this`framesDropped, this`q, region
      ensures Valid() && q == FifoModel.Push(old(q), f)
      ensures ok <==> Outcome(old(q)) == Appended || Outcome(old(q)) == EvictedOldest
    {
      hide BytesMatch, Slot, SlotStart;
      if shutdown { return false; }
      DropOldest();
      QueuedPlusHeldFit(old(q));
      HeadFlag(slotInUse[..], q);
      if slotInUse[head] {
        CountRejected();
        return false;
      }
      Append(f);
      ok := true;
    }

    /** The producer's call. Arguments are checked before the mutex is taken; then the queue behaves as the FIFO. */
    method Push(seqNo: u64, timestamp: u64, data: array?<byte>, len: u32, pixelFormat: u32, width: u16, height: u16)
      returns (ok: bool)
      requires Valid()
      requires data != null ==> len <= data.Length
      modifies this, region, slotInUse
      ensures Valid() && region == old(region) && slotInUse == old(slotInUse)
      ensures region == null || data == null || len == 0 || len > maxFrameSize ==> !ok && q == old(q)
      ensures region != null && data != null && 0 < len <= maxFrameSize ==>
        && q == FifoModel.Push(old(q), Frame(seqNo, timestamp, pixelFormat, width, height, old(data[..len])))
        && (ok <==> Outcome(old(q)) == Appended || Outcome(old(q)) == EvictedOldest)
    {
      if region == null || data == null || len == 0 { return false; }
      if len > maxFrameSize { return false; }
      ok := PushLocked(Frame(seqNo, timestamp, pixelFormat, width, height, data[..len]));
    }

    /** The consumer's call, from its start or from a wake-up on. blocked: the caller sleeps on the condition variable
        and nothing has changed. expired: it goes on because its timed wait ran out; then it returns null even if frames
        arrived meanwhile. allocOk: the packet could be allocated. */
    method Pop(timeoutMs: int, expired: bool, allocOk: bool) returns (pkt: FramePacket?, blocked: bool)
      requires Valid() && (expired ==> timeoutMs > 0)
      modifies this, slotInUse
      ensures Valid() && region == old(region) && slotInUse == old(slotInUse) && slotStride == old(slotStride)
      ensures region == null ==> pkt == null && !blocked && q == old(q)
      ensures region != null ==>
        var q0 := old(q);
        var takes := Count(q0) > 0 && !(timeoutMs == 0 && q0.shut) && !expired;
        && (blocked <==> Count(q0) == 0 && !q0.shut && timeoutMs != 0 && !expired)
        && (pkt != null <==> takes && allocOk)
        && q == (if !takes then q0 else if allocOk then FifoModel.Pop(q0) else Release(FifoModel.Pop(q0), q0.taken))
        && (pkt != null ==> fresh(pkt) && Shows(pkt) && pkt.ticket == q0.taken)
    {
      pkt, blocked := null, false;
      if region == null { return; }

      if timeoutMs < 0 {
        if count == 0 && !shutdown { blocked := true; return; }
      } else if timeoutMs == 0 {
        if count == 0 || shutdown { return; }
      } else {
        if expired { return; }
        if count == 0 && !shutdown { blocked := true; return; }
      }
      if count == 0 { return; }

      ghost var ticket := q.taken;
      var idx, meta := TakeFront();
      if !allocOk {
        ReleaseSlot(idx, ticket);
        return;
      }
      pkt := new FramePacket(meta, SlotStart(idx, slotStride) + SLOT_HEADER_SIZE, idx, this, ticket);
      FrontView(ticket);
    }

    /** What a held frame's slot shows. */
    lemma FrontView(ticket: nat)
      requires Valid() && region != null && Present(q, ticket) && ticket < |q.log|
      ensures var f, at := q.log[ticket], SlotStart(Slot(ticket, capacity), slotStride);
        && at + |Image(f)| <= region.Length
        && region[at..at + SLOT_HEADER_SIZE] == SlotHeader(f)
        && region[at + SLOT_HEADER_SIZE..at + |Image(f)|] == f.payload
    {
      var f, at := q.log[ticket], SlotStart(Slot(ticket, capacity), slotStride);
      assert region[..][at..at + |Image(f)|] == Image(f);
      assert region[at..at + SLOT_HEADER_SIZE] == Image(f)[..SLOT_HEADER_SIZE];
      assert region[at + SLOT_HEADER_SIZE..at + |Image(f)|] == Image(f)[SLOT_HEADER_SIZE..];
    }

    /** The metadata in the slot at the tail. */
    method ReadFront() returns (meta: Meta)
      requires Valid() && region != null && Count(q) > 0
      ensures meta == MetaOf(q.log[q.taken])
    {
      FrontView(q.taken);
      HeaderReadsBack(q.log[q.taken]);
      hide BytesMatch, FlagsMatch, Slot, SlotStart, SlotHeader, ReadHeader;
      var at := SlotStart(tail, slotStride);
      meta := ReadHeader(region[at..at + SLOT_HEADER_SIZE]);
    }

    /** Reads the oldest frame's metadata, flags its slot and takes it off the queue. */
    method TakeFront() returns (idx: nat, meta: Meta)
      requires Valid() && region != null && Count(q) > 0
      modifies this`tail, this`count, this`framesPopped, this`q, slotInUse
      ensures Valid() && q == FifoModel.Pop(old(q))
      ensures idx == Slot(old(q).taken, capacity) && meta == MetaOf(old(q).log[old(q).taken])
    {
      hide BytesMatch, Slot, SlotStart;
      idx := tail;
      meta := ReadFront();
      FlagsAfterPop(slotInUse[..], q);
      BytesAfterLeaving(region[..], slotStride, q, FifoModel.Pop(q));
      SlotNext(q.taken, capacity);
      OperationsKeepShape(q, q.log[q.taken], 0);
      slotInUse[idx] := true;
      tail := (tail + 1) % capacity;
      count := count - 1;
      framesPopped := framesPopped + 1;
      q := FifoModel.Pop(q);
    }

    /** The packet is alive and its metadata and data view are those of the frame it was popped for. */
    ghost predicate Shows(pkt: FramePacket)
      reads this, region, pkt
    {
      && pkt.owner == this && region != null
      && pkt.ticket in q.held && pkt.ticket < |q.log| && capacity > 0
      && pkt.slotIdx == Slot(pkt.ticket, capacity)
      && pkt.meta == MetaOf(q.log[pkt.ticket])
      && pkt.dataOffset + pkt.meta.len <= region.Length
      && pkt.dataOffset == SlotStart(pkt.slotIdx, slotStride) + SLOT_HEADER_SIZE
      && region[pkt.dataOffset..pkt.dataOffset + pkt.meta.len] == q.log[pkt.ticket].payload
    }

    /** Clears the slot's flag; the packet's destructor calls it without the mutex. */
    method ReleaseSlot(slotIdx: nat, ghost ticket: nat)
      requires Valid() && region != null && ticket in q.held && slotIdx == Slot(ticket, capacity)
      modifies this`q, slotInUse
      ensures Valid() && q == Release(old(q), ticket)
    {
      FlagsAfterRelease(slotInUse[..], q, ticket);
      BytesAfterLeaving(region[..], slotStride, q, Release(q, ticket));
      slotInUse[slotIdx] := false;
      q := Release(q, ticket);
    }

    method Shutdown()
      requires Valid()
      modifies this
      ensures Valid() && shutdown && q == FifoModel.Shutdown(old(q))
      ensures region == old(region) && slotInUse == old(slotInUse)
    {
      shutdown := true;
      q := FifoModel.Shutdown(q);
      if region != null { BytesAfterLeaving(region[..], slotStride, old(q), q); }
    }

    /** Without concurrent calls the three counters account for every frame. */
    method GetStats() returns (pushed: nat, dropped: nat, popped: nat)
      requires Valid() && region != null
      ensures pushed == |q.log| && dropped == Dropped(q) && popped == q.pops
      ensures pushed + q.rejects == popped + dropped + Count(q)
    {
      return framesPushed, framesDropped, framesPopped;
    }

    /** A held packet keeps showing its frame whatever push does meanwhile. */
    twostate lemma HeldViewSurvives(pkt: FramePacket)
      requires old(Valid()) && Valid() && old(Shows(pkt)) && region == old(region) && slotStride == old(slotStride)
      requires old(q.log) <= q.log && pkt.ticket in q.held && pkt.owner == old(pkt.owner)
      ensures Shows(pkt)
    {
      FrontView(pkt.ticket);
    }
  }

  /** Destroys a packet: releases its slot once, then frees it. A null packet is ignored. */
  method FramePacketFree(pkt: FramePacket?)
    requires pkt != null && pkt.owner != null ==> pkt.owner.Valid() && pkt.owner.Shows(pkt)
    modifies pkt, if pkt == null || pkt.owner == null then {} else {pkt.owner, pkt.owner.slotInUse}
    ensures pkt != null ==> pkt.owner == null
    ensures pkt != null && old(pkt.owner) != null ==>
      var queue := old(pkt.owner);
      queue.Valid() && queue.q == Release(old(queue.q), pkt.ticket)
  {
    if pkt == null { return; }
    var queue := pkt.owner;
    if queue != null { queue.ReleaseSlot(pkt.slotIdx, pkt.ticket); }
    pkt.owner := null;
  }
}
