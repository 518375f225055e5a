/** What every step of every thread keeps. */
module QueueInvariant {
  import opened SlotLayout
  import opened FifoModel
  import opened QueueMemory
  import opened QueueSteps

  // ---- The mutex ----

  predicate ProducerOwns(p: ProducerPc) { !p.PIdle? && !p.PLock? && !p.PCountRejected? }

  predicate ConsumerOwns(c: ConsumerPc) {
    || c.CTestCount? || c.CTestShutdown? || c.CStartWait? || c.CFinalTest? || c.CReadHeader? || c.CSetFlag?
    || c.CUnlockEmpty? || (c.CTake? && !c.stage.Allocate? && !c.stage.GiveBack?)
  }

  predicate ShutdownOwns(s: ShutdownPc) { s.SStore? || s.SUnlock? }

  predicate Locks(s: State) {
    && (s.m.owner == ByProducer <==> ProducerOwns(s.p))
    && (s.m.owner == ByConsumer <==> ConsumerOwns(s.c))
    && (s.m.owner == ByShutdown <==> ShutdownOwns(s.s))
  }

  // ---- Indices ----

  predicate TailLags(c: ConsumerPc) { c.CTake? && c.stage.AdvanceTail? }

  predicate CountLags(s: State) { s.p.PDecCount? || (s.c.CTake? && (s.c.stage.AdvanceTail? || s.c.stage.DecCount?)) }

  predicate Indices(s: State) {
    && s.m.head == Slot(|s.h.log|, s.g.capacity)
    && s.m.tail == Slot(if TailLags(s.c) then s.h.taken - 1 else s.h.taken, s.g.capacity)
    && s.m.count == |s.h.log| - s.h.taken + (if CountLags(s) then 1 else 0) - (if s.p.PIncCount? then 1 else 0)
  }

  ghost predicate Shape(s: State) {
    && WellFormed(Now(s))
    && SLOT_HEADER_SIZE + s.g.maxLen <= s.g.stride && |s.m.region| == s.g.stride * s.g.capacity
    && forall i :: 0 <= i < |s.h.log| ==> |s.h.log[i].payload| <= s.g.maxLen && |s.h.log[i].payload| < 0x1_0000_0000
  }

  // ---- The producer ----

  predicate HasFrame(p: ProducerPc) {
    || p.PLock? || p.PTestShutdown? || p.PTestFull? || p.PTestOldest? || p.PAdvanceTail? || p.PDecCount?
    || p.PCountEvicted? || p.PTestHead? || p.PWrite? || p.PAdvanceHead?
  }

  predicate PastShutdownTest(p: ProducerPc) {
    ProducerOwns(p) && !p.PTestShutdown? && !p.PUnlockRefused?
  }

  ghost predicate ProducerFacts(s: State) {
    && (HasFrame(s.p) ==> 0 < |s.p.f.payload| <= s.g.maxLen && |s.p.f.payload| < 0x1_0000_0000)
    && (PastShutdownTest(s.p) ==> !s.m.shut)
    && (EvictionPending(s.p) ==> Held(s) == {} && s.h.pops < s.h.taken && |s.h.log| - s.h.taken == s.g.capacity - 1)
    && (s.p.PTestOldest? ==> !s.p.evicted && s.m.count == s.g.capacity)
    && (s.p.PAdvanceTail? ==> Held(s) == {} && s.m.count == s.g.capacity)
    && (s.p.PIncCount? || s.p.PCountPushed? ==> s.h.taken < |s.h.log|)
    && (s.p.PTestHead? ==> s.m.count < s.g.capacity)
    && (s.p.PUnlockRejected? ==> !s.p.evicted)
    && (s.p.PWrite? || s.p.PAdvanceHead? ==> HeadFree(Now(s)))
  }

  /** The prefix of the new frame's image that is already in the free slot. */
  ghost predicate Written(s: State) {
    && (s.p.PWrite? ==> s.p.k <= |Image(s.p.f)| && Stored(s.m.region, s.g.stride, s.m.head, Image(s.p.f)[..s.p.k]))
    && (s.p.PAdvanceHead? ==> Stored(s.m.region, s.g.stride, s.m.head, Image(s.p.f)))
  }

  // ---- The consumer and the packets ----

  ghost predicate ConsumerFacts(s: State) {
    && (s.c.CTestShutdown? ==> (s.c.w.NoWait? <==> s.m.count > 0) && s.m.count >= 0)
    && (s.c.CStartWait? ==> s.m.count == 0 && !s.m.shut && !s.c.w.NoWait?)
    && (s.c.CBlocked? || s.c.CWoken? ==> !s.c.w.NoWait?)
    && (s.c.CFinalTest? ==> s.m.count >= 0 && (s.m.count == 0 ==> s.m.shut && !s.c.w.NoWait?))
    && (s.c.CFinalTest? || s.c.CReadHeader? || s.c.CSetFlag? ==> s.c.w.NoWait? ==> !s.m.shut)
    && (s.c.CReadHeader? || s.c.CSetFlag? ==> s.h.taken < |s.h.log| && s.c.slot == s.m.tail)
    && (s.c.CReadHeader? ==>
          |s.c.bytes| <= SLOT_HEADER_SIZE && s.c.bytes == SlotHeader(s.h.log[s.h.taken])[..|s.c.bytes|])
    && (s.c.CSetFlag? ==> s.c.meta == MetaOf(s.h.log[s.h.taken]))
  }

  ghost predicate PacketsShow(s: State) {
    && (forall j :: j in s.packets ==>
          j < |s.h.log| && s.packets[j].slot == Slot(j, s.g.capacity) && s.packets[j].meta == MetaOf(s.h.log[j]))
    && (s.c.CTake? ==>
          && s.c.j < |s.h.log| && s.c.slot == Slot(s.c.j, s.g.capacity) && s.c.meta == MetaOf(s.h.log[s.c.j])
          && s.c.j !in s.packets
          && (ConsumerOwns(s.c) ==> s.c.j == s.h.taken - 1))
  }

  // ---- Counters and snapshots ----

  function OneIf(b: bool): nat { if b then 1 else 0 }

  predicate Counters(s: State) {
    && s.n.pushed + OneIf(s.p.PIncCount? || s.p.PCountPushed?) == |s.h.log|
    && s.n.popped + OneIf(s.c.CTake? && ConsumerOwns(s.c) && !s.c.stage.Unlock?) == s.h.pops
    && s.n.dropped + OneIf(s.p.PDecCount? || s.p.PCountEvicted?) + OneIf(s.p.PUnlockRejected? || s.p.PCountRejected?)
       == s.h.taken - s.h.pops + s.h.rejects
    && s.h.pops == |s.h.delivered| + s.h.unallocated + OneIf(s.c.CTake?)
    && s.h.rejects >= OneIf(s.p.PUnlockRejected? || s.p.PCountRejected?)
    && s.h.attempts == |s.h.log| + s.h.rejects
       + OneIf(PastShutdownTest(s.p) && HasFrame(s.p))
  }

  predicate Snapshots(s: State) {
    && s.n.pushed <= s.n.dropped + s.n.popped + s.g.capacity
    && s.n.popped <= s.n.pushed
    && (s.r.RDropped? ==> s.r.n <= s.n.dropped + s.n.popped + s.g.capacity)
    && (s.r.RPopped? ==> s.r.n <= s.r.d + s.n.popped + s.g.capacity)
    && (s.r.RDone? ==> s.r.n <= s.r.d + s.r.o + s.g.capacity && s.r.o <= s.n.pushed)
  }

  // ---- The condition variable ----

  predicate Wakeups(s: State) {
    s.c.CBlocked? ==>
      && (s.m.count > 0 ==> s.p.PCountPushed? || s.p.PSignal?)
      && (s.m.shut ==> s.s.SUnlock? || s.s.SBroadcast?)
  }

  // ---- Order ----

  ghost predicate Ordered(s: State) {
    && (forall i :: 0 <= i < |s.h.log| ==> s.h.log[i].seqNo < |s.h.calls| && s.h.calls[s.h.log[i].seqNo] == s.h.log[i])
    && (forall i, k :: 0 <= i < k < |s.h.log| ==> s.h.log[i].seqNo < s.h.log[k].seqNo)
    && (HasFrame(s.p) ==>
          && 0 < |s.h.calls| && s.p.f == s.h.calls[|s.h.calls| - 1] && s.p.f.seqNo == |s.h.calls| - 1
          && forall i :: 0 <= i < |s.h.log| ==> s.h.log[i].seqNo < s.p.f.seqNo)
  }

  ghost predicate Deliveries(s: State) {
    && (forall i :: 0 <= i < |s.h.delivered| ==> s.h.delivered[i] < s.h.taken <= |s.h.log|)
    && (forall i, k :: 0 <= i < k < |s.h.delivered| ==> s.h.delivered[i] < s.h.delivered[k])
    && (s.c.CTake? ==> forall i :: 0 <= i < |s.h.delivered| ==> s.h.delivered[i] < s.c.j < s.h.taken)
    && (s.c.CTake? && !ConsumerOwns(s.c) ==> s.c.j < s.h.taken)
  }

  ghost predicate Inv(s: State) {
    && Locks(s) && Indices(s) && Shape(s) && ProducerFacts(s) && Written(s) && ConsumerFacts(s) && PacketsShow(s)
    && FlagsMatch(s.m.flags, Now(s)) && BytesMatch(s.m.region, s.g.stride, Now(s))
    && Counters(s) && Snapshots(s) && Wakeups(s) && Ordered(s) && Deliveries(s)
  }
}
