/** Every step keeps the invariant; one lemma for each part of it and each thread. */
module QueueProof {
  import opened ByteOrder
  import opened SlotLayout
  import opened FifoModel
  import opened QueueMemory
  import opened QueueSteps
  import opened QueueInvariant

  // ---- Locks, indices, counters, wake-ups ----

  ghost predicate Control(s: State) { Locks(s) && Indices(s) && Counters(s) && Wakeups(s) }

  lemma LocksKept(s: State, a: Action)
    requires Locks(s) && Enabled(s, a)
    ensures Locks(Step(s, a))
  {
    hide Slot, SlotStart, Image, ReadHeader;
  }

  lemma NextSlot(j: int, capacity: pos)
    ensures Slot(j + 1, capacity) == Next(Slot(j, capacity), capacity)
  {
    SlotNext(j, capacity);
  }

  lemma IndicesByProducer(s: State, a: Action)
    requires Locks(s) && Indices(s) && Enabled(s, a) && a.Producer?
    ensures Indices(Step(s, a))
  {
    hide ConsumerStep, ShutdownStep, ReaderStep, ReleaseStep, StartPush;
    NextSlot(|s.h.log|, s.g.capacity);
    NextSlot(s.h.taken, s.g.capacity);
    hide Next, Slot, SlotStart, Image, ReadHeader;
  }

  lemma IndicesByConsumer(s: State, a: Action)
    requires Locks(s) && Indices(s) && Enabled(s, a) && a.Consumer?
    ensures Indices(Step(s, a))
  {
    hide ProducerStep, ShutdownStep, ReaderStep, ReleaseStep, StartPush;
    NextSlot(s.h.taken - 1, s.g.capacity);
    hide Next, Slot, SlotStart, Image, ReadHeader;
  }

  lemma CountersByProducer(s: State, a: Action)
    requires Locks(s) && Counters(s) && Enabled(s, a) && a.Producer?
    ensures Counters(Step(s, a))
  {
    hide ConsumerStep, ShutdownStep, ReaderStep, ReleaseStep, StartPush, Slot, SlotStart, Image, ReadHeader;
  }

  lemma CountersByConsumer(s: State, a: Action)
    requires Locks(s) && Counters(s) && Enabled(s, a) && a.Consumer?
    ensures Counters(Step(s, a))
  {
    hide ProducerStep, ShutdownStep, ReaderStep, ReleaseStep, StartPush, Slot, SlotStart, Image, ReadHeader;
  }

  lemma CountersByOthers(s: State, a: Action)
    requires Locks(s) && Counters(s) && Enabled(s, a) && !a.Producer? && !a.Consumer?
    ensures Counters(Step(s, a))
  {
    hide ProducerStep, ConsumerStep, Slot, SlotStart, Image, ReadHeader;
  }

  lemma WakeupsByProducer(s: State, a: Action)
    requires Locks(s) && Wakeups(s) && Enabled(s, a) && a.Producer?
    ensures Wakeups(Step(s, a))
  {
    hide ConsumerStep, ShutdownStep, ReaderStep, ReleaseStep, StartPush, Slot, SlotStart, Image, ReadHeader;
  }

  lemma WakeupsByConsumer(s: State, a: Action)
    requires ConsumerFacts(s) && Wakeups(s) && Enabled(s, a) && a.Consumer?
    ensures Wakeups(Step(s, a))
  {
    hide ProducerStep, ShutdownStep, ReaderStep, ReleaseStep, StartPush, Slot, SlotStart, Image, ReadHeader, SlotHeader;
  }

  lemma ControlByProducer(s: State, a: Action)
    requires Control(s) && Enabled(s, a) && a.Producer?
    ensures Control(Step(s, a))
  {
    LocksKept(s, a);
    IndicesByProducer(s, a);
    CountersByProducer(s, a);
    WakeupsByProducer(s, a);
    hide Step, Enabled, Locks, Indices, Counters, Wakeups;
  }

  lemma ControlByConsumer(s: State, a: Action)
    requires Control(s) && ConsumerFacts(s) && Enabled(s, a) && a.Consumer?
    ensures Control(Step(s, a))
  {
    LocksKept(s, a);
    IndicesByConsumer(s, a);
    CountersByConsumer(s, a);
    WakeupsByConsumer(s, a);
    hide Step, Enabled, Locks, Indices, Counters, Wakeups;
  }

  lemma ControlByOthers(s: State, a: Action)
    requires Control(s) && Enabled(s, a) && !a.Producer? && !a.Consumer?
    ensures Control(Step(s, a))
  {
    hide ProducerStep, ConsumerStep;
    LocksKept(s, a);
    CountersByOthers(s, a);
    hide Slot, SlotStart, Image, ReadHeader, Counters, Locks;
  }

  // ---- What is held ----

  ghost function HeldAfter(s: State, a: Action): set<nat> {
    if a.Consumer? && s.c.CSetFlag? then Held(s) + {s.h.taken}
    else if a.Consumer? && s.c.CTake? && s.c.stage.GiveBack? then Held(s) - {s.c.j}
    else if a.ReleasePacket? then Held(s) - {a.j}
    else Held(s)
  }

  /** Only the flag-setting step adds to the held frames; only releasing one, or giving it back, removes it. */
  lemma HeldChanges(s: State, a: Action)
    requires PacketsShow(s) && Enabled(s, a)
    ensures Held(Step(s, a)) == HeldAfter(s, a)
  {
    hide Slot, SlotStart, Image, ReadHeader;
  }

  // ---- The FIFO's shape ----

  lemma ShapeByProducer(s: State, a: Action)
    requires Indices(s) && Locks(s) && ProducerFacts(s) && Shape(s) && Enabled(s, a) && a.Producer?
    ensures Shape(Step(s, a))
  {
    hide ConsumerStep, ShutdownStep, ReaderStep, ReleaseStep, StartPush, Slot, SlotStart, Image, ReadHeader;
    var s' := Step(s, a);
    assert Held(s') == Held(s) && s'.g == s.g && |s'.m.region| == |s.m.region|;
    if !s.p.PAdvanceTail? && !s.p.PAdvanceHead? {
      assert s'.h.log == s.h.log && s'.h.taken == s.h.taken && s'.h.pops == s.h.pops;
    }
  }

  lemma ShapeByRest(s: State, a: Action)
    requires ConsumerFacts(s) && PacketsShow(s) && Shape(s) && Enabled(s, a) && !a.Producer?
    ensures Shape(Step(s, a))
  {
    HeldChanges(s, a);
    LogByRest(s, a);
    hide Step, Enabled, Held, PacketsShow;
  }

  /** Only the producer writes bytes or appends; the consumer takes a frame when it sets the flag. */
  lemma LogByRest(s: State, a: Action)
    requires Enabled(s, a) && !a.Producer?
    ensures var s' := Step(s, a);
      && s'.h.log == s.h.log && s'.g == s.g && s'.m.region == s.m.region
      && s'.h.taken == s.h.taken + OneIf(a.Consumer? && s.c.CSetFlag?)
      && s'.h.pops == s.h.pops + OneIf(a.Consumer? && s.c.CSetFlag?)
  {
    hide ProducerStep, Slot, SlotStart, Image, ReadHeader;
  }

  // ---- The packets ----

  lemma PacketsByProducer(s: State, a: Action)
    requires Locks(s) && PacketsShow(s) && Enabled(s, a) && a.Producer?
    ensures PacketsShow(Step(s, a))
  {
    hide ConsumerStep, ShutdownStep, ReaderStep, ReleaseStep, StartPush, Slot, SlotStart, Image, ReadHeader;
    var s' := Step(s, a);
    assert s'.packets == s.packets && s'.g == s.g && s.h.log <= s'.h.log;
    assert s'.c.CTake? <==> s.c.CTake?;
  }

  lemma PacketsByTaking(s: State, a: Action)
    requires Indices(s) && Shape(s) && ConsumerFacts(s) && PacketsShow(s)
    requires Enabled(s, a) && a.Consumer? && s.c.CSetFlag?
    ensures PacketsShow(Step(s, a))
  {
    assert s.h.taken !in s.packets by { assert s.h.taken !in Held(s); }
    hide ProducerStep, ShutdownStep, ReaderStep, ReleaseStep, StartPush, TakeStep;
    hide Slot, SlotStart, Image, ReadHeader, Shape;
  }

  lemma PacketsByConsumer(s: State, a: Action)
    requires Indices(s) && Shape(s) && ConsumerFacts(s) && PacketsShow(s) && Enabled(s, a) && a.Consumer?
    ensures PacketsShow(Step(s, a))
  {
    if s.c.CSetFlag? {
      PacketsByTaking(s, a);
    } else {
      LogByRest(s, a);
      hide ProducerStep, ShutdownStep, ReaderStep, ReleaseStep, StartPush;
      hide Slot, SlotStart, Image, ReadHeader, Shape, Indices, ConsumerFacts;
      if !s.c.CTake? { assert Step(s, a).packets == s.packets && !Step(s, a).c.CTake?; }
    }
  }

  lemma PacketsByOthers(s: State, a: Action)
    requires Locks(s) && PacketsShow(s) && Enabled(s, a) && !a.Producer? && !a.Consumer?
    ensures PacketsShow(Step(s, a))
  {
    hide ProducerStep, ConsumerStep, Slot, SlotStart, Image, ReadHeader;
  }

  // ---- Order ----

  lemma OrderedByProducer(s: State, a: Action)
    requires Ordered(s) && Enabled(s, a) && a.Producer?
    ensures Ordered(Step(s, a))
  {
    hide ConsumerStep, ShutdownStep, ReaderStep, ReleaseStep, StartPush, Slot, SlotStart, Image, ReadHeader;
    var s' := Step(s, a);
    assert s'.h.calls == s.h.calls;
    if s.p.PAdvanceHead? {
      assert s'.h.log == s.h.log + [s.p.f] && !HasFrame(s'.p);
    } else {
      assert s'.h.log == s.h.log && (HasFrame(s'.p) ==> HasFrame(s.p) && s'.p.f == s.p.f);
    }
  }

  lemma OrderedByRest(s: State, a: Action)
    requires Ordered(s) && Enabled(s, a) && !a.Producer?
    ensures Ordered(Step(s, a))
  {
    LogByRest(s, a);
    hide ProducerStep, Slot, SlotStart, Image, ReadHeader;
  }

  lemma DeliveriesByConsumer(s: State, a: Action)
    requires Shape(s) && ConsumerFacts(s) && Deliveries(s) && Enabled(s, a) && a.Consumer?
    ensures Deliveries(Step(s, a))
  {
    hide ProducerStep, ShutdownStep, ReaderStep, ReleaseStep, StartPush, Slot, SlotStart, Image, ReadHeader;
    var s' := Step(s, a);
    assert s.h.taken <= s'.h.taken && s'.h.log == s.h.log;
    if !(s.c.CTake? && s.c.stage.Allocate?) { assert s'.h.delivered == s.h.delivered; }
  }

  lemma DeliveriesKept(s: State, a: Action)
    requires Locks(s) && Shape(s) && ConsumerFacts(s) && Deliveries(s) && Enabled(s, a) && Shape(Step(s, a))
    ensures Deliveries(Step(s, a))
  {
    if a.Consumer? {
      DeliveriesByConsumer(s, a);
    } else {
      hide ConsumerStep, Slot, SlotStart, Image, ReadHeader, ConsumerFacts;
      var s' := Step(s, a);
      assert s.h.taken <= s'.h.taken <= |s'.h.log| && s'.h.delivered == s.h.delivered;
      assert s'.c.CTake? <==> s.c.CTake?;
      assert s'.c.CTake? ==> s'.c.j == s.c.j && (ConsumerOwns(s'.c) <==> ConsumerOwns(s.c));
    }
  }

  // ---- The facts a thread relies on between its own steps ----

  /** What the producer learns from the two flags it tests. */
  lemma ProducerTests(s: State)
    requires Locks(s) && Indices(s) && Shape(s) && ProducerFacts(s) && FlagsMatch(s.m.flags, Now(s))
    ensures s.m.head < |s.m.flags| && (s.m.flags[s.m.head] <==> |s.h.log| - s.g.capacity in Held(s))
    ensures s.p.PTestOldest? ==> Held(s) == {} && s.m.tail < |s.m.flags| && !s.m.flags[s.m.tail]
  {
    HeadFlag(s.m.flags, Now(s));
    QueuedPlusHeldFit(Now(s));
    if s.p.PTestOldest? {
      assert s.m.flags[Slot(s.h.taken, s.g.capacity)] <==> s.h.taken in Held(s);
    }
  }

  lemma ProducerFactsByTest(s: State, a: Action)
    requires Locks(s) && Indices(s) && Shape(s) && ProducerFacts(s) && FlagsMatch(s.m.flags, Now(s))
    requires Enabled(s, a) && a.Producer? && (s.p.PTestOldest? || s.p.PTestHead?)
    ensures ProducerFacts(Step(s, a))
  {
    ProducerTests(s);
    hide ConsumerStep, ShutdownStep, ReaderStep, ReleaseStep, StartPush, Slot, SlotStart, Image, ReadHeader;
    hide FlagsMatch;
  }

  lemma ProducerFactsByMove(s: State, a: Action)
    requires Locks(s) && Indices(s) && Shape(s) && ProducerFacts(s)
    requires Enabled(s, a) && a.Producer? && (s.p.PTestFull? || s.p.PAdvanceTail?)
    ensures ProducerFacts(Step(s, a))
  {
    hide ConsumerStep, ShutdownStep, ReaderStep, ReleaseStep, StartPush, Slot, SlotStart, Image, ReadHeader;
  }

  lemma ProducerFactsByProducer(s: State, a: Action)
    requires Locks(s) && Indices(s) && Shape(s) && ProducerFacts(s) && FlagsMatch(s.m.flags, Now(s))
    requires Enabled(s, a) && a.Producer?
    ensures ProducerFacts(Step(s, a))
  {
    if s.p.PTestOldest? || s.p.PTestHead? {
      ProducerFactsByTest(s, a);
    } else if s.p.PTestFull? || s.p.PAdvanceTail? {
      ProducerFactsByMove(s, a);
    } else {
      hide ConsumerStep, ShutdownStep, ReaderStep, ReleaseStep, StartPush, Slot, SlotStart, Image, ReadHeader;
      hide FlagsMatch;
    }
  }

  lemma ProducerFactsByRest(s: State, a: Action)
    requires Locks(s) && Indices(s) && ProducerFacts(s)
    requires Enabled(s, a) && !a.Producer?
    ensures ProducerFacts(Step(s, a))
  {
    hide ProducerStep, Slot, SlotStart, Image, ReadHeader, Next;
  }

  /** Reading the next header byte under the mutex yields the byte that was stored. */
  lemma HeaderByte(s: State)
    requires s.c.CReadHeader? && Indices(s) && Shape(s) && ConsumerFacts(s) && Locks(s)
    requires BytesMatch(s.m.region, s.g.stride, Now(s)) && |s.c.bytes| < SLOT_HEADER_SIZE
    ensures var at := SlotStart(s.c.slot, s.g.stride) + |s.c.bytes|;
      at < |s.m.region| && s.m.region[at] == SlotHeader(s.h.log[s.h.taken])[|s.c.bytes|]
  {
    var f := s.h.log[s.h.taken];
    assert Present(Now(s), s.h.taken);
    var start := SlotStart(s.c.slot, s.g.stride);
    assert s.m.region[start..start + |Image(f)|][|s.c.bytes|] == Image(f)[|s.c.bytes|];
  }

  lemma ConsumerFactsByConsumer(s: State, a: Action)
    requires Locks(s) && Indices(s) && Shape(s) && ConsumerFacts(s) && BytesMatch(s.m.region, s.g.stride, Now(s))
    requires Enabled(s, a) && a.Consumer?
    ensures ConsumerFacts(Step(s, a))
  {
    hide ProducerStep, ShutdownStep, ReaderStep, ReleaseStep, StartPush, Slot, SlotStart, Image, ReadHeader, SlotHeader;
    if s.c.CReadHeader? {
      var hdr, k := SlotHeader(s.h.log[s.h.taken]), |s.c.bytes|;
      HeaderReadsBack(s.h.log[s.h.taken]);
      if k < SLOT_HEADER_SIZE {
        HeaderByte(s);
        assert hdr[..k + 1] == hdr[..k] + [hdr[k]];
      } else {
        assert s.c.bytes[..SLOT_HEADER_SIZE] == hdr;
      }
    }
    hide BytesMatch;
  }

  lemma ConsumerFactsByRest(s: State, a: Action)
    requires Locks(s) && Indices(s) && ConsumerFacts(s)
    requires Enabled(s, a) && !a.Consumer?
    ensures ConsumerFacts(Step(s, a))
  {
    hide ConsumerStep, Slot, SlotStart, Image, ReadHeader, SlotHeader;
  }

  // ---- The bytes being written ----

  lemma WrittenByWriting(s: State, a: Action)
    requires Indices(s) && Shape(s) && ProducerFacts(s) && Written(s) && Enabled(s, a) && a.Producer? && s.p.PWrite?
    ensures Written(Step(s, a))
  {
    var img, k := Image(s.p.f), s.p.k;
    assert |img| <= s.g.stride;
    SlotInside(s.m.head, s.g.stride, s.g.capacity);
    hide ConsumerStep, ShutdownStep, ReaderStep, ReleaseStep, StartPush, Slot, SlotStart, Image, ReadHeader;
    hide ProducerFacts, Shape;
    if k < |img| {
      StoredOneMore(s.m.region, s.g.stride, s.m.head, img, k);
    } else {
      assert img[..k] == img;
    }
  }

  lemma WrittenByProducer(s: State, a: Action)
    requires Indices(s) && Shape(s) && ProducerFacts(s) && Written(s) && Enabled(s, a) && a.Producer?
    ensures Written(Step(s, a))
  {
    if s.p.PWrite? {
      WrittenByWriting(s, a);
    } else {
      if s.p.PTestHead? { SlotInside(s.m.head, s.g.stride, s.g.capacity); }
      hide ConsumerStep, ShutdownStep, ReaderStep, ReleaseStep, StartPush, Slot, Image, ReadHeader;
    }
  }

  lemma WrittenByRest(s: State, a: Action)
    requires Locks(s) && Written(s) && Enabled(s, a) && !a.Producer?
    ensures Written(Step(s, a))
  {
    hide ProducerStep, Slot, SlotStart, Image, ReadHeader;
  }

  // ---- The flags ----

  lemma FlagsByProducer(s: State, a: Action)
    requires Shape(s) && ProducerFacts(s) && FlagsMatch(s.m.flags, Now(s)) && Enabled(s, a) && a.Producer?
    ensures FlagsMatch(Step(s, a).m.flags, Now(Step(s, a)))
  {
    hide ConsumerStep, ShutdownStep, ReaderStep, ReleaseStep, StartPush, Slot, SlotStart, Image, ReadHeader;
    if s.p.PAdvanceHead? { FlagsAfterAppend(s.m.flags, Now(s), s.p.f); }
    assert Held(Step(s, a)) == Held(s);
  }

  lemma FlagsByTaking(s: State, a: Action)
    requires Indices(s) && Shape(s) && ConsumerFacts(s) && PacketsShow(s) && FlagsMatch(s.m.flags, Now(s))
    requires Enabled(s, a) && a.Consumer? && s.c.CSetFlag?
    ensures FlagsMatch(Step(s, a).m.flags, Now(Step(s, a)))
  {
    hide ProducerStep, ShutdownStep, ReaderStep, ReleaseStep, StartPush;
    HeldChanges(s, a);
    FlagsAfterPop(s.m.flags, Now(s));
    assert s.c.slot == Slot(s.h.taken, s.g.capacity);
    hide Slot, SlotStart, Image, ReadHeader, Held, FlagsMatch, Shape;
    assert Step(s, a).m.flags == s.m.flags[s.c.slot := true];
    assert Now(Step(s, a)) == FifoModel.Pop(Now(s));
  }

  lemma FlagsByGivingBack(s: State, a: Action)
    requires Shape(s) && PacketsShow(s) && FlagsMatch(s.m.flags, Now(s))
    requires Enabled(s, a) && a.Consumer? && s.c.CTake? && s.c.stage.GiveBack?
    ensures FlagsMatch(Step(s, a).m.flags, Now(Step(s, a)))
  {
    hide ProducerStep, ShutdownStep, ReaderStep, ReleaseStep, StartPush;
    HeldChanges(s, a);
    FlagsAfterRelease(s.m.flags, Now(s), s.c.j);
    hide Slot, SlotStart, Image, ReadHeader, Held, FlagsMatch, Shape;
    assert Now(Step(s, a)) == Release(Now(s), s.c.j);
  }

  lemma FlagsByConsumer(s: State, a: Action)
    requires Indices(s) && Shape(s) && ConsumerFacts(s) && PacketsShow(s) && FlagsMatch(s.m.flags, Now(s))
    requires Enabled(s, a) && a.Consumer?
    ensures FlagsMatch(Step(s, a).m.flags, Now(Step(s, a)))
  {
    hide ProducerStep, ShutdownStep, ReaderStep, ReleaseStep, StartPush;
    if s.c.CSetFlag? {
      FlagsByTaking(s, a);
    } else if s.c.CTake? && s.c.stage.GiveBack? {
      FlagsByGivingBack(s, a);
    } else {
      HeldChanges(s, a);
      hide Slot, SlotStart, Image, ReadHeader, Held, FlagsMatch, Shape, ConsumerFacts, PacketsShow;
      assert Now(Step(s, a)) == Now(s);
    }
  }

  lemma FlagsByOthers(s: State, a: Action)
    requires Shape(s) && PacketsShow(s) && FlagsMatch(s.m.flags, Now(s))
    requires Enabled(s, a) && !a.Producer? && !a.Consumer?
    ensures FlagsMatch(Step(s, a).m.flags, Now(Step(s, a)))
  {
    hide ProducerStep, ConsumerStep;
    HeldChanges(s, a);
    if a.ReleasePacket? { FlagsAfterRelease(s.m.flags, Now(s), a.j); }
    hide Slot, SlotStart, Image, ReadHeader, Held;
  }

  // ---- The stored bytes ----

  lemma BytesByProducer(s: State, a: Action)
    requires Indices(s) && Shape(s) && ProducerFacts(s) && Written(s) && BytesMatch(s.m.region, s.g.stride, Now(s))
    requires Enabled(s, a) && a.Producer?
    ensures BytesMatch(Step(s, a).m.region, s.g.stride, Now(Step(s, a)))
  {
    hide ConsumerStep, ShutdownStep, ReaderStep, ReleaseStep, StartPush, Slot, SlotStart, Image, ReadHeader;
    var s' := Step(s, a);
    assert Held(s') == Held(s);
    if s.p.PWrite? {
      WriteAtFreeHead(s.m.region, s'.m.region, s.g.stride, Now(s));
    } else if s.p.PAdvanceHead? {
      BytesAfterAppend(s.m.region, s.g.stride, Now(s), s.p.f);
    } else {
      BytesAfterLeaving(s.m.region, s.g.stride, Now(s), Now(s'));
    }
  }

  lemma BytesByRest(s: State, a: Action)
    requires ConsumerFacts(s) && PacketsShow(s) && BytesMatch(s.m.region, s.g.stride, Now(s))
    requires Enabled(s, a) && !a.Producer?
    ensures BytesMatch(Step(s, a).m.region, s.g.stride, Now(Step(s, a)))
  {
    HeldChanges(s, a);
    LogByRest(s, a);
    hide Step, Enabled, Held, PacketsShow, BytesMatch;
    BytesAfterLeaving(s.m.region, s.g.stride, Now(s), Now(Step(s, a)));
  }

  // ---- Statistics ----

  /** A frame is counted as popped only after it was counted as pushed. */
  lemma PoppedBound(s: State)
    requires Shape(s) && ProducerFacts(s) && Counters(s)
    ensures s.n.popped <= s.n.pushed
  {
  }

  /** At every step, whatever is still half done, the counters satisfy the bound. */
  lemma PushedBound(s: State)
    requires Locks(s) && Shape(s) && ProducerFacts(s) && PacketsShow(s) && Counters(s)
    ensures s.n.pushed <= s.n.dropped + s.n.popped + s.g.capacity
  {
    if s.c.CTake? { assert s.c.j in Held(s); }
  }

  /** Counters only grow, and each load of a statistics call reads one of them. */
  lemma StatsGrow(s: State, a: Action)
    requires Enabled(s, a)
    ensures var s' := Step(s, a);
      && s'.g == s.g
      && s.n.pushed <= s'.n.pushed && s.n.dropped <= s'.n.dropped && s.n.popped <= s'.n.popped
      && s'.r == (if a.CallStats? then RPushed else if a.Reader? then ReaderStep(s).r else s.r)
  {
    hide Slot, SlotStart, Image, ReadHeader, Answer, Get, Put, Next, Wake, Fits;
  }

  lemma SnapshotsKept(s: State, a: Action)
    requires Snapshots(s) && Enabled(s, a)
    requires Step(s, a).n.pushed <= Step(s, a).n.dropped + Step(s, a).n.popped + Step(s, a).g.capacity
    requires Step(s, a).n.popped <= Step(s, a).n.pushed
    ensures Snapshots(Step(s, a))
  {
    StatsGrow(s, a);
    hide Step, Enabled;
  }

  // ---- All together ----

  lemma GeometryKept(s: State, a: Action)
    requires Enabled(s, a)
    ensures Step(s, a).g == s.g
  {
    hide Slot, SlotStart, Image, ReadHeader;
  }

  lemma StepKeepsInv(s: State, a: Action)
    requires Inv(s) && Enabled(s, a)
    ensures Inv(Step(s, a))
  {
    hide Step, Enabled, Locks, Indices, Counters, Wakeups, Shape, ProducerFacts, ConsumerFacts, PacketsShow, Ordered;
    hide Written, FlagsMatch, BytesMatch, Deliveries, Snapshots, Now;
    GeometryKept(s, a);
    var s' := Step(s, a);
    if a.Producer? {
      ControlByProducer(s, a);
      ShapeByProducer(s, a);
      PacketsByProducer(s, a);
      OrderedByProducer(s, a);
      ProducerFactsByProducer(s, a);
      ConsumerFactsByRest(s, a);
      WrittenByProducer(s, a);
      FlagsByProducer(s, a);
      BytesByProducer(s, a);
    } else {
      ShapeByRest(s, a);
      OrderedByRest(s, a);
      ProducerFactsByRest(s, a);
      WrittenByRest(s, a);
      BytesByRest(s, a);
      if a.Consumer? {
        ControlByConsumer(s, a);
        PacketsByConsumer(s, a);
        ConsumerFactsByConsumer(s, a);
        FlagsByConsumer(s, a);
      } else {
        ControlByOthers(s, a);
        PacketsByOthers(s, a);
        ConsumerFactsByRest(s, a);
        FlagsByOthers(s, a);
      }
    }
    DeliveriesKept(s, a);
    PushedBound(s');
    PoppedBound(s');
    SnapshotsKept(s, a);
  }

  lemma InitInv(capacity: pos, maxLen: nat, stride: nat, region: seq<byte>)
    requires SLOT_HEADER_SIZE + maxLen <= stride && |region| == stride * capacity
    ensures Inv(Init(capacity, maxLen, stride, region))
  {
  }
}
