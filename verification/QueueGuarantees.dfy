/** Consequences for callers, for every state and every run some interleaving of the threads can reach. */
module QueueGuarantees {
  import opened ByteOrder
  import opened SlotLayout
  import opened FifoModel
  import opened QueueMemory
  import opened QueueSteps
  import opened QueueInvariant
  import opened QueueProof
  import opened QueueTheorems
  import opened QueueCalls

  ghost predicate Reachable(s: State) {
    exists capacity: pos, maxLen: nat, stride: nat, region: seq<byte>, acts: seq<Action> ::
      && SLOT_HEADER_SIZE + maxLen <= stride && |region| == stride * capacity
      && Legal(Init(capacity, maxLen, stride, region), acts)
      && s == Execute(Init(capacity, maxLen, stride, region), acts)
  }

  lemma ReachableInv(s: State)
    requires Reachable(s)
    ensures Inv(s)
  {
    var capacity: pos, maxLen: nat, stride: nat, region: seq<byte>, acts: seq<Action> :|
      && SLOT_HEADER_SIZE + maxLen <= stride && |region| == stride * capacity
      && Legal(Init(capacity, maxLen, stride, region), acts)
      && s == Execute(Init(capacity, maxLen, stride, region), acts);
    hide Inv, Init, Legal, Execute;
    InitInv(capacity, maxLen, stride, region);
    RunKeepsInv(Init(capacity, maxLen, stride, region), acts);
  }

  lemma ReachableContinues(s: State, acts: seq<Action>)
    requires Reachable(s) && Legal(s, acts)
    ensures Reachable(Execute(s, acts))
  {
    var capacity: pos, maxLen: nat, stride: nat, region: seq<byte>, before: seq<Action> :|
      && SLOT_HEADER_SIZE + maxLen <= stride && |region| == stride * capacity
      && Legal(Init(capacity, maxLen, stride, region), before)
      && s == Execute(Init(capacity, maxLen, stride, region), before);
    hide Init, Legal, Execute;
    ExecuteConcat(Init(capacity, maxLen, stride, region), before, acts);
  }

  // ---- Linearizability ----

  /** Whatever the interleaving: the queue has gone through a run of the atomic FIFO from empty. The pushes of that run
      are the calls that passed the argument checks, in order, but for the one that is not decided yet, and each answer
      is the FIFO's at that point; a call that failed the checks was told false. The pops of the run are the calls of
      pop, each took what the FIFO had in front, and null was returned only where that is permitted. */
  lemma Linearizable(capacity: pos, maxLen: nat, stride: nat, region: seq<byte>, acts: seq<Action>)
    requires SLOT_HEADER_SIZE + maxLen <= stride && |region| == stride * capacity
    requires Legal(Init(capacity, maxLen, stride, region), acts)
    ensures var s0 := Init(capacity, maxLen, stride, region);
      var q0, s, ops := Empty(capacity), Execute(s0, acts), Ops(s0, acts);
      && Abs(s) == FifoModel.Run(q0, ops)
      && PushCalls(s) && PushTrace(q0, ops) == DonePushes(s.g, s.h.calls, DecidedPushes(s))
      && PopCalls(s) && PopTrace(q0, ops) == DonePops(s.h.waits, DecidedPops(s))
      && AllPermitted(q0, ops)
  {
    var s0 := Init(capacity, maxLen, stride, region);
    InitInv(capacity, maxLen, stride, region);
    RunRefinesFifo(s0, acts);
    assert Abs(s0) == Empty(capacity) && PushCalls(s0) && PopCalls(s0);
    assert DonePushes(s0.g, s0.h.calls, DecidedPushes(s0)) == [] && DonePops(s0.h.waits, DecidedPops(s0)) == [];
    hide Execute, Ops, Legal, FifoModel.Run, PushTrace, PopTrace, DonePushes, DonePops, Inv, DecidedPushes, DecidedPops;
    RunFollows(s0, acts);
  }

  /** Why a call of push was answered as it was: false if its payload is empty or larger than a slot holds; otherwise
      the FIFO took it in at some point of its run, and the answer is true exactly if it kept the frame there. */
  lemma AnswerExplained(capacity: pos, maxLen: nat, stride: nat, region: seq<byte>, acts: seq<Action>, i: nat)
    returns (k: nat)
    requires SLOT_HEADER_SIZE + maxLen <= stride && |region| == stride * capacity
    requires Legal(Init(capacity, maxLen, stride, region), acts)
    requires i < |Execute(Init(capacity, maxLen, stride, region), acts).h.answers|
    ensures var s0 := Init(capacity, maxLen, stride, region);
      var q0, s, ops := Empty(capacity), Execute(s0, acts), Ops(s0, acts);
      && i < |s.h.calls|
      && if 0 < |s.h.calls[i].payload| <= maxLen then
           && k < |ops| && ops[k] == OpPush(s.h.calls[i])
           && var outcome := Outcome(FifoModel.Run(q0, ops[..k]));
             if s.h.answers[i] then outcome == Appended || outcome == EvictedOldest
             else outcome == Refused || outcome == RejectedNewest
         else !s.h.answers[i]
  {
    var s0 := Init(capacity, maxLen, stride, region);
    var s, ops := Execute(s0, acts), Ops(s0, acts);
    Linearizable(capacity, maxLen, stride, region, acts);
    ReachableGeometry(s0, acts);
    hide Legal, Execute, Ops, FifoModel.Run, PushTrace, PopTrace, DonePushes, DonePops, Abs, PopCalls, AllPermitted;
    k := 0;
    if 0 < |s.h.calls[i].payload| <= maxLen {
      DonePushesHas(s.g, s.h.calls, DecidedPushes(s), i);
      k := PushTraceAt(Empty(capacity), ops, PushDone(s.h.calls[i], s.h.answers[i]));
    }
  }

  lemma {:induction false} ReachableGeometry(s: State, acts: seq<Action>)
    requires Legal(s, acts)
    ensures Execute(s, acts).g == s.g
    decreases |acts|
  {
    if acts != [] {
      GeometryKept(s, acts[0]);
      hide Step, Enabled;
      ReachableGeometry(Step(s, acts[0]), acts[1..]);
    }
  }

  // ---- Timed waits ----

  lemma BecomesBlocked(s: State, a: Action)
    requires Enabled(s, a) && Step(s, a).c.CBlocked? && !s.c.CBlocked?
    ensures s.c.CStartWait? && Step(s, a).h.waits == s.h.waits
  {
    hide SlotStart, ReadHeader, Image;
  }

  lemma StaysBlocked(s: State, a: Action)
    requires Enabled(s, a) && Step(s, a).c.CBlocked? && s.c.CBlocked?
    ensures Step(s, a).h.waits == s.h.waits
  {
    hide SlotStart, ReadHeader, Image;
  }

  lemma BecomesExpired(s: State, a: Action)
    requires Enabled(s, a) && Step(s, a).c.CExpired? && !s.c.CExpired?
    ensures a.Expire? && s.c.CBlocked? && Step(s, a).h.waits == s.h.waits
  {
    hide SlotStart, ReadHeader, Image;
  }

  lemma StaysExpired(s: State, a: Action)
    requires Enabled(s, a) && Step(s, a).c.CExpired? && s.c.CExpired?
    ensures Step(s, a).h.waits == s.h.waits
  {
    hide SlotStart, ReadHeader, Image;
  }

  /** When the sleep of a consumer began. */
  lemma {:induction false} BlockedSince(s: State, acts: seq<Action>, t: nat) returns (b: nat)
    requires Inv(s) && Legal(s, acts) && t <= |acts| && !s.c.CBlocked? && At(s, acts, t).c.CBlocked?
    ensures b < t && At(s, acts, b).c.CStartWait? && At(s, acts, b).h.waits == At(s, acts, t).h.waits
    decreases t
  {
    hide Inv, Step, Enabled, Legal;
    assert t > 0 by { AtStart(s, acts); }
    AtNext(s, acts, t - 1);
    if At(s, acts, t - 1).c.CBlocked? {
      StaysBlocked(At(s, acts, t - 1), acts[t - 1]);
      b := BlockedSince(s, acts, t - 1);
    } else {
      BecomesBlocked(At(s, acts, t - 1), acts[t - 1]);
      b := t - 1;
    }
  }

  lemma AtStart(s: State, acts: seq<Action>)
    requires Legal(s, acts)
    ensures At(s, acts, 0) == s
  {
    assert acts[..0] == [];
  }

  lemma {:induction false} ExpiredSince(s: State, acts: seq<Action>, t: nat) returns (e: nat)
    requires Legal(s, acts) && t <= |acts| && !s.c.CExpired? && At(s, acts, t).c.CExpired?
    ensures e < t && acts[e].Expire? && At(s, acts, e).c.CBlocked?
    ensures At(s, acts, e).h.waits == At(s, acts, t).h.waits
    decreases t
  {
    hide Step, Enabled, Legal;
    assert t > 0 by { AtStart(s, acts); }
    AtNext(s, acts, t - 1);
    if At(s, acts, t - 1).c.CExpired? {
      StaysExpired(At(s, acts, t - 1), acts[t - 1]);
      e := ExpiredSince(s, acts, t - 1);
    } else {
      BecomesExpired(At(s, acts, t - 1), acts[t - 1]);
      e := t - 1;
    }
  }

  /** A timed pop gives up only after it had the mutex, found the queue empty and open, went to sleep, and its wait ran
      out while it slept; all of that within the same call. */
  lemma GivesUpOnlyAfterWaiting(s: State, acts: seq<Action>) returns (b: nat, e: nat)
    requires Reachable(s) && s.c.CIdle? && Legal(s, acts) && Execute(s, acts).c.CExpired?
    ensures b < e < |acts| && acts[e].Expire? && At(s, acts, e).c.CBlocked?
    ensures var found := At(s, acts, b);
      found.m.owner.ByConsumer? && found.m.count == 0 && !found.m.shut && found.h.taken == |found.h.log|
    ensures At(s, acts, b).h.waits == At(s, acts, e).h.waits == Execute(s, acts).h.waits
  {
    ReachableInv(s);
    hide Reachable, Inv, Legal;
    assert acts[..|acts|] == acts;
    e := ExpiredSince(s, acts, |acts|);
    b := BlockedSince(s, acts, e);
    AtInv(s, acts, b);
    WaitStartsEmpty(At(s, acts, b));
  }

  lemma WaitStartsEmpty(s: State)
    requires Inv(s) && s.c.CStartWait?
    ensures s.m.owner.ByConsumer? && s.m.count == 0 && !s.m.shut && s.h.taken == |s.h.log|
  {
    hide Slot, BytesMatch, FlagsMatch, Ordered, Deliveries, Written, Stored, PacketsShow;
  }

  lemma ReachableCalls(s: State)
    requires Reachable(s)
    ensures PushCalls(s) && PopCalls(s)
  {
    var capacity: pos, maxLen: nat, stride: nat, region: seq<byte>, acts: seq<Action> :|
      && SLOT_HEADER_SIZE + maxLen <= stride && |region| == stride * capacity
      && Legal(Init(capacity, maxLen, stride, region), acts)
      && s == Execute(Init(capacity, maxLen, stride, region), acts);
    hide Init, Legal, Execute, PushCalls, PopCalls;
    Linearizable(capacity, maxLen, stride, region, acts);
  }

  // ---- Slots ----

  /** Whenever the mutex is free: head is tail plus count, no slot between them is flagged, and queued and held slots
      together fit. */
  lemma FlaggedSlotsAreNotQueued(s: State)
    requires Reachable(s) && s.m.owner.Free?
    ensures 0 <= s.m.count && s.m.count + |Held(s)| <= s.g.capacity && |s.m.flags| == s.g.capacity
    ensures s.m.head == After(s.m.tail, s.m.count, s.g.capacity)
    ensures forall i: nat :: i < s.m.count ==> !s.m.flags[After(s.m.tail, i, s.g.capacity)]
  {
    ReachableInv(s);
    var q := Now(s);
    FreeMeansIdle(s);
    SlotAdd(q.taken, s.m.count, s.g.capacity);
    QueuedPlusHeldFit(q);
    hide Slot, After, Inv, FlagsMatch, WellFormed;
    forall i: nat | i < s.m.count ensures !s.m.flags[After(s.m.tail, i, s.g.capacity)] {
      QueuedSlotUnflagged(s.m.flags, q, i);
    }
  }

  lemma FreeMeansIdle(s: State)
    requires Inv(s) && s.m.owner.Free?
    ensures |s.m.flags| == s.g.capacity && WellFormed(Now(s)) && FlagsMatch(s.m.flags, Now(s))
    ensures s.m.count == Count(Now(s)) && s.m.tail == Slot(s.h.taken, s.g.capacity)
    ensures s.m.head == Slot(|s.h.log|, s.g.capacity)
  {
    hide Slot;
  }

  /** The test for a held oldest slot never succeeds, a push evicts at most once, and no push both evicts and
      rejects. */
  lemma EvictionIsClean(s: State)
    requires Reachable(s)
    ensures s.p.PTestOldest? ==>
      s.m.tail < |s.m.flags| && !s.m.flags[s.m.tail] && !s.p.evicted && Held(s) == {}
    ensures s.p.PUnlockRejected? ==> !s.p.evicted
  {
    ReachableInv(s);
    ProducerTests(s);
  }

  /** A packet's metadata and every byte of its slot are those given to push until the packet is released, whatever the
      other threads do and however many packets are held. */
  lemma HeldPacketsStayIntact(s: State, acts: seq<Action>, j: nat)
    requires Reachable(s) && Legal(s, acts) && j in s.packets && ReleasePacket(j) !in acts
    ensures var s' := Execute(s, acts);
      && j in s'.packets && s'.packets[j] == s.packets[j] && j < |s.h.log|
      && s'.packets[j].meta == MetaOf(s.h.log[j])
      && Stored(s'.m.region, s'.g.stride, s'.packets[j].slot, Image(s.h.log[j]))
      && s.h.log[j].seqNo < |s.h.calls| && s.h.calls[s.h.log[j].seqNo] == s.h.log[j]
  {
    ReachableInv(s);
    ZeroCopyStable(s, acts, j);
  }

  /** While a frame is being written, its slot is neither that of a live packet nor that of a queued frame: no byte is
      ever written and read by two threads at once. */
  lemma WritingTouchesNoFrame(s: State, j: nat)
    requires Reachable(s) && s.p.PWrite?
    ensures j in s.packets ==> s.packets[j].slot != s.m.head
    ensures s.h.taken <= j < |s.h.log| ==> Slot(j, s.g.capacity) != s.m.head
  {
    ReachableInv(s);
    var q := Now(s);
    assert HeadFree(q) && WellFormed(q);
    assert j in s.packets ==> j in q.held;
    if j in q.held || q.taken <= j < |q.log| {
      assert j != |q.log| - q.capacity && j < |q.log|;
      SlotsDiffer(j, |q.log|, q.capacity);
    }
  }

  /** The byte at position k of packet j's data, read from the mapped region now. */
  function DataByte(s: State, j: nat, k: nat): byte
    requires j in s.packets
  {
    var at := SlotStart(s.packets[j].slot, s.g.stride) + SLOT_HEADER_SIZE + k;
    if at < |s.m.region| then s.m.region[at] else 0
  }

  lemma PacketStored(s: State, j: nat)
    requires Reachable(s) && j in s.packets
    ensures j < |s.h.log| && s.packets[j].meta == MetaOf(s.h.log[j])
    ensures Stored(s.m.region, s.g.stride, s.packets[j].slot, Image(s.h.log[j]))
  {
    hide Reachable, Stored, Image;
    assert Legal(s, []) && Execute(s, []) == s;
    HeldPacketsStayIntact(s, [], j);
  }

  lemma PacketShowsFrame(s: State, j: nat)
    requires Reachable(s) && j in s.packets
    ensures j < |s.h.log| && s.packets[j].meta == MetaOf(s.h.log[j])
    ensures |s.h.log[j].payload| <= s.g.maxLen && |s.h.log[j].payload| < 0x1_0000_0000
  {
    ReachableInv(s);
  }

  /** Whoever reads a live packet's slot, at any moment, finds the byte given to push. */
  lemma ReadFindsPushedByte(s: State, j: nat, k: nat)
    requires Reachable(s) && j in s.packets && k < s.packets[j].meta.len
    ensures j < |s.h.log| && s.packets[j].meta == MetaOf(s.h.log[j])
    ensures DataByte(s, j, k) == s.h.log[j].payload[k]
  {
    PacketStored(s, j);
    hide Reachable, Image, SlotStart, Stored;
    StoredByte(s.m.region, s.g.stride, s.packets[j].slot, s.h.log[j], k);
  }

  /** A packet's payload put together from reads at any moments of its life, one for each byte, in any order and between
      any steps of the other threads, is the payload given to push. */
  lemma ReadsOverTime(s: State, acts: seq<Action>, j: nat, times: seq<nat>)
    requires Reachable(s) && Legal(s, acts) && j in s.packets && ReleasePacket(j) !in acts
    requires |times| == s.packets[j].meta.len && forall k :: 0 <= k < |times| ==> times[k] <= |acts|
    ensures j < |s.h.log| && |times| == |s.h.log[j].payload|
    ensures forall k :: 0 <= k < |times| ==>
      && Legal(s, acts[..times[k]]) && j in Execute(s, acts[..times[k]]).packets
      && DataByte(Execute(s, acts[..times[k]]), j, k) == s.h.log[j].payload[k]
  {
    hide Reachable;
    assert Legal(s, []) && Execute(s, []) == s;
    HeldPacketsStayIntact(s, [], j);
    hide Legal, Execute;
    forall k | 0 <= k < |times|
      ensures Legal(s, acts[..times[k]]) && j in Execute(s, acts[..times[k]]).packets
      ensures DataByte(Execute(s, acts[..times[k]]), j, k) == s.h.log[j].payload[k]
    {
      ReadAt(s, acts, j, times[k], k);
    }
  }

  lemma ReadAt(s: State, acts: seq<Action>, j: nat, t: nat, k: nat)
    requires Reachable(s) && Legal(s, acts) && j in s.packets && ReleasePacket(j) !in acts
    requires t <= |acts| && j < |s.h.log| && k < s.packets[j].meta.len == |s.h.log[j].payload|
    ensures Legal(s, acts[..t]) && j in Execute(s, acts[..t]).packets
    ensures DataByte(Execute(s, acts[..t]), j, k) == s.h.log[j].payload[k]
  {
    hide Reachable, Legal, Execute, DataByte, Stored;
    LegalPrefix(s, acts, t);
    ReachableContinues(s, acts[..t]);
    HeldPacketsStayIntact(s, acts[..t], j);
    ReadFindsPushedByte(Execute(s, acts[..t]), j, k);
    LogGrows(s, acts[..t]);
  }

  lemma {:induction false} LogGrows(s: State, acts: seq<Action>)
    requires Legal(s, acts)
    ensures s.h.log <= Execute(s, acts).h.log
    decreases |acts|
  {
    if acts != [] {
      LogGrowsStep(s, acts[0]);
      LogGrows(Step(s, acts[0]), acts[1..]);
    }
  }

  lemma LogGrowsStep(s: State, a: Action)
    requires Enabled(s, a)
    ensures s.h.log <= Step(s, a).h.log && s.h.calls <= Step(s, a).h.calls && Step(s, a).g == s.g
  {
    hide Slot, SlotStart, Image, ReadHeader, Put, Next, Wake, Fits;
  }

  // ---- Results ----

  /** The metadata pop is about to hand out is that of the FIFO's front. */
  lemma PopReturnsFront(s: State)
    requires Reachable(s) && s.c.CSetFlag?
    ensures WellFormed(Abs(s)) && Count(Abs(s)) > 0 && s.c.meta == MetaOf(Contents(Abs(s))[0])
  {
    ReachableInv(s);
    hide Slot, BytesMatch, FlagsMatch, Ordered, Deliveries, Written, Stored;
    assert !EvictionPending(s.p);
  }

  // ---- Statistics ----

  /** Three loads at three different moments, while the other threads go on: no snapshot can show more pushed frames
      than dropped and popped ones plus the capacity. */
  lemma SnapshotBound(s: State)
    requires Reachable(s) && s.r.RDone?
    ensures s.r.n <= s.r.d + s.r.o + s.g.capacity
  {
    ReachableInv(s);
  }

  /** No frame is counted as popped before it is counted as pushed; a snapshot never shows more popped frames than are
      counted as pushed by the time it is complete. */
  lemma PoppedBehindPushed(s: State)
    requires Reachable(s)
    ensures s.n.popped <= s.n.pushed
    ensures s.r.RDone? ==> s.r.o <= s.n.pushed
  {
    ReachableInv(s);
  }

  /** So a caller who reads the pushed counter again after a snapshot and finds the same value knows that the snapshot
      shows no more popped frames than pushed ones. */
  lemma SnapshotConfirmed(s: State)
    requires Reachable(s) && s.r.RDone? && s.n.pushed == s.r.n
    ensures s.r.o <= s.r.n
  {
    ReachableInv(s);
  }

  /** Between calls, every frame that reached the open queue is popped, dropped or queued. */
  lemma CountersConserve(s: State)
    requires Reachable(s) && s.p.PIdle? && s.c.CIdle?
    ensures s.h.attempts == s.n.popped + s.n.dropped + s.m.count
    ensures s.n.pushed == |s.h.log| && s.n.popped == |s.h.delivered| + s.h.unallocated
  {
    ReachableInv(s);
  }

  // ---- The condition variable ----

  /** A consumer asleep on the condition has nothing to do, or the thread that will wake it is on its way. */
  lemma NoLostWakeup(s: State)
    requires Reachable(s) && s.c.CBlocked?
    ensures !s.c.w.NoWait?
    ensures (s.m.count == 0 && !s.m.shut)
      || s.p.PCountPushed? || s.p.PSignal? || s.s.SUnlock? || s.s.SBroadcast?
  {
    ReachableInv(s);
  }

  lemma StaysAwake(s: State, a: Action)
    requires Locks(s) && ConsumerFacts(s) && Enabled(s, a) && s.m.shut && !s.c.CBlocked?
    ensures Step(s, a).m.shut && !Step(s, a).c.CBlocked?
  {
    hide Slot, SlotStart, Image, ReadHeader, SlotHeader;
  }

  lemma {:induction false} NeverSleepsAgain(s: State, acts: seq<Action>)
    requires Inv(s) && Legal(s, acts) && s.m.shut && !s.c.CBlocked?
    ensures !Execute(s, acts).c.CBlocked?
    decreases |acts|
  {
    if acts != [] {
      StepKeepsInv(s, acts[0]);
      StaysAwake(s, acts[0]);
      hide Step;
      NeverSleepsAgain(Step(s, acts[0]), acts[1..]);
    }
  }

  /** Once shutdown has returned, the consumer is not asleep and never falls asleep again. */
  lemma NobodySleepsAfterShutdown(s: State, acts: seq<Action>)
    requires Reachable(s) && Legal(s, acts) && s.m.shut && s.s.SIdle?
    ensures !Execute(s, acts).c.CBlocked?
  {
    ReachableInv(s);
    NeverSleepsAgain(s, acts);
  }

  // ---- Draining ----

  lemma AbsWellFormed(s: State)
    requires Inv(s)
    ensures WellFormed(Abs(s)) && (s.m.shut ==> Abs(s) == Now(s))
  {
    hide Slot, BytesMatch, FlagsMatch, Ordered, Deliveries, Written, Stored, PacketsShow, ConsumerFacts;
  }

  /** Once shut down, under any further interleaving: no frame enters, none is dropped, and the pops take the remaining
      frames oldest first. Of the pops decided from now on, one with zero timeout returns null, and a blocking one
      returns null only after all remaining frames were taken. */
  lemma DrainAfterShutdown(s: State, acts: seq<Action>)
    requires Reachable(s) && s.m.shut && Legal(s, acts)
    ensures var s', ops := Execute(s, acts), Ops(s, acts);
      && s'.m.shut && s'.h.log == s.h.log && s.h.taken <= s'.h.taken <= |s.h.log|
      && Popped(Now(s), ops) == s.h.log[s.h.taken..s'.h.taken]
      && |Popped(Now(s), ops)| + Count(Now(s')) == Count(Now(s))
      && Dropped(Now(s')) == Dropped(Now(s))
    ensures var s', ops := Execute(s, acts), Ops(s, acts);
      var trace := PopTrace(Now(s), ops);
      && PopCalls(s) && PopCalls(s')
      && DonePops(s'.h.waits, DecidedPops(s')) == DonePops(s.h.waits, DecidedPops(s)) + trace
      && forall i :: 0 <= i < |trace| ==>
           && (trace[i].w.NoWait? ==> trace[i].j.None?)
           && (trace[i].w.Forever? && trace[i].j.None? ==> TookSome(trace[..i]) == Count(Now(s)))
  {
    DrainedFrames(s, acts);
    DrainedCalls(s, acts);
  }

  lemma DrainedCalls(s: State, acts: seq<Action>)
    requires Reachable(s) && s.m.shut && Legal(s, acts)
    ensures var s', ops := Execute(s, acts), Ops(s, acts);
      var trace := PopTrace(Now(s), ops);
      && PopCalls(s) && PopCalls(s')
      && DonePops(s'.h.waits, DecidedPops(s')) == DonePops(s.h.waits, DecidedPops(s)) + trace
      && forall i :: 0 <= i < |trace| ==>
           && (trace[i].w.NoWait? ==> trace[i].j.None?)
           && (trace[i].w.Forever? && trace[i].j.None? ==> TookSome(trace[..i]) == Count(Now(s)))
  {
    ReachableInv(s);
    ReachableCalls(s);
    AbsWellFormed(s);
    RunFollows(s, acts);
    hide Reachable, Inv, Legal, Execute, Ops, DonePops, PushCalls, PopCalls, DecidedPops, PopTrace, TookSome;
    var trace := PopTrace(Now(s), Ops(s, acts));
    forall i | 0 <= i < |trace|
      ensures trace[i].w.NoWait? ==> trace[i].j.None?
      ensures trace[i].w.Forever? && trace[i].j.None? ==> TookSome(trace[..i]) == Count(Now(s))
    {
      DrainResults(Now(s), Ops(s, acts), i);
    }
  }

  lemma DrainedFrames(s: State, acts: seq<Action>)
    requires Reachable(s) && s.m.shut && Legal(s, acts)
    ensures var s', ops := Execute(s, acts), Ops(s, acts);
      && s'.m.shut && s'.h.log == s.h.log && s.h.taken <= s'.h.taken <= |s.h.log|
      && Popped(Now(s), ops) == s.h.log[s.h.taken..s'.h.taken]
      && |Popped(Now(s), ops)| + Count(Now(s')) == Count(Now(s))
      && Dropped(Now(s')) == Dropped(Now(s))
  {
    var s', ops := Execute(s, acts), Ops(s, acts);
    ReachableInv(s);
    AbsWellFormed(s);
    RunKeepsInv(s, acts);
    RunRefinesFifo(s, acts);
    ShutdownDrains(Now(s), ops);
    hide Inv;
    AbsWellFormed(s');
    assert Abs(s').shut;
  }

  // ---- One packet at a time ----

  /** The network thread asks for the next frame only after it has freed the previous packet. */
  ghost predicate OneAtATime(s: State, acts: seq<Action>)
    requires Legal(s, acts)
    decreases |acts|
  {
    acts == [] || ((acts[0].CallPop? ==> s.packets == map[]) && OneAtATime(Step(s, acts[0]), acts[1..]))
  }

  ghost predicate PopStartsClear(s: State) {
    !s.c.CIdle? ==> s.packets == map[]
  }

  lemma ClearKept(s: State, a: Action)
    requires PopStartsClear(s) && Enabled(s, a) && (a.CallPop? ==> s.packets == map[])
    ensures PopStartsClear(Step(s, a))
  {
    hide Slot, SlotStart, Image, ReadHeader;
  }

  lemma PopsWithNothingHeld(s: State, a: Action)
    requires Locks(s) && ProducerFacts(s) && PopStartsClear(s) && Enabled(s, a)
    ensures OpOf(s, a) == [] || (OpOf(s, a)[0].OpPop? ==> Abs(s).held == {})
  {
  }

  lemma {:induction false} OpsAreDisciplined(s: State, acts: seq<Action>)
    requires Inv(s) && Legal(s, acts) && PopStartsClear(s) && OneAtATime(s, acts)
    ensures Disciplined(Abs(s), Ops(s, acts))
    decreases |acts|
  {
    if acts != [] {
      var a, s1 := acts[0], Step(s, acts[0]);
      StepKeepsInv(s, a);
      ClearKept(s, a);
      StepRefinesFifo(s, a);
      OneOp(s, a);
      PopsWithNothingHeld(s, a);
      hide Step, Inv, OpOf, Abs;
      OpsAreDisciplined(s1, acts[1..]);
      var op, rest := OpOf(s, a), Ops(s1, acts[1..]);
      if op != [] { assert (op + rest)[1..] == rest; } else { assert op + rest == rest; }
    }
  }

  /** With one packet at a time, whatever the interleaving: at the moment push decides, it drops the new frame exactly
      when a packet is alive and one frame less than the capacity is queued; and it finds the queue full only when
      nothing is held. */
  lemma SingleHolderDecision(capacity: pos, maxLen: nat, stride: nat, region: seq<byte>, acts: seq<Action>)
    requires SLOT_HEADER_SIZE + maxLen <= stride && |region| == stride * capacity
    requires Legal(Init(capacity, maxLen, stride, region), acts)
    requires OneAtATime(Init(capacity, maxLen, stride, region), acts)
    ensures var s := Execute(Init(capacity, maxLen, stride, region), acts);
      && (s.p.PTestHead? ==>
            && s.m.head < |s.m.flags|
            && (s.m.flags[s.m.head] <==> Held(s) != {} && s.m.count == capacity - 1))
      && (s.p.PTestOldest? ==> Held(s) == {})
  {
    var s0 := Init(capacity, maxLen, stride, region);
    var s := Execute(s0, acts);
    InitInv(capacity, maxLen, stride, region);
    RunKeepsInv(s0, acts);
    RunRefinesFifo(s0, acts);
    OpsAreDisciplined(s0, acts);
    assert Abs(s0) == Empty(capacity);
    SingleHolderPolicy(capacity, Ops(s0, acts));
    RunKeepsCapacity(Empty(capacity), Ops(s0, acts));
    hide Execute, Ops, Legal, OneAtATime, Init, Run;
    DecisionFromFifo(s);
  }

  lemma DecisionFromFifo(s: State)
    requires Locks(s) && Indices(s) && Shape(s) && ProducerFacts(s) && FlagsMatch(s.m.flags, Now(s))
    requires var q := Abs(s);
      !q.shut ==> (Outcome(q) == RejectedNewest <==> q.held != {} && Count(q) == s.g.capacity - 1)
    ensures s.p.PTestHead? ==>
      && s.m.head < |s.m.flags|
      && (s.m.flags[s.m.head] <==> Held(s) != {} && s.m.count == s.g.capacity - 1)
    ensures s.p.PTestOldest? ==> Held(s) == {}
  {
    ProducerTests(s);
    hide Slot, FlagsMatch, Held;
  }

  // ---- What the consumer receives ----

  /** The frames handed out by pop so far, in order. */
  ghost function DeliveredFrames(s: State): seq<Frame>
    requires Deliveries(s)
  {
    seq(|s.h.delivered|, i requires 0 <= i < |s.h.delivered| => s.h.log[s.h.delivered[i]])
  }

  /** An ordered, duplicate-free selection of the frames given to push: frame number n was the n-th call. */
  ghost predicate SelectedInOrder(frames: seq<Frame>, calls: seq<Frame>) {
    && (forall i :: 0 <= i < |frames| ==> frames[i].seqNo < |calls| && calls[frames[i].seqNo] == frames[i])
    && (forall i, k :: 0 <= i < k < |frames| ==> frames[i].seqNo < frames[k].seqNo)
  }

  lemma DeliveredInOrder(s: State)
    requires Reachable(s)
    ensures Deliveries(s) && SelectedInOrder(DeliveredFrames(s), s.h.calls)
    ensures forall i :: 0 <= i < |DeliveredFrames(s)| ==>
      |DeliveredFrames(s)[i].payload| <= s.g.maxLen && |DeliveredFrames(s)[i].payload| < 0x1_0000_0000
  {
    ReachableInv(s);
    hide Slot, BytesMatch, FlagsMatch, Written, Stored, ConsumerFacts, ProducerFacts;
  }
}
