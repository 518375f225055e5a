/** What holds of the queue in every state that some interleaving of the threads can reach. */
module QueueTheorems {
  import opened SlotLayout
  import opened FifoModel
  import opened QueueMemory
  import opened QueueSteps
  import opened QueueInvariant
  import opened QueueProof

  lemma {:induction false} RunKeepsInv(s: State, acts: seq<Action>)
    requires Inv(s) && Legal(s, acts)
    ensures Inv(Execute(s, acts))
    decreases |acts|
  {
    hide Inv, Step;
    if acts != [] {
      StepKeepsInv(s, acts[0]);
      RunKeepsInv(Step(s, acts[0]), acts[1..]);
    }
  }

  lemma {:induction false} ExecuteConcat(s: State, xs: seq<Action>, ys: seq<Action>)
    requires Legal(s, xs) && Legal(Execute(s, xs), ys)
    ensures Legal(s, xs + ys) && Execute(s, xs + ys) == Execute(Execute(s, xs), ys)
    decreases |xs|
  {
    hide Step, Enabled;
    if xs == [] {
      assert xs + ys == ys;
    } else {
      assert (xs + ys)[1..] == xs[1..] + ys;
      ExecuteConcat(Step(s, xs[0]), xs[1..], ys);
    }
  }

  lemma {:induction false} LegalPrefix(s: State, acts: seq<Action>, t: nat)
    requires Legal(s, acts) && t <= |acts|
    ensures Legal(s, acts[..t])
    decreases |acts|
  {
    hide Step, Enabled;
    if t > 0 {
      assert acts[..t][1..] == acts[1..][..t - 1];
      LegalPrefix(Step(s, acts[0]), acts[1..], t - 1);
    }
  }

  /** The state after the first t steps of a run. */
  ghost function At(s: State, acts: seq<Action>, t: nat): State
    requires Legal(s, acts) && t <= |acts|
  {
    LegalPrefix(s, acts, t);
    Execute(s, acts[..t])
  }

  lemma {:induction false} AtNext(s: State, acts: seq<Action>, t: nat)
    requires Legal(s, acts) && t < |acts|
    ensures Enabled(At(s, acts, t), acts[t]) && At(s, acts, t + 1) == Step(At(s, acts, t), acts[t])
    decreases |acts|
  {
    hide Step, Enabled;
    LegalPrefix(s, acts, t);
    LegalPrefix(s, acts, t + 1);
    if t == 0 {
      assert acts[..1][1..] == [] && acts[..0] == [] && acts[..1][0] == acts[0];
      assert Legal(Step(s, acts[0]), []) && Execute(Step(s, acts[0]), []) == Step(s, acts[0]);
    } else {
      assert acts[..t][1..] == acts[1..][..t - 1] && acts[..t + 1][1..] == acts[1..][..t];
      AtNext(Step(s, acts[0]), acts[1..], t - 1);
    }
  }

  lemma AtInv(s: State, acts: seq<Action>, t: nat)
    requires Inv(s) && Legal(s, acts) && t <= |acts|
    ensures Inv(At(s, acts, t))
  {
    LegalPrefix(s, acts, t);
    RunKeepsInv(s, acts[..t]);
  }

  // ---- The FIFO operations ----

  /** The FIFO operation, if any, that takes effect at this step. A pop that returns null does so at the test that tells
      it to. */
  function OpOf(s: State, a: Action): seq<Op> {
    match a
    case Producer =>
      if s.p.PAdvanceHead? || (s.p.PTestShutdown? && s.m.shut) then [OpPush(s.p.f)]
      else if s.p.PTestHead? && s.m.head < |s.m.flags| && s.m.flags[s.m.head] then [OpPush(s.p.f)]
      else []
    case Consumer =>
      if s.c.CSetFlag? then [OpPop(s.c.w)]
      else if s.c.CTake? && s.c.stage.GiveBack? then [OpRelease(s.c.j)]
      else if s.c.CExpired? then [OpMiss(Timed, true)]
      else if FindsNothing(s) then [OpMiss(s.c.w, false)]
      else []
    case ReleasePacket(j) => [OpRelease(j)]
    case Shutdowner => if s.s.SStore? then [OpShutdown] else []
    case _ => []
  }

  /** The consumer's next test makes it return null. */
  predicate FindsNothing(s: State) {
    || (s.c.CTestCount? && s.c.w.NoWait? && s.m.count == 0)
    || (s.c.CTestShutdown? && s.c.w.NoWait? && s.m.shut)
    || (s.c.CFinalTest? && s.m.count == 0)
  }

  function Ops(s: State, acts: seq<Action>): seq<Op>
    requires Legal(s, acts)
    decreases |acts|
  {
    if acts == [] then [] else OpOf(s, acts[0]) + Ops(Step(s, acts[0]), acts[1..])
  }

  /** The append step is the FIFO's push, and it evicted exactly if the FIFO was full. */
  lemma AppendIsPush(s: State)
    requires Shape(s) && ProducerFacts(s) && s.p.PAdvanceHead?
    ensures Abs(ProducerStep(s)) == FifoModel.Push(Abs(s), s.p.f)
    ensures Outcome(Abs(s)) == if s.p.evicted then EvictedOldest else Appended
  {
    hide Slot, SlotStart, Image;
    assert Held(ProducerStep(s)) == Held(s);
  }

  /** Finding the head slot in use is the FIFO's rejection. */
  lemma RejectionIsPush(s: State)
    requires Locks(s) && Indices(s) && Shape(s) && ProducerFacts(s) && FlagsMatch(s.m.flags, Now(s))
    requires s.p.PTestHead? && s.m.head < |s.m.flags| && s.m.flags[s.m.head]
    ensures Abs(ProducerStep(s)) == FifoModel.Push(Abs(s), s.p.f)
    ensures Outcome(Abs(s)) == RejectedNewest && !s.p.evicted
  {
    ProducerTests(s);
    hide Slot, SlotStart, Image, FlagsMatch;
    assert Held(ProducerStep(s)) == Held(s);
  }

  lemma OtherStepsAreSilent(s: State)
    requires ProducerFacts(s) && !s.p.PAdvanceHead?
    requires s.p.PTestHead? ==> s.m.head < |s.m.flags| && !s.m.flags[s.m.head]
    requires s.p.PTestOldest? ==> s.m.tail < |s.m.flags| && !s.m.flags[s.m.tail]
    ensures Abs(ProducerStep(s)) == Abs(s)
  {
    hide Slot, SlotStart, Image, HeadFree;
    assert Held(ProducerStep(s)) == Held(s);
  }

  /** What one step does to the FIFO: nothing, or the operation that takes effect there. */
  ghost predicate Refines(s: State, a: Action)
    requires Enabled(s, a)
  {
    Abs(Step(s, a)) == if OpOf(s, a) == [] then Abs(s) else FifoModel.Apply(Abs(s), OpOf(s, a)[0])
  }

  lemma RefinesByProducer(s: State, a: Action)
    requires Inv(s) && Enabled(s, a) && a.Producer?
    ensures Refines(s, a)
  {
    ProducerTests(s);
    hide ProducerStep, Abs, Outcome, FifoModel.Push, Ordered, Deliveries, BytesMatch, PacketsShow, Counters;
    if s.p.PAdvanceHead? {
      AppendIsPush(s);
    } else if s.p.PTestHead? && s.m.flags[s.m.head] {
      RejectionIsPush(s);
    } else {
      OtherStepsAreSilent(s);
      if s.p.PTestShutdown? && s.m.shut { RefusalIsPush(s); }
    }
  }

  /** A push that finds the queue shut down is the FIFO's refusal. */
  lemma RefusalIsPush(s: State)
    requires s.p.PTestShutdown? && s.m.shut
    ensures Outcome(Abs(s)) == Refused && Abs(s) == FifoModel.Push(Abs(s), s.p.f)
  {
  }

  lemma RefinesByTaking(s: State, a: Action)
    requires Locks(s) && ProducerFacts(s) && ConsumerFacts(s) && PacketsShow(s) && Enabled(s, a)
    requires a.Consumer? && (s.c.CSetFlag? || (s.c.CTake? && s.c.stage.GiveBack?))
    ensures Refines(s, a)
  {
    HeldChanges(s, a);
    LogByRest(s, a);
    hide ProducerStep, ShutdownStep, ReaderStep, ReleaseStep, StartPush, Slot, SlotStart, Image, ReadHeader, Held;
    if s.c.CSetFlag? { assert !EvictionPending(s.p); }
  }

  lemma RefinesByConsumer(s: State, a: Action)
    requires Locks(s) && ProducerFacts(s) && ConsumerFacts(s) && PacketsShow(s) && Enabled(s, a) && a.Consumer?
    ensures Refines(s, a)
  {
    if s.c.CSetFlag? || (s.c.CTake? && s.c.stage.GiveBack?) {
      RefinesByTaking(s, a);
    } else {
      HeldChanges(s, a);
      LogByRest(s, a);
      hide ProducerStep, ShutdownStep, ReaderStep, ReleaseStep, StartPush, Slot, SlotStart, Image, ReadHeader, Held;
      hide ProducerFacts, ConsumerFacts, PacketsShow, Locks;
      assert Step(s, a).p == s.p && Step(s, a).h.rejects == s.h.rejects && Step(s, a).m.shut == s.m.shut;
      assert Abs(Step(s, a)) == Abs(s);
    }
  }

  lemma RefinesByOthers(s: State, a: Action)
    requires ProducerFacts(s) && PacketsShow(s) && Enabled(s, a) && !a.Producer? && !a.Consumer?
    ensures Refines(s, a)
  {
    HeldChanges(s, a);
    hide ProducerStep, ConsumerStep, ReaderStep, Slot, SlotStart, Image, ReadHeader, Held;
  }

  lemma StepRefinesFifo(s: State, a: Action)
    requires Inv(s) && Enabled(s, a)
    ensures Refines(s, a)
  {
    hide Refines;
    if a.Producer? {
      RefinesByProducer(s, a);
    } else if a.Consumer? {
      RefinesByConsumer(s, a);
    } else {
      RefinesByOthers(s, a);
    }
  }

  lemma {:induction false} RunConcat(q: Fifo, xs: seq<Op>, ys: seq<Op>)
    ensures FifoModel.Run(q, xs + ys) == FifoModel.Run(FifoModel.Run(q, xs), ys)
    decreases |xs|
  {
    if xs == [] {
      assert xs + ys == ys;
    } else {
      assert (xs + ys)[1..] == xs[1..] + ys;
      RunConcat(FifoModel.Apply(q, xs[0]), xs[1..], ys);
    }
  }

  /** Whatever the interleaving, the queue goes through a run of the atomic FIFO; what its calls return is the subject
      of QueueCalls. */
  lemma {:induction false} RunRefinesFifo(s: State, acts: seq<Action>)
    requires Inv(s) && Legal(s, acts)
    ensures Abs(Execute(s, acts)) == FifoModel.Run(Abs(s), Ops(s, acts))
    decreases |acts|
  {
    hide Inv, Step, OpOf, Abs;
    if acts != [] {
      var s1, op := Step(s, acts[0]), OpOf(s, acts[0]);
      StepKeepsInv(s, acts[0]);
      RunRefinesFifo(s1, acts[1..]);
      StepRefinesFifo(s, acts[0]);
      OneOp(s, acts[0]);
      RunConcat(Abs(s), op, Ops(s1, acts[1..]));
      if op != [] { assert op[1..] == []; }
    }
  }

  lemma OneOp(s: State, a: Action)
    ensures |OpOf(s, a)| <= 1
  {
  }

  // ---- Zero copy ----

  lemma PacketSurvives(s: State, a: Action, j: nat)
    requires Inv(s) && Enabled(s, a) && j in s.packets && a != ReleasePacket(j)
    ensures j in Step(s, a).packets && Step(s, a).packets[j] == s.packets[j]
    ensures s.h.log <= Step(s, a).h.log
  {
    hide Slot, SlotStart, Image, ReadHeader, BytesMatch, FlagsMatch, Ordered, Deliveries, Written;
    hide Counters, Snapshots, Wakeups, Locks, Shape, ProducerFacts, ConsumerFacts;
  }

  /** From the moment pop hands a packet out until it is released, its metadata and every byte of its slot are those of
      the frame given to push, whatever the producer writes meanwhile and however many packets are held. */
  lemma {:induction false} ZeroCopyStable(s: State, acts: seq<Action>, j: nat)
    requires Inv(s) && Legal(s, acts) && j in s.packets && ReleasePacket(j) !in acts
    ensures var s', f := Execute(s, acts), s.h.log[j];
      && j in s'.packets && s'.packets[j] == s.packets[j] && s'.packets[j].meta == MetaOf(f)
      && Stored(s'.m.region, s'.g.stride, s'.packets[j].slot, Image(f))
      && f.seqNo < |s.h.calls| && s.h.calls[f.seqNo] == f
    decreases |acts|
  {
    if acts == [] {
      hide Slot, SlotStart, Image, Stored;
      assert Present(Now(s), j);
    } else {
      var f := s.h.log[j];
      PacketSurvives(s, acts[0], j);
      StepKeepsInv(s, acts[0]);
      var s1 := Step(s, acts[0]);
      hide Step;
      ZeroCopyStable(s1, acts[1..], j);
      assert s1.h.log[j] == f;
    }
  }
}
