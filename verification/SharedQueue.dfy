/** The queue as the network thread meets it while the program runs. Between any two steps of the network thread, and
    between any two bytes it reads out of a packet, the other threads take the steps their schedule says. */
module SharedQueue {
  import opened Wrappers
  import opened ByteOrder
  import opened SlotLayout
  import opened FifoModel
  import opened QueueMemory
  import opened QueueSteps
  import opened QueueInvariant
  import opened QueueProof
  import opened QueueCalls
  import opened QueueGuarantees

  // ---- The other threads ----

  /** Steps the network thread does not take itself; waking, expiry and failing allocations are not in its hands. */
  predicate ByOthers(a: Action) { !a.CallPop? && !a.Consumer? && !a.ReleasePacket? }

  /** What the network thread still finds as it was after the others ran. */
  ghost predicate OthersRan(s: State, s': State) {
    && s'.g == s.g && s'.packets == s.packets && s.h.log <= s'.h.log && s.h.calls <= s'.h.calls
    && s'.h.delivered == s.h.delivered && s'.h.gets == s.h.gets && s'.h.waits == s.h.waits
    && s'.h.unallocated == s.h.unallocated
    && (s'.c.CIdle? <==> s.c.CIdle?) && (TimedOnly(s.c) ==> TimedOnly(s'.c))
  }

  predicate TimedOnly(c: ConsumerPc) { HasWait(c) ==> c.w.Timed? }

  lemma OthersStep(s: State, a: Action)
    requires Enabled(s, a) && ByOthers(a)
    ensures OthersRan(s, Step(s, a))
  {
    hide ConsumerStep, Slot, SlotStart, Image, ReadHeader;
  }

  /** The others take these steps, as far as they can be taken. */
  function RunOthers(s: State, steps: seq<Action>): State
    decreases |steps|
  {
    if steps == [] then s
    else RunOthers(if ByOthers(steps[0]) && Enabled(s, steps[0]) then Step(s, steps[0]) else s, steps[1..])
  }

  /** What the next part of a schedule makes of a state. */
  function AfterOthers(s: State, schedule: seq<seq<Action>>): State {
    if schedule == [] then s else RunOthers(s, schedule[0])
  }

  // ---- Schedules that end ----

  /** How many steps of its own the consumer takes at most before its call returns, if nobody wakes it. */
  function ConsumerRank(c: ConsumerPc): nat {
    match c
    case CIdle => 0
    case CUnlockEmpty => 1
    case CTake(stage, _, _, _) =>
      (match stage
       case GiveBack => 2
       case Allocate => 3
       case Unlock => 4
       case CountPopped => 5
       case DecCount => 6
       case AdvanceTail => 7)
    case CSetFlag(_, _, _) => 8
    case CReadHeader(_, _, b) => 9 + if |b| < SLOT_HEADER_SIZE then SLOT_HEADER_SIZE - |b| else 0
    case CFinalTest(_) => 40
    case CExpired => 41
    case CBlocked(_) => 42
    case CStartWait(_) => 43
    case CTestShutdown(_) => 44
    case CTestCount(_) => 45
    case CWoken(_) => 46
    case CLock(_) => 46
  }

  /** How many steps the capture thread takes at most before its call returns; while it owns the mutex, before it gives
      the mutex back. */
  function ProducerRank(p: ProducerPc): nat {
    match p
    case PTestShutdown(f) => |Image(f)| + 20
    case PTestFull(f, ev) => |Image(f)| + if ev then 14 else 19
    case PTestOldest(f, _) => |Image(f)| + 18
    case PAdvanceTail(f) => |Image(f)| + 17
    case PDecCount(f) => |Image(f)| + 16
    case PCountEvicted(f) => |Image(f)| + 15
    case PTestHead(f, _) => |Image(f)| + 13
    case PWrite(f, k, _) => 8 + if k < |Image(f)| then |Image(f)| - k else 0
    case PAdvanceHead(_, _) => 7
    case PIncCount => 6
    case PCountPushed => 5
    case PSignal => 4
    case PUnlock => 3
    case PUnlockRefused => 2
    case PUnlockRejected(_) => 2
    case PCountRejected => 1
    case PLock(f) => |Image(f)| + 21
    case PIdle => 0
  }

  function ShutdownRank(p: ShutdownPc): nat {
    match p
    case SStore => 2
    case SUnlock => 1
    case _ => 0
  }

  /** How many steps the owner of the mutex takes at most before it gives it back. */
  function OwnerRank(s: State): nat {
    match s.m.owner
    case ByProducer => ProducerRank(s.p)
    case ByConsumer => ConsumerRank(s.c)
    case ByShutdown => ShutdownRank(s.s)
    case Free => 0
  }

  function OwnerStep(s: State): Action {
    match s.m.owner
    case ByConsumer => Consumer
    case ByShutdown => Shutdowner
    case _ => Producer
  }

  predicate WantsMutex(c: ConsumerPc) { c.CLock? || c.CWoken? || c.CExpired? }

  lemma ConsumerProgress(s: State)
    requires Enabled(s, Consumer)
    ensures ConsumerRank(Step(s, Consumer).c) < ConsumerRank(s.c)
  {
    hide ProducerStep, ShutdownStep, ReaderStep, ReleaseStep, StartPush, Slot, SlotStart, ReadHeader;
  }

  /** One step of the owner: the mutex comes closer to being free, and threads that wait for it stay where they are. */
  ghost predicate ComesCloser(s: State) {
    && Enabled(s, OwnerStep(s)) && OwnerRank(Step(s, OwnerStep(s))) < OwnerRank(s)
    && var s' := Step(s, OwnerStep(s));
      && (s'.m.owner == s.m.owner || s'.m.owner.Free?)
      && (s.p.PLock? ==> s'.p == s.p) && (WantsMutex(s.c) ==> s'.c == s.c) && (s.s.SLock? ==> s'.s == s.s)
  }

  lemma ProducerComesCloser(s: State)
    requires Locks(s) && Indices(s) && ProducerFacts(s) && s.m.owner.ByProducer?
    ensures ComesCloser(s)
  {
    hide Slot, SlotStart, Image, ConsumerStep, ShutdownStep, ReaderStep, ReleaseStep, StartPush, ConsumerRank;
  }

  lemma ConsumerComesCloser(s: State)
    requires Locks(s) && s.m.owner.ByConsumer?
    ensures ComesCloser(s)
  {
    ConsumerProgress(s);
    hide Slot, SlotStart, ReadHeader, ProducerStep, ShutdownStep, ReaderStep, ReleaseStep, StartPush;
    hide ProducerRank, ConsumerRank;
  }

  lemma ShutdownComesCloser(s: State)
    requires Locks(s) && s.m.owner.ByShutdown?
    ensures ComesCloser(s)
  {
    hide ProducerStep, ConsumerStep, ReaderStep, ReleaseStep, StartPush, ProducerRank, ConsumerRank;
  }

  /** The owner of the mutex never waits for anything: it can step, and each step brings it closer to giving the mutex
      back. */
  lemma OwnerProgress(s: State)
    requires Inv(s) && !s.m.owner.Free?
    ensures ComesCloser(s)
  {
    hide ComesCloser;
    match s.m.owner {
      case ByProducer => ProducerComesCloser(s);
      case ByConsumer => ConsumerComesCloser(s);
      case ByShutdown => ShutdownComesCloser(s);
    }
  }

  /** Nobody but the owner delays the owner. */
  lemma OwnerUndisturbed(s: State, a: Action)
    requires Locks(s) && Enabled(s, a) && !s.m.owner.Free? && a != OwnerStep(s)
    ensures Step(s, a).m.owner == s.m.owner && OwnerRank(Step(s, a)) == OwnerRank(s)
  {
    hide Slot, SlotStart, Image, ReadHeader;
  }

  lemma OneStepMore(s: State, acts: seq<Action>, t: nat)
    requires acts != [] && Enabled(s, acts[0]) && t < |acts| && Legal(Step(s, acts[0]), acts[1..][..t])
    ensures Legal(s, acts[..t + 1])
    ensures Execute(s, acts[..t + 1]) == Execute(Step(s, acts[0]), acts[1..][..t])
  {
    assert acts[..t + 1][0] == acts[0] && acts[..t + 1][1..] == acts[1..][..t];
  }

  lemma NoStep(s: State, acts: seq<Action>)
    ensures Legal(s, acts[..0]) && Execute(s, acts[..0]) == s
  {
  }

  lemma OwnerHasSteps(s: State)
    requires Inv(s) && !s.m.owner.Free?
    ensures OwnerRank(s) > 0
  {
    OwnerProgress(s);
  }

  /** While the mutex is taken, a step frees it, or brings it closer to being free, or is not its owner's. */
  lemma AnyStep(s: State, a: Action)
    requires Inv(s) && !s.m.owner.Free? && Enabled(s, a)
    ensures var s' := Step(s, a);
      s'.m.owner.Free?
      || (s'.m.owner == s.m.owner && OwnerRank(s') <= OwnerRank(s) - if a == OwnerStep(s) then 1 else 0)
  {
    OwnerProgress(s);
    if a != OwnerStep(s) { OwnerUndisturbed(s, a); }
    hide Step, Enabled, OwnerRank, Inv;
  }

  function OwnerSteps(owner: Action, acts: seq<Action>): nat {
    if acts == [] then 0 else (if acts[0] == owner then 1 else 0) + OwnerSteps(owner, acts[1..])
  }

  /** The mutex is never kept: whatever all threads do, it is free again by the time its owner has taken as many steps
      of its own as OwnerRank says. So push, which waits for nothing else, never blocks for longer. */
  lemma {:induction false} MutexGivenBack(s: State, acts: seq<Action>) returns (t: nat)
    requires Inv(s) && Legal(s, acts) && OwnerSteps(OwnerStep(s), acts) >= OwnerRank(s)
    ensures t <= |acts| && Legal(s, acts[..t]) && Execute(s, acts[..t]).m.owner.Free?
    decreases |acts|
  {
    t := 0;
    hide Step, Enabled, Inv, OwnerRank, ComesCloser, OwnerStep;
    if s.m.owner.Free? {
      NoStep(s, acts);
    } else {
      OwnerHasSteps(s);
      AnyStep(s, acts[0]);
      StepKeepsInv(s, acts[0]);
      var s1 := Step(s, acts[0]);
      if s1.m.owner == s.m.owner { SameOwnerStep(s, s1); }
      hide Execute;
      if s1.m.owner.Free? {
        NoStep(s1, acts[1..]);
      } else {
        t := MutexGivenBack(s1, acts[1..]);
      }
      OneStepMore(s, acts, t);
      t := t + 1;
    }
  }

  lemma SameOwnerStep(s: State, s': State)
    requires s.m.owner == s'.m.owner
    ensures OwnerStep(s) == OwnerStep(s')
  {
  }

  // ---- Calls come to an end ----

  /** A call of push goes on unless it waits for the mutex, and every step of its own brings its return closer. */
  lemma PushGoesOn(s: State)
    requires Inv(s) && !s.p.PIdle? && (s.p.PLock? ==> s.m.owner.Free?)
    ensures Enabled(s, Producer) && ProducerRank(Step(s, Producer).p) < ProducerRank(s.p)
  {
    hide Slot, SlotStart, Image, BytesMatch, FlagsMatch, Ordered, Deliveries, Written, Stored, PacketsShow, Counters;
    hide ConsumerStep, ShutdownStep, ReaderStep, ReleaseStep, StartPush, Wakeups, Snapshots, ConsumerFacts;
  }

  /** Nobody waits for ever: as long as a call of push, pop or shutdown is going on and the consumer is not asleep in it,
      some thread can take a step in its call. */
  lemma NoDeadlock(s: State) returns (a: Action)
    requires Reachable(s)
    requires !s.p.PIdle? || !s.s.SIdle? || (!s.c.CIdle? && !s.c.CBlocked?)
    ensures (a.Producer? || a.Consumer? || a.Shutdowner?) && Enabled(s, a)
  {
    ReachableInv(s);
    if !s.m.owner.Free? {
      OwnerProgress(s);
      a := OwnerStep(s);
    } else if !s.p.PIdle? {
      a := Producer;
    } else if !s.s.SIdle? {
      a := Shutdowner;
    } else {
      a := Consumer;
    }
  }

  lemma ShutdownKeepsOn(s: State, a: Action)
    requires Enabled(s, a)
    ensures s.m.shut ==> Step(s, a).m.shut
    ensures s.s.SLock? ==> Step(s, a).s.SLock? || Step(s, a).s.SStore?
    ensures s.s.SStore? ==> Step(s, a).s.SStore? || Step(s, a).m.shut
  {
    hide Slot, SlotStart, Image, ReadHeader;
  }

  /** From the call of shutdown on, in every interleaving: once it has returned, the queue is shut down. */
  lemma {:induction false} ShutdownTakesEffect(s: State, acts: seq<Action>)
    requires Legal(s, acts) && (s.m.shut || s.s.SLock? || s.s.SStore?)
    ensures Execute(s, acts).s.SIdle? ==> Execute(s, acts).m.shut
    decreases |acts|
  {
    if acts != [] {
      ShutdownKeepsOn(s, acts[0]);
      hide Step, Enabled;
      ShutdownTakesEffect(Step(s, acts[0]), acts[1..]);
    }
  }

  lemma CallingShutdown(s: State)
    requires s.s.SIdle?
    ensures Enabled(s, CallShutdown) && Step(s, CallShutdown).s.SLock?
  {
  }

  /** With a free mutex a call of shutdown takes four steps of its own and leaves the queue shut down. */
  lemma ShutdownAlone(s: State) returns (acts: seq<Action>)
    requires s.s.SIdle? && s.m.owner.Free?
    ensures Legal(s, acts) && acts == [CallShutdown, Shutdowner, Shutdowner, Shutdowner, Shutdowner]
    ensures Execute(s, acts).s.SIdle? && Execute(s, acts).m.shut && Execute(s, acts).m.owner.Free?
  {
    hide ProducerStep, ConsumerStep, ReaderStep, ReleaseStep, StartPush;
    acts := [CallShutdown, Shutdowner, Shutdowner, Shutdowner, Shutdowner];
    var s1 := Step(s, CallShutdown);
    var s2 := Step(s1, Shutdowner);
    var s3 := Step(s2, Shutdowner);
    var s4 := Step(s3, Shutdowner);
    var s5 := Step(s4, Shutdowner);
    assert s5.s.SIdle? && s5.m.shut && s5.m.owner.Free?;
    hide Step;
    assert acts[1..] == [Shutdowner, Shutdowner, Shutdowner, Shutdowner];
    assert acts[1..][1..] == [Shutdowner, Shutdowner, Shutdowner];
    assert acts[1..][1..][1..] == [Shutdowner, Shutdowner];
    assert acts[1..][1..][1..][1..] == [Shutdowner];
    assert Legal(s5, []) && Execute(s5, []) == s5;
    assert Legal(s4, [Shutdowner]) && Execute(s4, [Shutdowner]) == s5;
    assert Legal(s3, acts[1..][1..][1..]) && Execute(s3, acts[1..][1..][1..]) == s5;
    assert Legal(s2, acts[1..][1..]) && Execute(s2, acts[1..][1..]) == s5;
    assert Legal(s1, acts[1..]) && Execute(s1, acts[1..]) == s5;
  }

  // ---- One call of pop ----

  /** From the call of pop to its return: nothing is handed out before the return, and then what the call returned. */
  ghost predicate InPop(s: State, s': State) {
    && s'.g == s.g && s.h.log <= s'.h.log && TimedOnly(s'.c)
    && (!s'.c.CIdle? ==> s'.packets == map[] && s'.h.delivered == s.h.delivered && s'.h.gets == s.h.gets)
    && (s'.c.CIdle? ==>
          && |s'.h.gets| == |s.h.gets| + 1
          && match s'.h.gets[|s.h.gets|]
             case GotPacket(j) => s'.packets.Keys == {j} && s'.h.delivered == s.h.delivered + [j]
             case _ => s'.packets == map[] && s'.h.delivered == s.h.delivered)
  }

  lemma InPopKept(s: State, s': State, a: Action)
    requires InPop(s, s') && !s'.c.CIdle? && Enabled(s', a) && (a.Consumer? || ByOthers(a))
    ensures InPop(s, Step(s', a))
  {
    hide Slot, SlotStart, Image, ReadHeader;
  }

  lemma PopStarts(s0: State, s: State)
    requires OthersRan(s0, s) && s0.c.CIdle? && s0.packets == map[]
    ensures s.c.CIdle? && Enabled(s, CallPop(Timed)) && s.packets == map[] && InPop(s0, Step(s, CallPop(Timed)))
  {
    hide ProducerStep, ConsumerStep, ShutdownStep, ReaderStep;
  }

  lemma InPopMeanwhile(s0: State, s: State, s': State)
    requires InPop(s0, s) && !s.c.CIdle? && OthersRan(s, s')
    ensures InPop(s0, s') && !s'.c.CIdle?
  {
  }

  lemma PopEnds(s0: State, s: State)
    requires InPop(s0, s) && s.c.CIdle?
    ensures |s.h.gets| == |s0.h.gets| + 1
  {
  }

  /** What happens next inside pop when no other thread is scheduled any more. */
  function NextAlone(s: State): Action {
    if s.c.CBlocked? then Expire
    else if Enabled(s, Consumer) then Consumer
    else OwnerStep(s)
  }

  lemma AloneProgress(s0: State, s: State)
    requires Inv(s) && InPop(s0, s) && !s.c.CIdle?
    ensures var a := NextAlone(s);
      && Enabled(s, a) && !a.CallPop? && InPop(s0, Step(s, a))
      && ConsumerRank(Step(s, a).c) <= ConsumerRank(s.c)
      && (ConsumerRank(Step(s, a).c) < ConsumerRank(s.c) || OwnerRank(Step(s, a)) < OwnerRank(s))
  {
    var a := NextAlone(s);
    hide Inv;
    if s.c.CBlocked? {
      hide InPop, ConsumerStep, ProducerStep, ShutdownStep, ReaderStep;
    } else if Enabled(s, Consumer) {
      ConsumerProgress(s);
    } else {
      OwnerProgress(s);
    }
    hide Step, Enabled, InPop, ConsumerRank, OwnerRank;
    InPopKept(s0, s, a);
  }

  // ---- Pops when no other thread is scheduled any more ----

  /** What a timed pop has found out so far: it is about to return null only from an empty queue. */
  ghost predicate AlonePop(s: State) {
    && !s.c.CWoken? && (s.c.CTake? ==> !s.c.stage.GiveBack?)
    && (s.c.CUnlockEmpty? || s.c.CBlocked? || s.c.CExpired? ==> s.h.taken == |s.h.log|)
    && (s.c.CBlocked? || s.c.CExpired? || s.c.CIdle? || (s.c.CTake? && s.c.stage.Allocate?) ==> s.m.owner.Free?)
    && (s.c.CIdle? ==>
          && s.h.gets != [] && !s.h.gets[|s.h.gets| - 1].NoMemory?
          && (s.h.gets[|s.h.gets| - 1].GotNull? ==> s.h.taken == |s.h.log|))
  }

  lemma AloneStep(s: State)
    requires Locks(s) && Indices(s) && ConsumerFacts(s) && TimedOnly(s.c) && AlonePop(s) && !s.c.CIdle?
    requires Enabled(s, NextAlone(s))
    ensures AlonePop(Step(s, NextAlone(s)))
  {
    hide Slot, SlotStart, Image, ReadHeader, SlotHeader;
    if !s.c.CBlocked? && !Enabled(s, Consumer) {
      assert s.c.CLock?;
      OwnerKeepsLock(s);
    } else {
      hide ProducerStep, ShutdownStep, ReaderStep, ReleaseStep, StartPush;
    }
  }

  lemma OwnerKeepsLock(s: State)
    requires Locks(s) && s.c.CLock? && Enabled(s, OwnerStep(s)) && !s.m.owner.ByConsumer?
    ensures Step(s, OwnerStep(s)).c == s.c
  {
    hide Slot, SlotStart, Image, ReadHeader;
  }

  /** The same from a free mutex on: nothing but this pop happens, and it takes the front if there is one. */
  ghost predicate SettledPop(s0: State, s: State) {
    && AlonePop(s) && s.h.log == s0.h.log && (s.c.CLock? ==> s.m.owner.Free?)
    && (s.c.CTake? ==> s.h.taken == s0.h.taken + 1 && s.c.j == s0.h.taken)
    && (!s.c.CTake? && !s.c.CIdle? ==> s.h.taken == s0.h.taken)
    && (s.c.CIdle? ==>
          match s.h.gets[|s.h.gets| - 1]
          case GotPacket(j) => j == s0.h.taken && s.h.taken == s0.h.taken + 1
          case _ => s.h.taken == s0.h.taken)
  }

  lemma SettledStep(s0: State, s: State)
    requires Locks(s) && Indices(s) && ConsumerFacts(s) && TimedOnly(s.c) && SettledPop(s0, s) && !s.c.CIdle?
    requires Enabled(s, NextAlone(s))
    ensures SettledPop(s0, Step(s, NextAlone(s)))
  {
    AloneStep(s);
    hide Slot, SlotStart, Image, ReadHeader, SlotHeader, AlonePop;
    assert s.c.CBlocked? || Enabled(s, Consumer) by { SettledEnabled(s0, s); }
    hide ProducerStep, ShutdownStep, ReaderStep, ReleaseStep, StartPush;
    LogByRest(s, NextAlone(s));
  }

  lemma SettledEnabled(s0: State, s: State)
    requires SettledPop(s0, s) && !s.c.CIdle?
    ensures s.c.CBlocked? || Enabled(s, Consumer)
  {
  }

  lemma AloneStarts(s: State)
    requires s.c.CIdle?
    ensures AlonePop(Step(s, CallPop(Timed)))
    ensures s.m.owner.Free? ==> SettledPop(s, Step(s, CallPop(Timed)))
  {
    hide ProducerStep, ConsumerStep, ShutdownStep, ReaderStep;
  }

  lemma StaysAlone(s0: State, s: State)
    requires Inv(s) && InPop(s0, s) && AlonePop(s) && !s.c.CIdle? && Enabled(s, NextAlone(s))
    ensures AlonePop(Step(s, NextAlone(s)))
    ensures SettledPop(s0, s) ==> SettledPop(s0, Step(s, NextAlone(s)))
  {
    hide Step, Enabled, AlonePop, SettledPop;
    AloneStep(s);
    if SettledPop(s0, s) { SettledStep(s0, s); }
  }

  lemma WithinCapacity(s: State)
    requires Inv(s)
    ensures 0 <= |s.h.log| - s.h.taken <= s.g.capacity
  {
  }

  /** What such a pop left behind. */
  lemma AloneEnds(s0: State, s: State)
    requires Inv(s) && InPop(s0, s) && AlonePop(s) && s.c.CIdle?
    ensures s.m.owner.Free? && 0 <= |s.h.log| - s.h.taken <= s.g.capacity
    ensures s.h.gets[|s.h.gets| - 1].GotPacket? || (s.h.gets[|s.h.gets| - 1].GotNull? && s.h.taken == |s.h.log|)
    ensures SettledPop(s0, s) ==>
      (s.h.log == s0.h.log
       && match s.h.gets[|s.h.gets| - 1]
          case GotPacket(j) => j == s0.h.taken && s.h.taken == s0.h.taken + 1
          case _ => s.h.taken == s0.h.taken == |s.h.log|)
  {
    hide Slot, BytesMatch, FlagsMatch, Ordered, Deliveries, Written, Stored, PacketsShow, Locks, Indices;
  }

  /** Extending a run by one step. */
  lemma OneMoreStep(s: State, acts: seq<Action>, a: Action)
    requires Legal(s, acts) && OneAtATime(s, acts) && Enabled(Execute(s, acts), a)
    requires a.CallPop? ==> Execute(s, acts).packets == map[]
    ensures Legal(s, acts + [a]) && OneAtATime(s, acts + [a])
    ensures Execute(s, acts + [a]) == Step(Execute(s, acts), a)
    decreases |acts|
  {
    hide Step, Enabled;
    if acts == [] {
      assert (acts + [a])[1..] == [];
    } else {
      assert (acts + [a])[1..] == acts[1..] + [a];
      OneMoreStep(Step(s, acts[0]), acts[1..], a);
    }
  }

  /** What a write is given: bytes of the thread's own, or the data of a packet where it lies in the queue's memory. */
  datatype Buffer = Local(bytes: seq<byte>) | Payload(j: nat)

  lemma ReachableDeliveries(s: State)
    requires Reachable(s)
    ensures Deliveries(s)
  {
    ReachableInv(s);
  }

  lemma DeliveredKept(s: State, s': State)
    requires Deliveries(s) && Deliveries(s') && s.h.log <= s'.h.log && s'.h.delivered == s.h.delivered
    ensures DeliveredFrames(s') == DeliveredFrames(s)
  {
  }

  lemma DeliveredOneMore(s: State, s': State, j: nat)
    requires Deliveries(s) && Deliveries(s') && s.h.log <= s'.h.log && s'.h.delivered == s.h.delivered + [j]
    ensures j < |s'.h.log| && DeliveredFrames(s') == DeliveredFrames(s) + [s'.h.log[j]]
  {
    assert s'.h.delivered[|s.h.delivered|] == j;
  }

  class LiveQueue {
    const capacity: pos
    const maxLen: nat
    const stride: nat
    ghost const memory: seq<byte>
    ghost var past: seq<Action>
    var s: State
    var schedule: seq<seq<Action>>

    /** The state is what a run of all threads led to, in which no packet was held when pop was called. */
    ghost predicate Valid()
      reads this`s, this`past
    {
      var s0 := Init(capacity, maxLen, stride, memory);
      && SLOT_HEADER_SIZE + maxLen <= stride && |memory| == stride * capacity
      && Legal(s0, past) && s == Execute(s0, past) && OneAtATime(s0, past)
      && s.g == Geometry(capacity, maxLen, stride)
    }

    /** No call of pop is going on, and no packet is held. */
    ghost predicate Idle()
      reads this`s, this`past
    {
      Valid() && s.c.CIdle? && s.packets == map[]
    }

    /** The packet of frame j is held, and no other. */
    ghost predicate Holding(j: nat)
      reads this`s, this`past
    {
      Valid() && s.c.CIdle? && s.packets.Keys == {j} && j < |s.h.log|
    }

    /** The frame that was given to push and whose packet is held. */
    ghost function Shown(j: nat): Frame
      reads this`s, this`past
      requires Holding(j)
    {
      s.h.log[j]
    }

    /** The frames that pop handed out so far. */
    ghost function Delivered(): seq<Frame>
      reads this`s, this`past
      requires Valid()
    {
      IsReachable();
      ReachableDeliveries(s);
      DeliveredFrames(s)
    }

    /** How many frames are queued. */
    function Left(): int
      reads this`s
    {
      |s.h.log| - s.h.taken
    }

    /** No other thread is scheduled any more, and none is in the queue's critical section. */
    predicate Settled()
      reads this`s, this`schedule
    {
      schedule == [] && s.m.owner.Free?
    }

    /** Reading the buffer from its start to its end gives these bytes. */
    ghost predicate Holds(data: Buffer, bytes: seq<byte>)
      reads this`s, this`past
    {
      match data
      case Local(own) => own == bytes
      case Payload(j) => Holding(j) && Shown(j).payload == bytes
    }

    /** The others ran, and what is held stays held. */
    twostate predicate Meanwhile()
      reads this`s, this`past, this`schedule
    {
      && |schedule| <= |old(schedule)| && (old(schedule) == [] ==> s == old(s))
      && Valid() && old(Valid()) && Delivered() == old(Delivered()) && s.h.gets == old(s.h.gets)
      && (old(Idle()) ==> Idle())
      && forall j: nat :: old(Holding(j)) ==> Holding(j) && Shown(j) == old(Shown(j))
    }

    constructor (capacity: pos, maxLen: nat, stride: nat, memory: seq<byte>, schedule: seq<seq<Action>>)
      requires SLOT_HEADER_SIZE + maxLen <= stride && |memory| == stride * capacity
      ensures Idle() && s == Init(capacity, maxLen, stride, memory)
      ensures this.capacity == capacity && this.maxLen == maxLen && this.stride == stride && this.schedule == schedule
    {
      this.capacity, this.maxLen, this.stride, this.memory := capacity, maxLen, stride, memory;
      this.schedule, past := schedule, [];
      s := Init(capacity, maxLen, stride, memory);
    }

    lemma IsReachable()
      requires Valid()
      ensures Reachable(s)
    {
      hide Init, Legal, Execute, OneAtATime;
    }

    lemma LeftFits()
      requires Valid()
      ensures 0 <= Left() <= capacity
    {
      IsReachable();
      ReachableInv(s);
      WithinCapacity(s);
    }

    /** While the network loop runs, push refuses a frame exactly when a packet is alive and one frame less than the
        capacity is queued, and finds the queue full only when nothing is held. */
    lemma DropPolicy()
      requires Valid()
      ensures s.p.PTestHead? ==>
        && s.m.head < |s.m.flags|
        && (s.m.flags[s.m.head] <==> Held(s) != {} && s.m.count == capacity - 1)
      ensures s.p.PTestOldest? ==> Held(s) == {}
    {
      hide Init, Legal, Execute, OneAtATime;
      SingleHolderDecision(capacity, maxLen, stride, memory, past);
    }

    /** One step of the run; pop is called only while no packet is held. */
    method Do(a: Action)
      requires Valid() && Enabled(s, a) && (a.CallPop? ==> s.packets == map[])
      modifies this`s, this`past
      ensures Valid() && s == Step(old(s), a)
    {
      hide Init, Legal, Execute, OneAtATime, Step, Enabled;
      OneMoreStep(Init(capacity, maxLen, stride, memory), past, a);
      LogGrowsStep(s, a);
      s := Step(s, a);
      past := past + [a];
    }

    /** The others take the steps scheduled next, as far as they can be taken. */
    method Interleave()
      requires Valid()
      modifies this
      ensures Valid() && OthersRan(old(s), s) && s == AfterOthers(old(s), old(schedule))
      ensures schedule == if old(schedule) == [] then [] else old(schedule)[1..]
    {
      hide Valid, Step, Enabled;
      if schedule == [] { return; }
      var steps := schedule[0];
      schedule := schedule[1..];
      for i := 0 to |steps|
        invariant Valid() && OthersRan(old(s), s) && schedule == old(schedule)[1..]
        invariant RunOthers(s, steps[i..]) == RunOthers(old(s), steps)
      {
        assert steps[i..][1..] == steps[i + 1..];
        if ByOthers(steps[i]) && Enabled(s, steps[i]) {
          OthersStep(s, steps[i]);
          Do(steps[i]);
        }
      }
    }

    /** pop with a positive timeout. When the schedule has ended, the wait expires and whoever owns the mutex finishes,
        so the call returns. */
    method TimedPop() returns (pkt: Option<nat>)
      requires Idle()
      modifies this
      ensures Valid() && s.c.CIdle? && InPop(old(s), s) && |s.h.gets| == |old(s.h.gets)| + 1
      ensures pkt == match s.h.gets[|old(s.h.gets)|] case GotPacket(j) => Some(j) case _ => None
      ensures |schedule| < |old(schedule)| || schedule == old(schedule) == []
      ensures old(schedule) == [] ==> AlonePop(s)
      ensures old(Settled()) ==> SettledPop(old(s), s)
    {
      hide Valid, Step, Enabled, Reachable, Inv, InPop, OthersRan, ConsumerRank, OwnerRank, AlonePop, SettledPop;
      Interleave();
      PopStarts(old(s), s);
      AloneStarts(s);
      Do(CallPop(Timed));
      while !s.c.CIdle?
        invariant Valid() && InPop(old(s), s)
        invariant |schedule| < |old(schedule)| || schedule == old(schedule) == []
        invariant old(schedule) == [] ==> AlonePop(s)
        invariant old(Settled()) ==> SettledPop(old(s), s)
        decreases |schedule|, ConsumerRank(s.c), OwnerRank(s)
      {
        if schedule != [] {
          ghost var before := s;
          Interleave();
          InPopMeanwhile(old(s), before, s);
          if Enabled(s, Consumer) {
            InPopKept(old(s), s, Consumer);
            Do(Consumer);
          }
        } else {
          IsReachable();
          ReachableInv(s);
          AloneProgress(old(s), s);
          if old(schedule) == [] { StaysAlone(old(s), s); }
          Do(NextAlone(s));
        }
      }
      assert |s.h.gets| == |old(s.h.gets)| + 1 by { PopEnds(old(s), s); }
      pkt := match s.h.gets[|s.h.gets| - 1] case GotPacket(j) => Some(j) case _ => None;
    }

    /** pop as the network loop calls it, while it holds no packet. Once no other thread is scheduled, it returns null
        only from an empty queue; and from a free mutex on it hands out the front if there is one. */
    method Pop() returns (pkt: Option<nat>)
      requires Idle()
      modifies this
      ensures |s.h.gets| == |old(s.h.gets)| + 1
      ensures pkt.None? ==> Idle() && Delivered() == old(Delivered())
      ensures pkt.Some? ==> Holding(pkt.value) && Delivered() == old(Delivered()) + [Shown(pkt.value)]
      ensures |schedule| < |old(schedule)| || schedule == old(schedule) == []
      ensures old(schedule) == [] ==> Settled() && 0 <= Left() <= capacity && (pkt.None? ==> Left() == 0)
      ensures old(Settled()) ==>
        && pkt == (if old(Left()) > 0 then Some(old(s.h.taken)) else None)
        && s.h.log == old(s.h.log) && Left() == old(Left()) - if pkt.Some? then 1 else 0
    {
      IsReachable();
      ReachableDeliveries(s);
      ReachableInv(s);
      WithinCapacity(s);
      pkt := TimedPop();
      IsReachable();
      ReachableDeliveries(s);
      ReachableInv(s);
      if old(schedule) == [] { AloneEnds(old(s), s); }
      hide Reachable, Deliveries, Legal, Execute, Init, OneAtATime, DeliveredFrames, Inv, AlonePop, SettledPop;
      if pkt.Some? { DeliveredOneMore(old(s), s, pkt.value); } else { DeliveredKept(old(s), s); }
    }

    /** Other threads run; then the network thread goes on. */
    method Yield()
      requires Valid()
      modifies this
      ensures Meanwhile() && s == AfterOthers(old(s), old(schedule))
    {
      IsReachable();
      ReachableDeliveries(s);
      Interleave();
      IsReachable();
      ReachableDeliveries(s);
      hide Reachable, Deliveries, Legal, Execute, Init, OneAtATime, DeliveredFrames;
      DeliveredKept(old(s), s);
    }

    /** Reads byte number k of a buffer: of a packet, whatever its slot holds by now. */
    method Load(data: Buffer, k: nat, ghost bytes: seq<byte>) returns (b: byte)
      requires Valid() && Holds(data, bytes) && k < |bytes|
      modifies this
      ensures Meanwhile() && Holds(data, bytes) && b == bytes[k] && s == AfterOthers(old(s), old(schedule))
    {
      Yield();
      match data {
        case Local(own) => b := own[k];
        case Payload(j) =>
          IsReachable();
          PacketShowsFrame(s, j);
          ReadFindsPushedByte(s, j, k);
          b := DataByte(s, j, k);
      }
    }

    /** The metadata in a packet. */
    method MetaOfPacket(j: nat) returns (meta: Meta)
      requires Holding(j)
      ensures meta == MetaOf(Shown(j)) && |Shown(j).payload| <= maxLen && |Shown(j).payload| < 0x1_0000_0000
    {
      IsReachable();
      PacketShowsFrame(s, j);
      meta := s.packets[j].meta;
    }

    /** frame_packet_free. */
    method Free(j: nat)
      requires Holding(j)
      modifies this
      ensures Idle() && Delivered() == old(Delivered()) && s.h.gets == old(s.h.gets)
      ensures |schedule| <= |old(schedule)| && (old(schedule) == [] ==> s.h == old(s.h) && s.m.owner == old(s.m.owner))
    {
      Yield();
      ghost var before := s;
      IsReachable();
      ReachableDeliveries(s);
      Do(ReleasePacket(j));
      IsReachable();
      ReachableDeliveries(s);
      DeliveredKept(before, s);
    }
  }
}
