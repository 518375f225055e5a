/** The queue as the threads run it: a capture thread that pushes, a network thread that pops, a main thread that reads
    statistics and shuts down, and packets released at any time without the mutex. Every lock operation, flag access,
    index or counter update and every single byte moved is a step of its own, and steps of different threads interleave
    freely. */
module QueueSteps {
  import opened ByteOrder
  import opened SlotLayout
  import opened FifoModel

  type pos = x: nat | 0 < x witness 1

  datatype Owner = Free | ByProducer | ByConsumer | ByShutdown

  /** Where the producer stands inside push. evicted records that this call already dropped a frame. */
  datatype ProducerPc =
    | PIdle
    | PLock(f: Frame)
    | PTestShutdown(f: Frame)
    | PUnlockRefused
    | PTestFull(f: Frame, evicted: bool)
    | PTestOldest(f: Frame, evicted: bool)
    | PAdvanceTail(f: Frame)
    | PDecCount(f: Frame)
    | PCountEvicted(f: Frame)
    | PTestHead(f: Frame, evicted: bool)
    | PUnlockRejected(evicted: bool)
    | PCountRejected
    | PWrite(f: Frame, k: nat, evicted: bool)
    | PAdvanceHead(f: Frame, evicted: bool)
    | PIncCount
    | PCountPushed
    | PSignal
    | PUnlock

  datatype TakeStage = AdvanceTail | DecCount | CountPopped | Unlock | Allocate | GiveBack

  /** Where the consumer stands inside pop. j is the number of the frame it took. */
  datatype ConsumerPc =
    | CIdle
    | CLock(w: Wait)
    | CTestCount(w: Wait)
    | CTestShutdown(w: Wait)
    | CStartWait(w: Wait)
    | CBlocked(w: Wait)
    | CWoken(w: Wait)
    | CExpired
    | CFinalTest(w: Wait)
    | CReadHeader(w: Wait, slot: nat, bytes: seq<byte>)
    | CSetFlag(w: Wait, slot: nat, meta: Meta)
    | CTake(stage: TakeStage, slot: nat, meta: Meta, j: nat)
    | CUnlockEmpty

  datatype ShutdownPc = SIdle | SLock | SStore | SUnlock | SBroadcast

  datatype ReaderPc = RIdle | RPushed | RDropped(n: nat) | RPopped(n: nat, d: nat) | RDone(n: nat, d: nat, o: nat)

  datatype Packet = Packet(slot: nat, meta: Meta)

  datatype Geometry = Geometry(capacity: pos, maxLen: nat, stride: nat)

  /** The variables the threads share: the mapped region, the in-use flags, the indices, the mutex, the stop flag. */
  datatype Shared = Shared(region: seq<byte>, flags: seq<bool>, head: nat, tail: nat, count: int,
                           owner: Owner, shut: bool)

  datatype Stats = Stats(pushed: nat, dropped: nat, popped: nat)

  /** What a call of pop returned: the packet of frame j, null, or null because frame j got no packet. */
  datatype Got = GotPacket(j: nat) | GotNull | NoMemory(j: nat)

  /** What happened so far; no step depends on it, except that calls are numbered. calls and waits: the arguments of all
      calls of push and of pop; answers and gets: what those that returned gave back. */
  datatype History = History(calls: seq<Frame>, answers: seq<bool>, waits: seq<Wait>, gets: seq<Got>,
                             log: seq<Frame>, taken: nat, pops: nat, rejects: nat, attempts: nat,
                             delivered: seq<nat>, unallocated: nat)

  datatype State = State(g: Geometry, m: Shared, n: Stats, h: History,
                         p: ProducerPc, c: ConsumerPc, s: ShutdownPc, r: ReaderPc, packets: map<nat, Packet>)

  datatype Action =
    | CallPush(f: Frame) | Producer
    | CallPop(w: Wait) | Consumer | AllocationFails | SpuriousWakeup | Expire
    | ReleasePacket(j: nat)
    | CallShutdown | Shutdowner
    | CallStats | Reader

  function Init(capacity: pos, maxLen: nat, stride: nat, region: seq<byte>): State {
    State(Geometry(capacity, maxLen, stride),
          Shared(region, seq(capacity, _ => false), 0, 0, 0, Free, false), Stats(0, 0, 0),
          History([], [], [], [], [], 0, 0, 0, 0, [], 0), PIdle, CIdle, SIdle, RIdle, map[])
  }

  /** Which steps can happen. The capture thread numbers its calls consecutively. */
  predicate Enabled(s: State, a: Action) {
    match a
    case CallPush(f) => s.p.PIdle? && f.seqNo == |s.h.calls| && |f.payload| < 0x1_0000_0000
    case Producer => !s.p.PIdle? && (s.p.PLock? ==> s.m.owner.Free?)
    case CallPop(_) => s.c.CIdle?
    case Consumer => !s.c.CIdle? && !s.c.CBlocked? && (s.c.CLock? || s.c.CWoken? || s.c.CExpired? ==> s.m.owner.Free?)
    case AllocationFails => s.c.CTake? && s.c.stage.Allocate?
    case SpuriousWakeup => s.c.CBlocked?
    case Expire => s.c.CBlocked? && s.c.w.Timed?
    case ReleasePacket(j) => j in s.packets
    case CallShutdown => s.s.SIdle?
    case Shutdowner => !s.s.SIdle? && (s.s.SLock? ==> s.m.owner.Free?)
    case CallStats => s.r.RIdle? || s.r.RDone?
    case Reader => s.r.RPushed? || s.r.RDropped? || s.r.RPopped?
  }

  function Put<T>(m: seq<T>, i: nat, v: T): seq<T> {
    if i < |m| then m[i := v] else m
  }

  function Next(i: nat, capacity: pos): nat { (i + 1) % capacity }

  function Wake(c: ConsumerPc): ConsumerPc {
    if c.CBlocked? then CWoken(c.w) else c
  }

  /** The argument checks at the top of push; a refused frame still used up its sequence number. */
  function StartPush(s: State, f: Frame): State {
    if Fits(s.g, f) then s.(h := s.h.(calls := s.h.calls + [f]), p := PLock(f))
    else s.(h := s.h.(calls := s.h.calls + [f], answers := s.h.answers + [false]))
  }

  /** push passes its argument checks. */
  predicate Fits(g: Geometry, f: Frame) { 0 < |f.payload| <= g.maxLen }

  function Answer(h: History, ok: bool): History { h.(answers := h.answers + [ok]) }

  function Get(h: History, got: Got): History { h.(gets := h.gets + [got]) }

  function ProducerStep(s: State): State {
    match s.p
    case PIdle => s
    case PLock(f) => s.(m := s.m.(owner := ByProducer), p := PTestShutdown(f))
    case PTestShutdown(f) =>
      if s.m.shut then s.(p := PUnlockRefused)
      else s.(p := PTestFull(f, false), h := s.h.(attempts := s.h.attempts + 1))
    case PUnlockRefused => s.(m := s.m.(owner := Free), h := Answer(s.h, false), p := PIdle)
    case PTestFull(f, ev) => s.(p := if s.m.count >= s.g.capacity then PTestOldest(f, ev) else PTestHead(f, ev))
    case PTestOldest(f, ev) =>
      if s.m.tail < |s.m.flags| && s.m.flags[s.m.tail] then
        s.(p := PUnlockRejected(ev), h := s.h.(rejects := s.h.rejects + 1))
      else s.(p := PAdvanceTail(f))
    case PAdvanceTail(f) =>
      s.(m := s.m.(tail := Next(s.m.tail, s.g.capacity)), h := s.h.(taken := s.h.taken + 1), p := PDecCount(f))
    case PDecCount(f) => s.(m := s.m.(count := s.m.count - 1), p := PCountEvicted(f))
    case PCountEvicted(f) => s.(n := s.n.(dropped := s.n.dropped + 1), p := PTestFull(f, true))
    case PTestHead(f, ev) =>
      if s.m.head < |s.m.flags| && s.m.flags[s.m.head] then
        s.(p := PUnlockRejected(ev), h := s.h.(rejects := s.h.rejects + 1))
      else s.(p := PWrite(f, 0, ev))
    case PUnlockRejected(_) => s.(m := s.m.(owner := Free), p := PCountRejected)
    case PCountRejected => s.(n := s.n.(dropped := s.n.dropped + 1), h := Answer(s.h, false), p := PIdle)
    case PWrite(f, k, ev) =>
      if k < |Image(f)| then
        s.(m := s.m.(region := Put(s.m.region, SlotStart(s.m.head, s.g.stride) + k, Image(f)[k])),
           p := PWrite(f, k + 1, ev))
      else s.(p := PAdvanceHead(f, ev))
    case PAdvanceHead(f, _) =>
      s.(m := s.m.(head := Next(s.m.head, s.g.capacity)), h := s.h.(log := s.h.log + [f]), p := PIncCount)
    case PIncCount => s.(m := s.m.(count := s.m.count + 1), p := PCountPushed)
    case PCountPushed => s.(n := s.n.(pushed := s.n.pushed + 1), p := PSignal)
    case PSignal => s.(c := Wake(s.c), p := PUnlock)
    case PUnlock => s.(m := s.m.(owner := Free), h := Answer(s.h, true), p := PIdle)
  }

  function TakeStep(s: State): State
    requires s.c.CTake?
  {
    match s.c.stage
    case AdvanceTail => s.(m := s.m.(tail := Next(s.m.tail, s.g.capacity)), c := s.c.(stage := DecCount))
    case DecCount => s.(m := s.m.(count := s.m.count - 1), c := s.c.(stage := CountPopped))
    case CountPopped => s.(n := s.n.(popped := s.n.popped + 1), c := s.c.(stage := Unlock))
    case Unlock => s.(m := s.m.(owner := Free), c := s.c.(stage := Allocate))
    case Allocate =>
      s.(packets := s.packets[s.c.j := Packet(s.c.slot, s.c.meta)],
         h := Get(s.h, GotPacket(s.c.j)).(delivered := s.h.delivered + [s.c.j]), c := CIdle)
    case GiveBack =>
      s.(m := s.m.(flags := Put(s.m.flags, s.c.slot, false)),
         h := Get(s.h, NoMemory(s.c.j)).(unallocated := s.h.unallocated + 1), c := CIdle)
  }

  function ConsumerStep(s: State): State {
    match s.c
    case CIdle => s
    case CBlocked(_) => s
    case CLock(w) => s.(m := s.m.(owner := ByConsumer), c := CTestCount(w))
    case CTestCount(w) =>
      s.(c := if w.NoWait? then (if s.m.count == 0 then CUnlockEmpty else CTestShutdown(w))
              else if s.m.count == 0 then CTestShutdown(w) else CFinalTest(w))
    case CTestShutdown(w) =>
      s.(c := if w.NoWait? then (if s.m.shut then CUnlockEmpty else CFinalTest(w))
              else if s.m.shut then CFinalTest(w) else CStartWait(w))
    case CStartWait(w) => s.(m := s.m.(owner := Free), c := CBlocked(w))
    case CWoken(w) => s.(m := s.m.(owner := ByConsumer), c := CTestCount(w))
    case CExpired => s.(m := s.m.(owner := ByConsumer), c := CUnlockEmpty)
    case CFinalTest(w) => s.(c := if s.m.count == 0 then CUnlockEmpty else CReadHeader(w, s.m.tail, []))
    case CReadHeader(w, slot, b) =>
      var at := SlotStart(slot, s.g.stride) + |b|;
      if |b| < SLOT_HEADER_SIZE then
        s.(c := CReadHeader(w, slot, b + [if at < |s.m.region| then s.m.region[at] else 0]))
      else s.(c := CSetFlag(w, slot, ReadHeader(b[..SLOT_HEADER_SIZE])))
    case CSetFlag(_, slot, meta) =>
      s.(m := s.m.(flags := Put(s.m.flags, slot, true)), h := s.h.(taken := s.h.taken + 1, pops := s.h.pops + 1),
         c := CTake(AdvanceTail, slot, meta, s.h.taken))
    case CTake(_, _, _, _) => TakeStep(s)
    case CUnlockEmpty => s.(m := s.m.(owner := Free), h := Get(s.h, GotNull), c := CIdle)
  }

  function ShutdownStep(s: State): State {
    match s.s
    case SIdle => s
    case SLock => s.(m := s.m.(owner := ByShutdown), s := SStore)
    case SStore => s.(m := s.m.(shut := true), s := SUnlock)
    case SUnlock => s.(m := s.m.(owner := Free), s := SBroadcast)
    case SBroadcast => s.(c := Wake(s.c), s := SIdle)
  }

  function ReaderStep(s: State): State {
    match s.r
    case RPushed => s.(r := RDropped(s.n.pushed))
    case RDropped(n) => s.(r := RPopped(n, s.n.dropped))
    case RPopped(n, d) => s.(r := RDone(n, d, s.n.popped))
    case _ => s
  }

  /** Destroying a packet clears the flag of the slot it remembers. */
  function ReleaseStep(s: State, j: nat): State
    requires j in s.packets
  {
    s.(m := s.m.(flags := Put(s.m.flags, s.packets[j].slot, false)), packets := s.packets - {j})
  }

  function Step(s: State, a: Action): State
    requires Enabled(s, a)
  {
    match a
    case CallPush(f) => StartPush(s, f)
    case Producer => ProducerStep(s)
    case CallPop(w) => s.(h := s.h.(waits := s.h.waits + [w]), c := CLock(w))
    case Consumer => ConsumerStep(s)
    case AllocationFails => s.(c := s.c.(stage := GiveBack))
    case SpuriousWakeup => s.(c := Wake(s.c))
    case Expire => s.(c := CExpired)
    case ReleasePacket(j) => ReleaseStep(s, j)
    case CallShutdown => s.(s := SLock)
    case Shutdowner => ShutdownStep(s)
    case CallStats => s.(r := RPushed)
    case Reader => ReaderStep(s)
  }

  /** A schedule is legal when each of its steps can happen where it stands. */
  predicate Legal(s: State, acts: seq<Action>)
    decreases |acts|
  {
    acts == [] || (Enabled(s, acts[0]) && Legal(Step(s, acts[0]), acts[1..]))
  }

  function Execute(s: State, acts: seq<Action>): State
    requires Legal(s, acts)
    decreases |acts|
  {
    if acts == [] then s else Execute(Step(s, acts[0]), acts[1..])
  }

  /** The FIFO the shared variables stand for at this very step. */
  function Held(s: State): set<nat> {
    s.packets.Keys + if s.c.CTake? then {s.c.j} else {}
  }

  function Now(s: State): Fifo {
    Fifo(s.g.capacity, s.h.log, s.h.taken, Held(s), s.m.shut, s.h.pops, s.h.rejects)
  }

  /** An eviction takes effect together with the append it makes room for. */
  predicate EvictionPending(p: ProducerPc) {
    || p.PDecCount? || p.PCountEvicted?
    || ((p.PTestFull? || p.PTestOldest? || p.PTestHead? || p.PWrite? || p.PAdvanceHead?) && p.evicted)
  }

  /** The FIFO as callers see it: each push and each pop changes it in one step. */
  function Abs(s: State): Fifo {
    if EvictionPending(s.p) && s.h.taken > 0 then Now(s).(taken := s.h.taken - 1) else Now(s)
  }
}
