/** The queue as a bounded FIFO over the list of all frames it ever accepted.
    Frame number j of that list lives in slot j mod capacity for as long as it is queued or held. */
module FifoModel {
  import opened Wrappers
  import opened Bits
  import opened SlotLayout

  /** log: every frame accepted so far; taken: how many of them left the queue, by pop or by eviction;
      held: the popped frames whose packets are still alive. */
  datatype Fifo = Fifo(capacity: nat, log: seq<Frame>, taken: nat, held: set<nat>, shut: bool, pops: nat, rejects: nat)

  function Slot(j: int, capacity: nat): (i: nat)
    requires capacity > 0
    ensures i < capacity
  {
    j % capacity
  }

  ghost predicate WellFormed(q: Fifo) {
    && q.capacity > 0
    && q.taken <= |q.log| <= q.taken + q.capacity
    && q.pops <= q.taken
    && forall j :: j in q.held ==> |q.log| - q.capacity <= j < q.taken
  }

  function Count(q: Fifo): int { |q.log| - q.taken }

  ghost function Contents(q: Fifo): seq<Frame>
    requires WellFormed(q)
  {
    q.log[q.taken..]
  }

  /** Frame j is in the queue's memory: queued, or popped and not yet released. */
  ghost predicate Present(q: Fifo, j: int) {
    j in q.held || q.taken <= j < |q.log|
  }

  /** The slot the next accepted frame goes to is free. */
  ghost predicate HeadFree(q: Fifo) {
    Count(q) < q.capacity && |q.log| - q.capacity !in q.held
  }

  datatype PushOutcome = Refused | EvictedOldest | RejectedNewest | Appended

  /** What a push that passes the argument checks does. */
  function Outcome(q: Fifo): PushOutcome {
    if q.shut then Refused
    else if Count(q) >= q.capacity then EvictedOldest
    else if |q.log| - q.capacity in q.held then RejectedNewest
    else Appended
  }

  function Push(q: Fifo, f: Frame): Fifo {
    match Outcome(q)
    case Refused => q
    case EvictedOldest => q.(log := q.log + [f], taken := q.taken + 1)
    case RejectedNewest => q.(rejects := q.rejects + 1)
    case Appended => q.(log := q.log + [f])
  }

  function Pop(q: Fifo): Fifo
    requires Count(q) > 0
  {
    q.(taken := q.taken + 1, pops := q.pops + 1, held := q.held + {q.taken})
  }

  function Release(q: Fifo, j: nat): Fifo { q.(held := q.held - {j}) }

  function Shutdown(q: Fifo): Fifo { q.(shut := true) }

  /** Frames dropped so far: those evicted and those rejected. */
  function Dropped(q: Fifo): int { q.taken - q.pops + q.rejects }

  // ---- Slots ----

  lemma SlotPeriodic(j: int, capacity: nat)
    requires capacity > 0
    ensures Slot(j - capacity, capacity) == Slot(j, capacity)
  {
    var q := j / capacity;
    assert j - capacity == (q - 1) * capacity + j % capacity;
    DivModUnique(j - capacity, capacity, q - 1, j % capacity);
  }

  /** Frames accepted fewer than capacity pushes apart never share a slot. */
  lemma SlotsDiffer(j: int, k: int, capacity: nat)
    requires capacity > 0 && j < k < j + capacity
    ensures Slot(j, capacity) != Slot(k, capacity)
  {
    var d := k / capacity - j / capacity;
    assert d * capacity == k - j - (k % capacity - j % capacity) by {
      assert k == (k / capacity) * capacity + k % capacity;
      assert j == (j / capacity) * capacity + j % capacity;
    }
    MulAtLeast(d, capacity);
    MulAtLeast(d - 1, capacity);
  }

  lemma SlotNext(j: int, capacity: nat)
    requires capacity > 0
    ensures Slot(j + 1, capacity) == (Slot(j, capacity) + 1) % capacity
  {
    var q, r := j / capacity, j % capacity;
    assert j == q * capacity + r;
    if r + 1 < capacity {
      DivModUnique(j + 1, capacity, q, r + 1);
      DivModUnique(r + 1, capacity, 0, r + 1);
    } else {
      assert j + 1 == (q + 1) * capacity + 0;
      DivModUnique(j + 1, capacity, q + 1, 0);
      DivModUnique(capacity, capacity, 1, 0);
    }
  }

  // ---- Every operation keeps the shape ----

  lemma OperationsKeepShape(q: Fifo, f: Frame, j: nat)
    requires WellFormed(q)
    ensures WellFormed(Push(q, f))
    ensures Count(q) > 0 ==> WellFormed(Pop(q))
    ensures WellFormed(Release(q, j)) && WellFormed(Shutdown(q))
  {
    if Count(q) > 0 {
      var p := Pop(q);
      assert forall k :: k in p.held ==> k in q.held || k == q.taken;
    }
  }

  /** The numbers lo, lo + 1, ..., hi - 1. */
  function Interval(lo: int, hi: int): (s: set<int>)
    ensures forall x :: x in s <==> lo <= x < hi
    decreases hi - lo
  {
    if lo >= hi then {} else Interval(lo, hi - 1) + {hi - 1}
  }

  lemma {:induction false} IntervalSize(lo: int, hi: int)
    requires lo <= hi
    ensures |Interval(lo, hi)| == hi - lo
    decreases hi - lo
  {
    if lo < hi {
      IntervalSize(lo, hi - 1);
    }
  }

  lemma SubsetSize(a: set<int>, b: set<int>)
    requires a <= b
    ensures |a| <= |b|
  {
    assert b == a + (b - a);
  }

  /** Queued and held frames together never exceed the capacity; in particular a full queue holds nothing. */
  lemma QueuedPlusHeldFit(q: Fifo)
    requires WellFormed(q)
    ensures Count(q) + |q.held| <= q.capacity
    ensures Count(q) == q.capacity ==> q.held == {}
  {
    var lo := |q.log| - q.capacity;
    var h: set<int> := set j | j in q.held :: j;
    assert h == q.held;
    IntervalSize(lo, q.taken);
    SubsetSize(h, Interval(lo, q.taken));
  }

  /** No slot of a queued frame is the slot of a held frame, and no two frames present share a slot. */
  lemma HeldAndQueuedSlotsDisjoint(q: Fifo, j: nat, k: nat)
    requires WellFormed(q) && j != k && Present(q, j) && Present(q, k)
    ensures Slot(j, q.capacity) != Slot(k, q.capacity)
  {
    if j < k { SlotsDiffer(j, k, q.capacity); } else { SlotsDiffer(k, j, q.capacity); }
  }

  // ---- The policy ----

  /** Exactly when a push that passes the argument checks keeps the new frame, and what else it changes. */
  lemma PushPolicy(q: Fifo, f: Frame)
    requires WellFormed(q) && !q.shut
    ensures WellFormed(Push(q, f))
    ensures Contents(Push(q, f)) ==
      if |q.log| - q.capacity in q.held then Contents(q)
      else if Count(q) == q.capacity then Contents(q)[1..] + [f]
      else Contents(q) + [f]
    ensures Dropped(Push(q, f)) ==
      Dropped(q) + if Count(q) == q.capacity || |q.log| - q.capacity in q.held then 1 else 0
    ensures Push(q, f).held == q.held
    ensures |q.log| - q.capacity in q.held ==> Count(q) < q.capacity
  {
    OperationsKeepShape(q, f, 0);
  }

  /** The documented use: no packet is held while the next one is popped. */
  ghost predicate AtMostNewestHeld(q: Fifo) {
    forall j :: j in q.held ==> j == q.taken - 1
  }

  /** The three kinds of timeout pop distinguishes: negative, zero, positive. */
  datatype Wait = Forever | NoWait | Timed

  /** OpPop takes the oldest frame. OpMiss is a pop that returns null; expired: its timed wait ran out. */
  datatype Op = OpPush(f: Frame) | OpPop(w: Wait) | OpMiss(w: Wait, expired: bool) | OpRelease(j: nat) | OpShutdown

  function Apply(q: Fifo, op: Op): Fifo {
    match op
    case OpPush(f) => Push(q, f)
    case OpPop(_) => if Count(q) > 0 then Pop(q) else q
    case OpMiss(_, _) => q
    case OpRelease(j) => Release(q, j)
    case OpShutdown => Shutdown(q)
  }

  function Run(q: Fifo, ops: seq<Op>): Fifo
    decreases |ops|
  {
    if ops == [] then q else Run(Apply(q, ops[0]), ops[1..])
  }

  ghost predicate Disciplined(q: Fifo, ops: seq<Op>)
    decreases |ops|
  {
    ops == [] || ((ops[0].OpPop? ==> q.held == {}) && Disciplined(Apply(q, ops[0]), ops[1..]))
  }

  lemma {:induction false} RunKeepsDiscipline(q: Fifo, ops: seq<Op>)
    requires WellFormed(q) && AtMostNewestHeld(q) && Disciplined(q, ops)
    ensures WellFormed(Run(q, ops)) && AtMostNewestHeld(Run(q, ops))
    decreases |ops|
  {
    if ops != [] {
      var q' := Apply(q, ops[0]);
      match ops[0] {
        case OpPush(f) =>
          OperationsKeepShape(q, f, 0);
          if Outcome(q) == EvictedOldest { QueuedPlusHeldFit(q); }
        case OpPop(_) => if Count(q) > 0 { OperationsKeepShape(q, Frame(0, 0, 0, 0, 0, []), 0); }
        case OpMiss(_, _) =>
        case OpRelease(j) => OperationsKeepShape(q, Frame(0, 0, 0, 0, 0, []), j);
        case OpShutdown =>
      }
      RunKeepsDiscipline(q', ops[1..]);
    }
  }

  function Empty(capacity: nat): Fifo { Fifo(capacity, [], 0, {}, false, 0, 0) }

  /** With at most one packet held at a time, in every run: a push evicts the oldest frame exactly when the queue is
      full, and drops the new frame exactly when a packet is held and one slot short of the capacity is queued. */
  lemma SingleHolderPolicy(capacity: nat, ops: seq<Op>)
    requires capacity > 0 && Disciplined(Empty(capacity), ops)
    ensures var q := Run(Empty(capacity), ops);
      !q.shut ==>
        && (Outcome(q) == EvictedOldest <==> Count(q) == capacity)
        && (Outcome(q) == RejectedNewest <==> q.held != {} && Count(q) == capacity - 1)
  {
    RunKeepsDiscipline(Empty(capacity), ops);
    var q := Run(Empty(capacity), ops);
    RunKeepsCapacity(Empty(capacity), ops);
    QueuedPlusHeldFit(q);
    if q.held != {} {
      var j :| j in q.held;
      assert j == q.taken - 1;
    }
  }

  lemma {:induction false} RunKeepsCapacity(q: Fifo, ops: seq<Op>)
    ensures Run(q, ops).capacity == q.capacity
    decreases |ops|
  {
    if ops != [] { RunKeepsCapacity(Apply(q, ops[0]), ops[1..]); }
  }

  /** The documented drop-oldest policy is not what happens while a packet is held: with two slots, one frame held and
      one queued, the third frame is the one that is lost although the queue is not full. */
  lemma NewestCanBeLost(a: Frame, b: Frame, c: Frame)
    ensures var q := Run(Empty(2), [OpPush(a), OpPop(Forever), OpPush(b)]);
      && Count(q) == 1 && Outcome(q) == RejectedNewest
      && Push(q, c).log == [a, b] && Push(q, c).taken == 1
  {
    var q1 := Push(Empty(2), a);
    var q2 := Pop(q1);
    var q3 := Push(q2, b);
    assert Run(Empty(2), [OpPush(a), OpPop(Forever), OpPush(b)]) == Run(q1, [OpPop(Forever), OpPush(b)]) by {
      assert [OpPush(a), OpPop(Forever), OpPush(b)][1..] == [OpPop(Forever), OpPush(b)];
    }
    assert Run(q1, [OpPop(Forever), OpPush(b)]) == Run(q2, [OpPush(b)]) by {
      assert [OpPop(Forever), OpPush(b)][1..] == [OpPush(b)];
    }
    assert Run(q2, [OpPush(b)]) == q3;
    assert 0 in q3.held;
  }

  // ---- What calls return ----

  /** Push returns true exactly for a frame it kept. */
  predicate Kept(o: PushOutcome) { o.Appended? || o.EvictedOldest? }

  datatype PushDone = PushDone(f: Frame, ok: bool)

  /** A pop and the number of the frame it took, if it took one. */
  datatype PopDone = PopDone(w: Wait, j: Option<nat>)

  /** The pushes of a run, in order, each with its result. */
  function PushTrace(q: Fifo, ops: seq<Op>): seq<PushDone>
    decreases |ops|
  {
    if ops == [] then []
    else
      (if ops[0].OpPush? then [PushDone(ops[0].f, Kept(Outcome(q)))] else [])
      + PushTrace(Apply(q, ops[0]), ops[1..])
  }

  /** The pops of a run, in order, each with what it took. */
  function PopTrace(q: Fifo, ops: seq<Op>): seq<PopDone>
    decreases |ops|
  {
    if ops == [] then []
    else
      (match ops[0]
       case OpPop(w) => [PopDone(w, if 0 <= q.taken < |q.log| then Some(q.taken) else None)]
       case OpMiss(w, _) => [PopDone(w, None)]
       case _ => [])
      + PopTrace(Apply(q, ops[0]), ops[1..])
  }

  /** Where in a run a result comes from. */
  lemma {:induction false} PushTraceAt(q: Fifo, ops: seq<Op>, d: PushDone) returns (k: nat)
    requires d in PushTrace(q, ops)
    ensures k < |ops| && ops[k] == OpPush(d.f)
    ensures d.ok <==> Outcome(Run(q, ops[..k])) == Appended || Outcome(Run(q, ops[..k])) == EvictedOldest
    decreases |ops|
  {
    k := 0;
    if !(ops[0].OpPush? && d == PushDone(ops[0].f, Kept(Outcome(q)))) {
      k := PushTraceAt(Apply(q, ops[0]), ops[1..], d);
      assert ops[..k + 1][1..] == ops[1..][..k];
      k := k + 1;
    }
  }

  /** When pop may take a frame and when it may return null: a blocking pop only if the queue is empty and shut down,
      one with zero timeout if and only if it is empty or shut down, a timed one also because its wait expired. */
  predicate Permitted(q: Fifo, op: Op) {
    match op
    case OpPop(w) => Count(q) > 0 && !(w.NoWait? && q.shut)
    case OpMiss(w, expired) =>
      (match w
       case Forever => !expired && Count(q) == 0 && q.shut
       case NoWait => !expired && (Count(q) == 0 || q.shut)
       case Timed => expired || (Count(q) == 0 && q.shut))
    case _ => true
  }

  predicate AllPermitted(q: Fifo, ops: seq<Op>)
    decreases |ops|
  {
    ops == [] || (Permitted(q, ops[0]) && AllPermitted(Apply(q, ops[0]), ops[1..]))
  }

  // ---- Draining after shutdown ----

  /** The frames the pops of a run return, in order. */
  function Popped(q: Fifo, ops: seq<Op>): seq<Frame>
    decreases |ops|
  {
    if ops == [] then []
    else
      (if ops[0].OpPop? && 0 <= q.taken < |q.log| then [q.log[q.taken]] else [])
      + Popped(Apply(q, ops[0]), ops[1..])
  }

  lemma FirstOfSlice<T>(s: seq<T>, i: nat, j: nat)
    requires i < j <= |s|
    ensures s[i..j] == [s[i]] + s[i + 1..j]
  {
  }

  /** Once shut down: nothing enters any more, pops return the remaining frames in order, at most Count of them. */
  lemma {:induction false} ShutdownDrains(q: Fifo, ops: seq<Op>)
    requires WellFormed(q) && q.shut
    ensures var q' := Run(q, ops);
      && WellFormed(q') && q'.shut && q'.log == q.log && q.taken <= q'.taken
      && Popped(q, ops) == q.log[q.taken..q'.taken]
      && |Popped(q, ops)| + Count(q') == Count(q)
      && Dropped(q') == Dropped(q)
    decreases |ops|
  {
    if ops != [] {
      var q1 := Apply(q, ops[0]);
      OperationsKeepShape(q, Frame(0, 0, 0, 0, 0, []), if ops[0].OpRelease? then ops[0].j else 0);
      ShutdownDrains(q1, ops[1..]);
      var q' := Run(q, ops);
      if q1.taken == q.taken + 1 { FirstOfSlice(q.log, q.taken, q'.taken); }
    }
  }

  function TookSome(trace: seq<PopDone>): nat {
    if trace == [] then 0 else (if trace[0].j.Some? then 1 else 0) + TookSome(trace[1..])
  }

  /** Once shut down, a pop with zero timeout returns null, and a blocking one does so only after as many frames were
      taken as there were. */
  lemma {:induction false} DrainResults(q: Fifo, ops: seq<Op>, i: nat)
    requires WellFormed(q) && q.shut && AllPermitted(q, ops) && i < |PopTrace(q, ops)|
    ensures var trace := PopTrace(q, ops);
      && (trace[i].w.NoWait? ==> trace[i].j.None?)
      && (trace[i].w.Forever? && trace[i].j.None? ==> TookSome(trace[..i]) == Count(q))
    decreases |ops|
  {
    var q1, trace, rest := Apply(q, ops[0]), PopTrace(q, ops), PopTrace(Apply(q, ops[0]), ops[1..]);
    OperationsKeepShape(q, Frame(0, 0, 0, 0, 0, []), if ops[0].OpRelease? then ops[0].j else 0);
    if ops[0].OpPop? || ops[0].OpMiss? {
      assert trace[1..] == rest;
      if i > 0 {
        DrainResults(q1, ops[1..], i - 1);
        assert trace[..i][1..] == rest[..i - 1];
      }
    } else {
      assert trace == rest;
      DrainResults(q1, ops[1..], i);
    }
  }

  // ---- Conservation ----

  /** How many pushes of a run reached the open queue. */
  function Attempts(q: Fifo, ops: seq<Op>): nat
    decreases |ops|
  {
    if ops == [] then 0
    else (if ops[0].OpPush? && !q.shut then 1 else 0) + Attempts(Apply(q, ops[0]), ops[1..])
  }

  /** Every frame offered to the open queue is popped, dropped or still queued. */
  lemma {:induction false} FramesConserved(q: Fifo, ops: seq<Op>)
    ensures var q' := Run(q, ops);
      Attempts(q, ops) + q.pops + Dropped(q) + Count(q) == q'.pops + Dropped(q') + Count(q')
    decreases |ops|
  {
    if ops != [] {
      FramesConserved(Apply(q, ops[0]), ops[1..]);
    }
  }
}
