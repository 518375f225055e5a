/** Linearizability: every call of push and of pop takes effect once, between its call and its return, and returns what
    the FIFO says at that moment. */
module QueueCalls {
  import opened Wrappers
  import opened SlotLayout
  import opened FifoModel
  import opened QueueMemory
  import opened QueueSteps
  import opened QueueInvariant
  import opened QueueProof
  import opened QueueTheorems

  // ---- Calls and what they return ----

  /** The answers given so far, and the one already decided inside the current call of push. */
  function DecidedPushes(s: State): seq<bool> {
    s.h.answers + if s.p.PIdle? || HasFrame(s.p) then [] else [Verdict(s.p)]
  }

  predicate Verdict(p: ProducerPc) { p.PIncCount? || p.PCountPushed? || p.PSignal? || p.PUnlock? }

  /** The decided calls of push whose payload is neither empty nor larger than a slot holds. */
  function DonePushes(g: Geometry, calls: seq<Frame>, answers: seq<bool>): seq<PushDone>
    requires |answers| <= |calls|
    decreases |answers|
  {
    if answers == [] then []
    else
      var n := |answers| - 1;
      DonePushes(g, calls, answers[..n])
      + if 0 < |calls[n].payload| <= g.maxLen then [PushDone(calls[n], answers[n])] else []
  }

  function TookOf(got: Got): Option<nat> {
    match got
    case GotPacket(j) => Some(j)
    case NoMemory(j) => Some(j)
    case GotNull => None
  }

  /** What the calls of pop took, the one already decided inside the current call included. */
  function DecidedPops(s: State): seq<Option<nat>> {
    seq(|s.h.gets|, i requires 0 <= i < |s.h.gets| => TookOf(s.h.gets[i]))
    + if s.c.CTake? then [Some(s.c.j)] else if s.c.CUnlockEmpty? then [None] else []
  }

  function DonePops(waits: seq<Wait>, took: seq<Option<nat>>): seq<PopDone>
    requires |took| <= |waits|
  {
    seq(|took|, i requires 0 <= i < |took| => PopDone(waits[i], took[i]))
  }

  predicate HasWait(c: ConsumerPc) {
    || c.CLock? || c.CTestCount? || c.CTestShutdown? || c.CStartWait? || c.CBlocked? || c.CWoken? || c.CFinalTest?
    || c.CReadHeader? || c.CSetFlag?
  }

  /** All calls but the current one have returned; a call with an empty or too large payload returned false, and such a
      call never gets as far as taking the mutex. */
  ghost predicate PushCalls(s: State) {
    && |s.h.answers| + OneIf(!s.p.PIdle?) == |s.h.calls|
    && (!s.p.PIdle? ==> 0 < |s.h.calls[|s.h.calls| - 1].payload| <= s.g.maxLen)
    && (HasFrame(s.p) ==> s.p.f == s.h.calls[|s.h.calls| - 1])
    && forall i :: 0 <= i < |s.h.answers| && s.h.answers[i] ==> 0 < |s.h.calls[i].payload| <= s.g.maxLen
  }

  ghost predicate PopCalls(s: State) {
    && |s.h.gets| + OneIf(!s.c.CIdle?) == |s.h.waits|
    && (HasWait(s.c) ==> s.c.w == s.h.waits[|s.h.waits| - 1])
    && (s.c.CExpired? ==> s.h.waits[|s.h.waits| - 1].Timed?)
  }

  // ---- One step ----

  lemma {:induction false} DonePushesFrame(g: Geometry, calls: seq<Frame>, answers: seq<bool>, f: Frame)
    requires |answers| <= |calls|
    ensures DonePushes(g, calls + [f], answers) == DonePushes(g, calls, answers)
    decreases |answers|
  {
    if answers != [] { DonePushesFrame(g, calls, answers[..|answers| - 1], f); }
  }

  lemma {:induction false} DonePushesHas(g: Geometry, calls: seq<Frame>, answers: seq<bool>, i: nat)
    requires i < |answers| <= |calls| && 0 < |calls[i].payload| <= g.maxLen
    ensures PushDone(calls[i], answers[i]) in DonePushes(g, calls, answers)
    decreases |answers|
  {
    if i < |answers| - 1 { DonePushesHas(g, calls, answers[..|answers| - 1], i); }
  }

  lemma DonePushesSnoc(g: Geometry, calls: seq<Frame>, answers: seq<bool>, ok: bool)
    requires |answers| < |calls|
    ensures DonePushes(g, calls, answers + [ok]) == DonePushes(g, calls, answers)
      + if 0 < |calls[|answers|].payload| <= g.maxLen then [PushDone(calls[|answers|], ok)] else []
  {
    assert (answers + [ok])[..|answers|] == answers;
  }

  lemma TraceOfOne(q: Fifo, op: Op)
    ensures PushTrace(q, []) == [] && PopTrace(q, []) == []
    ensures PushTrace(q, [op]) == if op.OpPush? then [PushDone(op.f, Kept(Outcome(q)))] else []
    ensures PopTrace(q, [op]) == match op
      case OpPop(w) => [PopDone(w, if 0 <= q.taken < |q.log| then Some(q.taken) else None)]
      case OpMiss(w, _) => [PopDone(w, None)]
      case _ => []
  {
    assert [op][1..] == [];
  }

  lemma OneMorePush(g: Geometry, calls: seq<Frame>, d: seq<bool>, d': seq<bool>, q: Fifo, ops: seq<Op>)
    requires |d| <= |calls|
    requires ops == [] ==> d' == d
    requires ops != [] ==>
      && ops[1..] == [] && ops[0].OpPush? && d' == d + [Kept(Outcome(q))]
      && |d| < |calls| && ops[0].f == calls[|d|] && 0 < |calls[|d|].payload| <= g.maxLen
    ensures |d'| <= |calls| && DonePushes(g, calls, d') == DonePushes(g, calls, d) + PushTrace(q, ops)
  {
    if ops != [] {
      assert ops == [ops[0]];
      TraceOfOne(q, ops[0]);
      DonePushesSnoc(g, calls, d, Kept(Outcome(q)));
    }
  }

  lemma OneMorePop(waits: seq<Wait>, d: seq<Option<nat>>, d': seq<Option<nat>>, trace: seq<PopDone>)
    requires |d| <= |waits|
    requires trace == [] ==> d' == d
    requires trace != [] ==>
      |d| < |waits| && trace[1..] == [] && trace[0].w == waits[|d|] && d' == d + [trace[0].j]
    ensures |d'| <= |waits| && DonePops(waits, d') == DonePops(waits, d) + trace
  {
    if trace != [] { assert trace == [trace[0]]; }
  }

  lemma DonePopsFrame(waits: seq<Wait>, waits': seq<Wait>, d: seq<Option<nat>>)
    requires |d| <= |waits| && waits <= waits'
    ensures DonePops(waits', d) == DonePops(waits, d)
  {
  }

  /** The producer's operation is the push of the current call, and the answer it leads to is the FIFO's. */
  lemma PushDecided(s: State, a: Action)
    requires Inv(s) && Enabled(s, a) && a.Producer?
    ensures OpOf(s, a) == [] || OpOf(s, a) == [OpPush(s.p.f)]
    ensures OpOf(s, a) != [] ==> HasFrame(s.p) && Kept(Outcome(Abs(s))) == s.p.PAdvanceHead?
    ensures s.p.PTestOldest? ==> s.m.tail < |s.m.flags| && !s.m.flags[s.m.tail]
  {
    ProducerTests(s);
    hide ProducerStep, Abs, Outcome, Ordered, Deliveries, BytesMatch, PacketsShow, Counters;
    if s.p.PAdvanceHead? {
      AppendIsPush(s);
    } else if s.p.PTestHead? && s.m.flags[s.m.head] {
      RejectionIsPush(s);
    } else if s.p.PTestShutdown? && s.m.shut {
      RefusalIsPush(s);
    }
  }

  /** A producer step that decides the call fixes the answer; returning hands out just that one. */
  lemma PushAnswersByProducer(s: State, a: Action)
    requires PushCalls(s) && Enabled(s, a) && a.Producer?
    requires s.p.PTestOldest? ==> s.m.tail < |s.m.flags| && !s.m.flags[s.m.tail]
    ensures var s' := Step(s, a);
      && PushCalls(s') && s'.h.calls == s.h.calls && s'.g == s.g
      && DecidedPushes(s') == DecidedPushes(s) + if OpOf(s, a) == [] then [] else [s.p.PAdvanceHead?]
  {
    hide ConsumerStep, ReaderStep, ShutdownStep, ReleaseStep, StartPush, SlotStart, Image;
  }

  lemma PushStepByProducer(s: State, a: Action)
    requires Inv(s) && PushCalls(s) && Enabled(s, a) && a.Producer?
    ensures PushStep(s, a)
  {
    PushDecided(s, a);
    PushAnswersByProducer(s, a);
    hide Step, Inv, Enabled, OpOf, Abs, Outcome, PushTrace, Kept, DonePushes;
    OneMorePush(s.g, s.h.calls, DecidedPushes(s), DecidedPushes(Step(s, a)), Abs(s), OpOf(s, a));
  }

  /** The calls of push stay in step with their answers and with the operations. */
  ghost predicate PushStep(s: State, a: Action)
    requires PushCalls(s) && Enabled(s, a)
  {
    var s' := Step(s, a);
    && PushCalls(s')
    && DonePushes(s'.g, s'.h.calls, DecidedPushes(s')) ==
         DonePushes(s.g, s.h.calls, DecidedPushes(s)) + PushTrace(Abs(s), OpOf(s, a))
  }

  lemma SilentOps(s: State, a: Action)
    ensures !a.Producer? ==> PushTrace(Abs(s), OpOf(s, a)) == []
    ensures !a.Consumer? ==> PopTrace(Abs(s), OpOf(s, a)) == []
  {
    if OpOf(s, a) != [] { TraceOfOne(Abs(s), OpOf(s, a)[0]); }
    hide Abs, PushTrace, PopTrace;
    OneOp(s, a);
  }

  lemma PushCallsByRest(s: State, a: Action)
    requires Enabled(s, a) && !a.Producer? && !a.CallPush?
    ensures var s' := Step(s, a);
      s'.p == s.p && s'.h.calls == s.h.calls && s'.h.answers == s.h.answers && s'.g == s.g
  {
    hide ProducerStep, StartPush, Slot, SlotStart, Image, ReadHeader;
  }

  lemma PushStepByRest(s: State, a: Action)
    requires PushCalls(s) && Enabled(s, a) && !a.Producer? && !a.CallPush?
    ensures PushStep(s, a)
  {
    PushCallsByRest(s, a);
    SilentOps(s, a);
    hide Step, Enabled, OpOf, Abs, PushTrace, DonePushes;
  }

  lemma PushStepByCall(s: State, a: Action)
    requires PushCalls(s) && Enabled(s, a) && a.CallPush?
    ensures PushStep(s, a)
  {
    SilentOps(s, a);
    var s' := Step(s, a);
    DonePushesFrame(s.g, s.h.calls, s.h.answers, a.f);
    DonePushesSnoc(s.g, s'.h.calls, s.h.answers, false);
    hide DonePushes, PushTrace, OpOf, Abs;
    assert s'.h.calls == s.h.calls + [a.f];
    assert DecidedPushes(s) == s.h.answers;
    assert DecidedPushes(s') == if Fits(s.g, a.f) then s.h.answers else s.h.answers + [false];
  }

  lemma StepPushes(s: State, a: Action)
    requires Inv(s) && PushCalls(s) && Enabled(s, a)
    ensures PushStep(s, a)
  {
    hide Inv, PushStep, PushCalls, Enabled;
    if a.Producer? {
      PushStepByProducer(s, a);
    } else if a.CallPush? {
      PushStepByCall(s, a);
    } else {
      PushStepByRest(s, a);
    }
  }

  // ---- One step of a pop ----

  ghost predicate PopStep(s: State, a: Action)
    requires PopCalls(s) && Enabled(s, a)
  {
    var s' := Step(s, a);
    && PopCalls(s')
    && DonePops(s'.h.waits, DecidedPops(s')) == DonePops(s.h.waits, DecidedPops(s)) + PopTrace(Abs(s), OpOf(s, a))
  }

  /** What the consumer's operation is in terms of the current call. */
  lemma PopDecided(s: State, a: Action)
    requires Inv(s) && PopCalls(s) && Enabled(s, a) && a.Consumer?
    ensures PopTrace(Abs(s), OpOf(s, a)) ==
      if s.c.CSetFlag? then [PopDone(s.h.waits[|s.h.waits| - 1], Some(s.h.taken))]
      else if s.c.CExpired? || FindsNothing(s) then [PopDone(s.h.waits[|s.h.waits| - 1], None)]
      else []
  {
    if OpOf(s, a) != [] { TraceOfOne(Abs(s), OpOf(s, a)[0]); }
    OneOp(s, a);
    hide Ordered, Deliveries, BytesMatch, FlagsMatch, PacketsShow, Counters, Written, Wakeups, Snapshots, Slot;
    hide PopTrace;
    assert s.c.CSetFlag? ==> Abs(s) == Now(s);
  }

  lemma PopAnswersByConsumer(s: State, a: Action)
    requires PopCalls(s) && Enabled(s, a) && a.Consumer?
    ensures var s' := Step(s, a);
      && PopCalls(s') && s'.h.waits == s.h.waits
      && DecidedPops(s') == DecidedPops(s) +
           if s.c.CSetFlag? then [Some(s.h.taken)] else if s.c.CExpired? || FindsNothing(s) then [None] else []
  {
    hide ProducerStep, ReaderStep, ShutdownStep, ReleaseStep, StartPush, SlotStart, Image, ReadHeader;
  }

  lemma PopStepByConsumer(s: State, a: Action)
    requires Inv(s) && PopCalls(s) && Enabled(s, a) && a.Consumer?
    ensures PopStep(s, a)
  {
    PopDecided(s, a);
    PopAnswersByConsumer(s, a);
    var s', d, d', trace := Step(s, a), DecidedPops(s), DecidedPops(Step(s, a)), PopTrace(Abs(s), OpOf(s, a));
    assert |d| <= |s.h.waits|;
    assert trace != [] ==> |d| < |s.h.waits| && |d| == |s.h.waits| - 1;
    hide Step, Inv, Enabled, OpOf, Abs, FindsNothing, PopTrace, DonePops, PopCalls, DecidedPops;
    assert trace == [] || trace[1..] == [];
    OneMorePop(s.h.waits, d, d', trace);
  }

  lemma PopCallsByRest(s: State, a: Action)
    requires PopCalls(s) && Enabled(s, a) && !a.Consumer?
    ensures var s' := Step(s, a);
      PopCalls(s') && DecidedPops(s') == DecidedPops(s) && s.h.waits <= s'.h.waits
  {
    hide ConsumerStep, SlotStart, ReadHeader, Image;
    var s' := Step(s, a);
    assert s'.h.gets == s.h.gets && (s'.c.CTake? <==> s.c.CTake?) && (s'.c.CUnlockEmpty? <==> s.c.CUnlockEmpty?);
    assert s.c.CTake? ==> s'.c.j == s.c.j;
  }

  lemma PopStepByRest(s: State, a: Action)
    requires PopCalls(s) && Enabled(s, a) && !a.Consumer?
    ensures PopStep(s, a)
  {
    SilentOps(s, a);
    PopCallsByRest(s, a);
    hide Step, Enabled, PopTrace, OpOf, Abs, DecidedPops, DonePops;
    DonePopsFrame(s.h.waits, Step(s, a).h.waits, DecidedPops(s));
  }

  lemma StepPops(s: State, a: Action)
    requires Inv(s) && PopCalls(s) && Enabled(s, a)
    ensures PopStep(s, a)
  {
    hide Inv, PopStep, PopCalls, Enabled;
    if a.Consumer? { PopStepByConsumer(s, a); } else { PopStepByRest(s, a); }
  }

  /** Whatever takes effect is something the FIFO permits there. */
  lemma StepPermitted(s: State, a: Action)
    requires Inv(s) && Enabled(s, a)
    ensures OpOf(s, a) == [] || Permitted(Abs(s), OpOf(s, a)[0])
  {
    hide Ordered, Deliveries, BytesMatch, FlagsMatch, PacketsShow, Counters, Written, Wakeups, Snapshots, Slot;
    if a.Consumer? && ConsumerOwns(s.c) { assert Abs(s) == Now(s); }
  }

  // ---- Runs ----

  lemma TraceConcat(q: Fifo, xs: seq<Op>, ys: seq<Op>)
    requires |xs| <= 1
    ensures PushTrace(q, xs + ys) == PushTrace(q, xs) + PushTrace(FifoModel.Run(q, xs), ys)
    ensures PopTrace(q, xs + ys) == PopTrace(q, xs) + PopTrace(FifoModel.Run(q, xs), ys)
    ensures AllPermitted(q, xs + ys) <==> AllPermitted(q, xs) && AllPermitted(FifoModel.Run(q, xs), ys)
  {
    if xs == [] {
      assert xs + ys == ys;
    } else {
      TraceOfOne(q, xs[0]);
      assert xs == [xs[0]] && (xs + ys)[1..] == ys;
    }
  }

  lemma RunOfOne(q: Fifo, ops: seq<Op>)
    requires |ops| <= 1
    ensures FifoModel.Run(q, ops) == if ops == [] then q else FifoModel.Apply(q, ops[0])
    ensures AllPermitted(q, ops) <==> ops == [] || Permitted(q, ops[0])
  {
    if ops != [] { assert ops[1..] == []; }
  }

  /** What a run adds to the calls' results is what the FIFO gives for the run's operations. */
  ghost predicate Follows(s: State, s': State, ops: seq<Op>)
    requires PushCalls(s) && PopCalls(s)
  {
    && PushCalls(s') && PopCalls(s')
    && DonePushes(s'.g, s'.h.calls, DecidedPushes(s')) ==
         DonePushes(s.g, s.h.calls, DecidedPushes(s)) + PushTrace(Abs(s), ops)
    && DonePops(s'.h.waits, DecidedPops(s')) == DonePops(s.h.waits, DecidedPops(s)) + PopTrace(Abs(s), ops)
    && AllPermitted(Abs(s), ops)
  }

  lemma StepFollows(s: State, a: Action)
    requires Inv(s) && PushCalls(s) && PopCalls(s) && Enabled(s, a)
    ensures Follows(s, Step(s, a), OpOf(s, a)) && Abs(Step(s, a)) == FifoModel.Run(Abs(s), OpOf(s, a))
  {
    StepPushes(s, a);
    StepPops(s, a);
    StepPermitted(s, a);
    StepRefinesFifo(s, a);
    OneOp(s, a);
    RunOfOne(Abs(s), OpOf(s, a));
    hide Step, Inv, Enabled, OpOf, Abs, DonePushes, DonePops, DecidedPops, DecidedPushes, PushTrace, PopTrace;
    hide FifoModel.Run, AllPermitted, Permitted, FifoModel.Apply;
  }

  lemma {:induction false} RunFollows(s: State, acts: seq<Action>)
    requires Inv(s) && PushCalls(s) && PopCalls(s) && Legal(s, acts)
    ensures Follows(s, Execute(s, acts), Ops(s, acts))
    decreases |acts|
  {
    hide Inv, PushCalls, PopCalls, Step, Enabled, OpOf, Abs, DonePushes, DonePops, DecidedPops, DecidedPushes;
    hide PushTrace, PopTrace, AllPermitted, FifoModel.Run;
    if acts == [] {
      FollowsNothing(s);
    } else {
      var s1 := Step(s, acts[0]);
      StepFollows(s, acts[0]);
      StepKeepsInv(s, acts[0]);
      RunFollows(s1, acts[1..]);
      OneOp(s, acts[0]);
      TraceConcat(Abs(s), OpOf(s, acts[0]), Ops(s1, acts[1..]));
    }
  }

  lemma FollowsNothing(s: State)
    requires PushCalls(s) && PopCalls(s)
    ensures Follows(s, s, [])
  {
  }
}
