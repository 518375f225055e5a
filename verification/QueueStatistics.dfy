/** What a statistics snapshot shows: each counter as it was at some moment of the call. */
module QueueStatistics {
  import opened ByteOrder
  import opened SlotLayout
  import opened FifoModel
  import opened QueueSteps
  import opened QueueTheorems
  import opened QueueGuarantees

  // ---- The values of a snapshot ----

  /** The counters never go back. */
  predicate UpTo(n: Stats, n': Stats) { n.pushed <= n'.pushed && n.dropped <= n'.dropped && n.popped <= n'.popped }

  /** One step seen by the reader: it moves only by its own steps, and each of these loads one counter. */
  lemma ReaderSees(s: State, a: Action)
    requires Enabled(s, a) && !a.CallStats?
    ensures UpTo(s.n, Step(s, a).n)
    ensures !a.Reader? ==> Step(s, a).r == s.r
    ensures a.Reader? ==> Step(s, a).n == s.n && match s.r
      case RPushed => Step(s, a).r == RDropped(s.n.pushed)
      case RDropped(n) => Step(s, a).r == RPopped(n, s.n.dropped)
      case RPopped(n, d) => Step(s, a).r == RDone(n, d, s.n.popped)
      case _ => false
  {
    hide Slot, SlotStart, Image, ReadHeader, Answer, Get, Put, Next, Wake, Fits;
  }

  /** What is still to be loaded lies between now and the end; what was loaded stays. */
  ghost predicate Brackets(r: ReaderPc, n: Stats, r': ReaderPc, n': Stats) {
    r'.RDone? ==>
      match r
      case RIdle => true
      case RPushed =>
        n.pushed <= r'.n <= n'.pushed && n.dropped <= r'.d <= n'.dropped && n.popped <= r'.o <= n'.popped
      case RDropped(p) => r'.n == p && n.dropped <= r'.d <= n'.dropped && n.popped <= r'.o <= n'.popped
      case RPopped(p, d) => r'.n == p && r'.d == d && n.popped <= r'.o <= n'.popped
      case RDone(p, d, o) => r' == r
  }

  lemma {:induction false} SnapshotFrom(s: State, acts: seq<Action>)
    requires Legal(s, acts) && forall a :: a in acts ==> !a.CallStats?
    ensures UpTo(s.n, Execute(s, acts).n) && Brackets(s.r, s.n, Execute(s, acts).r, Execute(s, acts).n)
    decreases |acts|
  {
    if acts != [] {
      assert acts[0] in acts;
      ReaderSees(s, acts[0]);
      hide Step, Enabled;
      SnapshotFrom(Step(s, acts[0]), acts[1..]);
    }
  }

  /** Each of the three numbers a call of getStats returns lies between the counter's values at the call's start and at
      its end. */
  lemma SnapshotBrackets(s: State, acts: seq<Action>)
    requires s.r.RPushed? && Legal(s, acts) && (forall a :: a in acts ==> !a.CallStats?) && Execute(s, acts).r.RDone?
    ensures var s' := Execute(s, acts);
      && s.n.pushed <= s'.r.n <= s'.n.pushed
      && s.n.dropped <= s'.r.d <= s'.n.dropped
      && s.n.popped <= s'.r.o <= s'.n.popped
  {
    SnapshotFrom(s, acts);
  }

  /** A call during which no counter moved returns the three counters. */
  lemma SnapshotExact(s: State, acts: seq<Action>)
    requires s.r.RPushed? && Legal(s, acts) && (forall a :: a in acts ==> !a.CallStats?) && Execute(s, acts).r.RDone?
    requires Execute(s, acts).n == s.n
    ensures Execute(s, acts).r == RDone(s.n.pushed, s.n.dropped, s.n.popped)
  {
    SnapshotFrom(s, acts);
  }

  // ---- A snapshot that shows more popped frames than pushed ones ----

  /** Taking a run one step further. */
  lemma Go(s: State, a: Action) returns (s': State)
    requires Reachable(s) && Enabled(s, a)
    ensures s' == Step(s, a) && s'.g == s.g && Reachable(s')
  {
    s' := Step(s, a);
    assert Legal(s', []) && Execute(s', []) == s';
    assert Legal(s, [a]) && Execute(s, [a]) == s' by { assert [a][1..] == []; }
    ReachableContinues(s, [a]);
    LogGrowsStep(s, a);
  }

  /** The queue holds nothing, was not shut down, and no call but that of the reader is going on. */
  ghost predicate Quiet(s: State) {
    && Reachable(s) && s.p.PIdle? && s.c.CIdle? && s.m.owner.Free? && !s.m.shut && s.m.count == 0
    && s.m.head < |s.m.flags| && !s.m.flags[s.m.head] && s.h.calls == [] && s.g.maxLen >= 1
  }

  lemma StartOfWriting(s: State, f: Frame) returns (s': State)
    requires Quiet(s) && f.seqNo == 0 && |f.payload| == 1
    ensures Reachable(s') && s'.p == PWrite(f, 0, false) && s'.c.CIdle? && !s'.m.shut && s'.m.count == 0
    ensures s'.n == s.n && s'.r == s.r && s'.g == s.g
  {
    hide Reachable, Image, Slot, SlotStart;
    s' := Go(s, CallPush(f));
    s' := Go(s', Producer);
    s' := Go(s', Producer);
    s' := Go(s', Producer);
    s' := Go(s', Producer);
  }

  lemma Writing(s: State) returns (s': State)
    requires Reachable(s) && s.p.PWrite? && s.c.CIdle? && !s.m.shut && s.m.count == 0
    ensures Reachable(s') && s'.p.PAdvanceHead? && s'.c.CIdle? && !s'.m.shut && s'.m.count == 0
    ensures s'.n == s.n && s'.r == s.r && s'.g == s.g
    decreases if s.p.k < |Image(s.p.f)| then |Image(s.p.f)| - s.p.k else 0
  {
    hide Reachable, Image, Slot, SlotStart;
    s' := Go(s, Producer);
    if s'.p.PWrite? { s' := Writing(s'); }
  }

  lemma EndOfPush(s: State) returns (s': State)
    requires Reachable(s) && s.p.PAdvanceHead? && s.c.CIdle? && !s.m.shut && s.m.count == 0
    ensures Reachable(s') && s'.p.PIdle? && s'.c.CIdle? && s'.m.owner.Free? && !s'.m.shut && s'.m.count == 1
    ensures s'.n == s.n.(pushed := s.n.pushed + 1) && s'.r == s.r && s'.g == s.g
  {
    hide Reachable, Image, Slot, SlotStart;
    s' := Go(s, Producer);
    s' := Go(s', Producer);
    s' := Go(s', Producer);
    s' := Go(s', Producer);
    s' := Go(s', Producer);
  }

  lemma StartOfPop(s: State) returns (s': State)
    requires Reachable(s) && s.p.PIdle? && s.c.CIdle? && s.m.owner.Free? && !s.m.shut && s.m.count == 1
    ensures Reachable(s') && s'.c.CReadHeader? && s'.n == s.n && s'.r == s.r && s'.g == s.g
  {
    hide Reachable, Image, Slot, SlotStart;
    s' := Go(s, CallPop(Forever));
    s' := Go(s', Consumer);
    s' := Go(s', Consumer);
    s' := Go(s', Consumer);
  }

  lemma ReadingHeader(s: State) returns (s': State)
    requires Reachable(s) && s.c.CReadHeader?
    ensures Reachable(s') && s'.c.CSetFlag? && s'.n == s.n && s'.r == s.r && s'.g == s.g
    decreases if |s.c.bytes| < SLOT_HEADER_SIZE then SLOT_HEADER_SIZE - |s.c.bytes| else 0
  {
    hide Reachable, Image, Slot, SlotStart, ReadHeader;
    s' := Go(s, Consumer);
    if s'.c.CReadHeader? { s' := ReadingHeader(s'); }
  }

  lemma CountOfPop(s: State) returns (s': State)
    requires Reachable(s) && s.c.CSetFlag?
    ensures Reachable(s') && s'.n == s.n.(popped := s.n.popped + 1) && s'.r == s.r && s'.g == s.g
  {
    hide Reachable, Image, Slot, SlotStart, ReadHeader;
    s' := Go(s, Consumer);
    s' := Go(s', Consumer);
    s' := Go(s', Consumer);
    s' := Go(s', Consumer);
  }

  /** The reader loads the pushed counter; then a frame is pushed and popped; then it loads the others: one frame
      popped, none pushed. */
  lemma SnapshotCanShowMorePopped(capacity: pos, maxLen: nat, stride: nat, region: seq<byte>)
    returns (s: State)
    requires SLOT_HEADER_SIZE + maxLen <= stride && |region| == stride * capacity && maxLen >= 1
    ensures Reachable(s) && s.g == Geometry(capacity, maxLen, stride)
    ensures s.r.RDone? && s.r.n == 0 && s.r.o == 1
  {
    s := Beginning(capacity, maxLen, stride, region);
    s := StartOfWriting(s, Frame(0, 0, 0, 0, 0, [0]));
    s := Writing(s);
    s := EndOfPush(s);
    s := StartOfPop(s);
    s := ReadingHeader(s);
    s := CountOfPop(s);
    hide Reachable;
    s := Go(s, Reader);
    s := Go(s, Reader);
  }

  lemma Beginning(capacity: pos, maxLen: nat, stride: nat, region: seq<byte>) returns (s: State)
    requires SLOT_HEADER_SIZE + maxLen <= stride && |region| == stride * capacity && maxLen >= 1
    ensures Quiet(s) && s.g == Geometry(capacity, maxLen, stride) && s.n == Stats(0, 0, 0) && s.r == RDropped(0)
  {
    s := Init(capacity, maxLen, stride, region);
    assert Legal(s, []) && Execute(s, []) == s && Reachable(s);
    hide Reachable;
    s := Go(s, CallStats);
    s := Go(s, Reader);
  }
}
