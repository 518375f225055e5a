/** From push on the camera to the frames the server keeps, over all connections. */
module Pipeline {
  import opened Wrappers
  import opened ByteOrder
  import opened SlotLayout
  import opened Protocol
  import opened FrameStream
  import opened FrameFiles
  import opened FrameServer
  import opened TlsClient
  import opened SharedQueue
  import QueueSteps
  import QueueInvariant
  import QueueGuarantees

  /** What the server takes from its first n connections, one after the other. Connection number i brings streams[i],
      and the running flag lets it take at most limits[i] frames. */
  function Taken(streams: seq<seq<byte>>, limits: seq<nat>, n: nat): seq<Received>
    requires n <= |streams| == |limits|
  {
    if n == 0 then []
    else Taken(streams, limits, n - 1) + Take(ParseStream(streams[n - 1]).frames, limits[n - 1])
  }

  /** What arrives over each connection is some prefix of what the client put on its wire. */
  ghost predicate Truncated(streams: seq<seq<byte>>, cs: seq<Session>) {
    |streams| == |cs| && forall i :: 0 <= i < |cs| ==> streams[i] <= cs[i].wire
  }

  /** sub lists, in order and without repetition, what the frames at some positions of whole look like. */
  ghost predicate PickedAt(sub: seq<Received>, whole: seq<Frame>, at: seq<nat>) {
    && |at| == |sub|
    && (forall i :: 0 <= i < |at| ==> at[i] < |whole| && sub[i] == View(whole[at[i]]))
    && (forall i, k :: 0 <= i < k < |at| ==> at[i] < at[k])
  }

  lemma PrefixAppend(a: seq<byte>, w: seq<byte>, c: seq<byte>)
    requires a <= w && w[|a|..] <= c
    ensures w <= a + c
  {
    assert w == a + w[|a|..];
  }

  lemma WholeSeq<T>(s: seq<T>)
    ensures s[..|s|] == s
  {
  }

  lemma WireIsPrefix(c: Session)
    requires Framed(c)
    ensures c.wire <= EncodeAll(Consumed(c))
  {
    if c.lost.Some? {
      var e, f := EncodeAll(c.sent), c.lost.value;
      EncodeAllSnoc(c.sent, f);
      hide EncodeAll, EncodeFrame;
      PrefixAppend(e, c.wire, EncodeFrame(f));
    }
  }

  /** One connection: the server takes the first few frames the client sent over it, unchanged, and refuses none. */
  lemma SessionTaken(c: Session, stream: seq<byte>, limit: nat) returns (k: nat)
    requires Framed(c) && stream <= c.wire && forall f :: f in Consumed(c) ==> Sendable(f)
    ensures k == Min(limit, WholeFrames(Consumed(c), |stream|))
    ensures Take(ParseStream(stream).frames, limit) == Views(Consumed(c)[..k])
    ensures !ParseStream(stream).ending.Rejected?
  {
    WireIsPrefix(c);
    hide ParseStream, EncodeAll, Consumed, Framed, View, WholeFrames;
    k := ParsePrefix(Consumed(c), stream);
    if limit < k {
      assert Views(Consumed(c)[..k])[..limit] == Views(Consumed(c)[..limit]);
      k := limit;
    }
  }

  /** Picking from two lists one after the other is picking from their concatenation. */
  lemma PickAppend(sub: seq<Received>, whole: seq<Frame>, at: seq<nat>, more: seq<Frame>, k: nat)
    returns (at': seq<nat>)
    requires PickedAt(sub, whole, at) && k <= |more|
    ensures PickedAt(sub + Views(more[..k]), whole + more, at')
  {
    hide View;
    at' := at + seq(k, i requires 0 <= i < k => |whole| + i);
  }

  /** Every frame the client took from the queue is one the server can accept. */
  ghost predicate AllSendable(cs: seq<Session>) {
    forall c :: c in cs ==> forall f :: f in Consumed(c) ==> Sendable(f)
  }

  lemma ConsumedNext(cs: seq<Session>, n: nat)
    requires n < |cs|
    ensures AllConsumed(cs[..n + 1]) == AllConsumed(cs[..n]) + Consumed(cs[n])
  {
    hide Consumed;
    assert cs[..n + 1][..n] == cs[..n];
  }

  /** All connections: an ordered, duplicate-free, unchanged selection of the frames the client took from the queue. */
  lemma {:induction false} TakenIsSelection(cs: seq<Session>, streams: seq<seq<byte>>, limits: seq<nat>, n: nat)
    returns (at: seq<nat>)
    requires (forall c :: c in cs ==> Framed(c)) && AllSendable(cs)
    requires Truncated(streams, cs) && |limits| == |cs| && n <= |cs|
    ensures PickedAt(Taken(streams, limits, n), AllConsumed(cs[..n]), at)
    decreases n
  {
    hide AllConsumed, Consumed, Framed, ParseStream, View, Views, Take, Sendable;
    if n == 0 {
      at := [];
    } else {
      hide PickedAt;
      at := TakenIsSelection(cs, streams, limits, n - 1);
      var c := cs[n - 1];
      assert c in cs && streams[n - 1] <= c.wire;
      var k := SessionTaken(c, streams[n - 1], limits[n - 1]);
      ConsumedNext(cs, n - 1);
      at := PickAppend(Taken(streams, limits, n - 1), AllConsumed(cs[..n - 1]), at, Consumed(c), k);
    }
  }

  /** The server never refuses a header on any connection of this client. */
  lemma NoneRefused(cs: seq<Session>, streams: seq<seq<byte>>, i: nat)
    requires (forall c :: c in cs ==> Framed(c)) && AllSendable(cs)
    requires Truncated(streams, cs) && i < |cs|
    ensures !ParseStream(streams[i]).ending.Rejected?
  {
    hide Consumed, Framed, ParseStream, Sendable;
    assert cs[i] in cs && streams[i] <= cs[i].wire;
    var k := SessionTaken(cs[i], streams[i], 0);
  }

  /** The server's fields and bytes are those given to push. */
  predicate Same(r: Received, f: Frame) {
    && r.payload == f.payload && r.meta.len == |f.payload|
    && r.meta.seqNo == f.seqNo && r.meta.timestamp == f.timestamp && r.meta.pixelFormat == f.pixelFormat
    && r.meta.width == f.width && r.meta.height == f.height
  }

  /** An ordered, duplicate-free, unchanged selection of the calls of push. */
  ghost predicate FramesOf(taken: seq<Received>, calls: seq<Frame>) {
    && (forall i :: 0 <= i < |taken| ==>
          taken[i].meta.seqNo < |calls| && Same(taken[i], calls[taken[i].meta.seqNo]))
    && (forall i, k :: 0 <= i < k < |taken| ==> taken[i].meta.seqNo < taken[k].meta.seqNo)
  }

  lemma PickedFromSelection(taken: seq<Received>, popped: seq<Frame>, at: seq<nat>, all: seq<Frame>, calls: seq<Frame>)
    requires PickedAt(taken, popped, at) && popped <= all && QueueGuarantees.SelectedInOrder(all, calls)
    ensures FramesOf(taken, calls)
  {
    forall i | 0 <= i < |popped| ensures popped[i] == all[i] {}
  }

  lemma ConsumedSendable(s: QueueSteps.State, cs: seq<Session>)
    requires QueueGuarantees.Reachable(s) && QueueInvariant.Deliveries(s) && s.g.maxLen <= SERVER_MAX_PAYLOAD
    requires AllConsumed(cs) <= QueueGuarantees.DeliveredFrames(s)
    ensures AllSendable(cs)
  {
    hide QueueGuarantees.Reachable, QueueInvariant.Deliveries, AllConsumed;
    QueueGuarantees.DeliveredInOrder(s);
    var popped, all := AllConsumed(cs), QueueGuarantees.DeliveredFrames(s);
    forall f | f in popped ensures Sendable(f) {
      var i :| 0 <= i < |popped| && popped[i] == f;
      assert f == all[i];
    }
    forall c | c in cs ensures forall f :: f in Consumed(c) ==> Sendable(f) {
      ConsumedIn(cs, c);
    }
  }

  lemma {:induction false} ConsumedIn(cs: seq<Session>, c: Session)
    requires c in cs
    ensures forall f :: f in Consumed(c) ==> f in AllConsumed(cs)
  {
    hide Consumed;
    if c != cs[|cs| - 1] { ConsumedIn(cs[..|cs| - 1], c); }
  }

  /** If the sessions are framed and consumed what pop handed out, what is taken from any prefixes of their wires is an
      ordered selection of the calls of push, and no header is refused. */
  lemma TakenFromPushes(s: QueueSteps.State, cs: seq<Session>, streams: seq<seq<byte>>, limits: seq<nat>)
    requires QueueGuarantees.Reachable(s) && QueueInvariant.Deliveries(s) && s.g.maxLen <= SERVER_MAX_PAYLOAD
    requires forall c :: c in cs ==> Framed(c)
    requires AllConsumed(cs) <= QueueGuarantees.DeliveredFrames(s)
    requires Truncated(streams, cs) && |limits| == |cs|
    ensures FramesOf(Taken(streams, limits, |cs|), s.h.calls)
    ensures forall i :: 0 <= i < |streams| ==> !ParseStream(streams[i]).ending.Rejected?
  {
    hide QueueGuarantees.Reachable, QueueInvariant.Deliveries, QueueGuarantees.DeliveredFrames;
    hide AllConsumed, Framed, ParseStream, Taken, AllSendable, PickedAt, FramesOf, QueueGuarantees.SelectedInOrder;
    QueueGuarantees.DeliveredInOrder(s);
    ConsumedSendable(s, cs);
    var at := TakenIsSelection(cs, streams, limits, |cs|);
    WholeSeq(cs);
    var all := QueueGuarantees.DeliveredFrames(s);
    PickedFromSelection(Taken(streams, limits, |cs|), AllConsumed(cs), at, all, s.h.calls);
    forall i | 0 <= i < |streams| ensures !ParseStream(streams[i]).ending.Rejected? {
      NoneRefused(cs, streams, i);
    }
  }

  /** Conservation between calls: every frame that reached the open queue was dropped, is still queued, could not be
      given a packet, was fully sent, or was lost with its connection, which happens at most once per connection. */
  lemma FramesAccountedFor(s: QueueSteps.State, cs: seq<Session>, frames: nat, bytes: nat)
    requires QueueGuarantees.Reachable(s) && QueueInvariant.Deliveries(s) && s.p.PIdle? && s.c.CIdle?
    requires Accounts(cs, frames, bytes) && AllConsumed(cs) == QueueGuarantees.DeliveredFrames(s)
    ensures s.h.attempts == frames + Losses(cs) + s.h.unallocated + s.n.dropped + s.m.count
    ensures Losses(cs) <= |cs|
  {
    QueueGuarantees.CountersConserve(s);
    TakenAccounted(cs, frames, bytes);
  }

  /** Whatever one client run sends, every frame that was saved successfully, on whichever connection, still has exactly
      its payload in its file. */
  lemma NoFileOverwritten(files: map<string, seq<byte>>, dir: string, received: seq<Received>, saved: seq<bool>,
                          calls: seq<Frame>)
    requires FramesOf(received, calls) && SavedIntact(files, dir, received, saved) && |dir| <= 484
    ensures forall i :: 0 <= i < |received| && saved[i] ==>
      NameOf(dir, received[i]) in files && files[NameOf(dir, received[i])] == received[i].payload
  {
  }

  /** Of a connection that is not cut off, the server gets every frame the client counted as sent. */
  lemma SentFramesArrive(c: Session)
    requires Framed(c) && forall f :: f in c.sent ==> Sendable(f)
    ensures Views(c.sent) <= ParseStream(c.wire).frames
    ensures c.lost.None? ==> ParseStream(c.wire).frames == Views(c.sent)
  {
    var e := EncodeAll(c.sent);
    hide ParseStream, EncodeAll, EncodeFrame, Views;
    var tail := c.wire[|e|..];
    assert c.wire == e + tail;
    ParseEncoded(c.sent, tail);
    if c.lost.None? { EmptyStream(); }
  }

  lemma EmptyStream()
    ensures ParseStream([]).frames == []
  {
  }

  lemma ViewsConcat(a: seq<Frame>, b: seq<Frame>)
    ensures Views(a + b) == Views(a) + Views(b)
  {
  }

  lemma TakeAll<T>(s: seq<T>, n: nat)
    requires |s| <= n
    ensures Take(s, n) == s
  {
  }

  lemma SessionWhole(c: Session, limit: nat)
    requires Framed(c) && c.lost.None? && |c.sent| <= limit && forall f :: f in Consumed(c) ==> Sendable(f)
    ensures Take(ParseStream(c.wire).frames, limit) == Views(Consumed(c))
  {
    hide Framed, ParseStream, Take, View;
    SentFramesArrive(c);
    TakeAll(ParseStream(c.wire).frames, limit);
  }

  /** If no session lost a frame, nothing is cut off and the server keeps running, every frame taken from the queue
      arrives. */
  lemma {:induction false} NothingLostWithoutFailures(cs: seq<Session>, streams: seq<seq<byte>>, limits: seq<nat>,
                                                      n: nat)
    requires (forall c :: c in cs ==> Framed(c)) && AllSendable(cs)
    requires n <= |streams| == |limits| == |cs|
    requires forall i :: 0 <= i < |cs| ==>
      cs[i].lost.None? && streams[i] == cs[i].wire && limits[i] >= |cs[i].sent|
    ensures Taken(streams, limits, n) == Views(AllConsumed(cs[..n]))
    decreases n
  {
    hide AllConsumed, Consumed, ParseStream, View, Framed, Take, Sendable;
    if n > 0 {
      var c := cs[n - 1];
      assert c in cs;
      NothingLostWithoutFailures(cs, streams, limits, n - 1);
      SessionWhole(c, limits[n - 1]);
      ConsumedNext(cs, n - 1);
      ViewsConcat(AllConsumed(cs[..n - 1]), Consumed(c));
    } else {
      assert cs[..0] == [];
      NothingConsumed();
    }
  }

  lemma NothingConsumed()
    ensures AllConsumed([]) == []
  {
  }

  // ---- The programs run together ----

  /** What happens to one connection: where it is cut off, when the server's running flag is found cleared, how its
      reads and its saves turn out. None: not at all. */
  datatype Plan = Plan(cut: Option<nat>, limit: Option<nat>, chunks: seq<ReadEvent>, saves: seq<SaveScript>)

  function PlanOf(plans: seq<Plan>, i: nat): Plan { if i < |plans| then plans[i] else Plan(None, None, [], []) }

  predicate Undisturbed(plans: seq<Plan>) { forall p :: p in plans ==> p.cut.None? && p.limit.None? }

  function Arriving(wire: seq<byte>, p: Plan): seq<byte> {
    match p.cut
    case None => wire
    case Some(n) => Take(wire, n)
  }

  /** A stream has fewer frames than bytes, so one round more than it has bytes is no limit. */
  function RoundsOf(wire: seq<byte>, p: Plan): nat {
    match p.limit
    case None => |wire| + 1
    case Some(n) => n
  }

  function Streams(wires: seq<seq<byte>>, plans: seq<Plan>): (r: seq<seq<byte>>)
    ensures |r| == |wires|
  {
    seq(|wires|, i requires 0 <= i < |wires| => Arriving(wires[i], PlanOf(plans, i)))
  }

  function Limits(wires: seq<seq<byte>>, plans: seq<Plan>): (r: seq<nat>)
    ensures |r| == |wires|
  {
    seq(|wires|, i requires 0 <= i < |wires| => RoundsOf(wires[i], PlanOf(plans, i)))
  }

  /** No save of a file fails. */
  predicate AlwaysSaves(plans: seq<Plan>) { forall p :: p in plans ==> p.saves == [] }

  lemma AllPossible(plans: seq<Plan>, n: nat, saved: seq<bool>)
    requires AlwaysSaves(plans) && SavedIfPossible(PlanOf(plans, n).saves, saved)
    ensures AllDone(saved)
  {
    var saves := PlanOf(plans, n).saves;
    assert saves == [];
    forall i | 0 <= i < |saved| ensures saved[i] {
      assert Succeeds(ScriptOf(saves, i));
    }
  }

  /** What the server has done after its first n connections. */
  ghost predicate Served(files: map<string, seq<byte>>, files': map<string, seq<byte>>, dir: string,
                         streams: seq<seq<byte>>, limits: seq<nat>, n: nat, received: seq<Received>, saved: seq<bool>)
    requires |streams| == |limits| && n <= |streams|
  {
    && received == Taken(streams, limits, n)
    && SavedIntact(files', dir, received, saved) && Untouched(files, files', dir, received)
  }

  lemma NothingServed(files: map<string, seq<byte>>, dir: string, streams: seq<seq<byte>>, limits: seq<nat>)
    requires |streams| == |limits|
    ensures Served(files, files, dir, streams, limits, 0, [], [])
  {
  }

  lemma ServedOneMore(files0: map<string, seq<byte>>, files: map<string, seq<byte>>, files': map<string, seq<byte>>,
                      dir: string, streams: seq<seq<byte>>, limits: seq<nat>, n: nat,
                      received: seq<Received>, saved: seq<bool>, frames: seq<Received>, done: seq<bool>)
    requires |streams| == |limits| && n < |streams|
    requires Served(files0, files, dir, streams, limits, n, received, saved)
    requires frames == Take(ParseStream(streams[n]).frames, limits[n])
    requires SavedIntact(files', dir, frames, done) && Untouched(files, files', dir, frames)
    ensures Served(files0, files', dir, streams, limits, n + 1, received + frames, saved + done)
    ensures AllDone(saved) && AllDone(done) ==> AllDone(saved + done)
  {
    IntactThrough(files, files', dir, received, saved, frames, done);
    UntouchedThrough(files0, files, files', dir, received, frames);
  }

  /** Why the server stopped reading each connection, if it read on until there was a reason. */
  ghost predicate EndingsMatch(endings: seq<Option<Ending>>, streams: seq<seq<byte>>) {
    && |endings| <= |streams|
    && forall i :: 0 <= i < |endings| && endings[i].Some? ==> endings[i].value == ParseStream(streams[i]).ending
  }

  lemma OneMoreEnding(endings: seq<Option<Ending>>, streams: seq<seq<byte>>, why: Option<Ending>)
    requires EndingsMatch(endings, streams) && |endings| < |streams|
    requires why.Some? ==> why.value == ParseStream(streams[|endings|]).ending
    ensures EndingsMatch(endings + [why], streams)
  {
    hide ParseStream;
  }

  /** The server handles its connections one after the other. */
  method ServeAll(server: Server, wires: seq<seq<byte>>, plans: seq<Plan>)
    returns (received: seq<Received>, saved: seq<bool>, endings: seq<Option<Ending>>)
    modifies server, server.disk
    ensures received == Taken(Streams(wires, plans), Limits(wires, plans), |wires|)
    ensures |endings| == |wires| && EndingsMatch(endings, Streams(wires, plans))
    ensures server.framesReceived == old(server.framesReceived) + |received|
    ensures SavedIntact(server.disk.files, server.dir, received, saved)
    ensures Untouched(old(server.disk.files), server.disk.files, server.dir, received)
    ensures server.saveFrames && AlwaysSaves(plans) ==> AllDone(saved)
  {
    received, saved, endings := [], [], [];
    var streams, limits := Streams(wires, plans), Limits(wires, plans);
    NothingServed(server.disk.files, server.dir, streams, limits);
    for n := 0 to |wires|
      invariant Served(old(server.disk.files), server.disk.files, server.dir, streams, limits, n, received, saved)
      invariant |endings| == n && EndingsMatch(endings, streams)
      invariant server.framesReceived == old(server.framesReceived) + |received|
      invariant server.saveFrames && AlwaysSaves(plans) ==> AllDone(saved)
    {
      hide Taken, Take, ParseStream, SavedIntact, Untouched, Streams, Limits, StreamSize, Successes, Served, AllDone;
      hide SavedIfPossible, AlwaysSaves, PlanOf, EndingsMatch;
      var plan := PlanOf(plans, n);
      var conn := new Connection(streams[n], plan.chunks);
      ghost var before := server.disk.files;
      var frames, done, why := server.HandleClient(conn, limits[n], plan.saves);
      if server.saveFrames && AlwaysSaves(plans) { AllPossible(plans, n, done); }
      OneMoreEnding(endings, streams, why);
      ServedOneMore(old(server.disk.files), before, server.disk.files, server.dir, streams, limits, n, received, saved,
                    frames, done);
      received, saved, endings := received + frames, saved + done, endings + [why];
    }
  }

  /** The camera process: the queue's parameters and initial memory, what the other threads do and when, the backoff
      settings, and what the network loop meets. */
  datatype Camera = Camera(capacity: QueueSteps.pos, maxLen: nat, stride: nat, memory: seq<byte>,
                           schedule: seq<seq<QueueSteps.Action>>, config: Backoff, rounds: seq<Round>)

  predicate SlotsFit(camera: Camera) {
    SLOT_HEADER_SIZE + camera.maxLen <= camera.stride && |camera.memory| == camera.stride * camera.capacity
  }

  /** Every attempt to connect succeeds, and the network loop goes on long enough after the other threads have
      stopped. */
  ghost predicate EnoughRounds(camera: Camera) {
    AllConnect(camera.rounds) && |camera.rounds| > |camera.schedule| + camera.capacity
  }

  ghost predicate WiresOf(wires: seq<seq<byte>>, cs: seq<Session>) {
    |wires| == |cs| && forall i :: 0 <= i < |cs| ==> wires[i] == cs[i].wire
  }

  /** The network loop of the camera process, against the queue that the other threads go on using. The bytes on the
      wires are those it read out of packets and out of the slots of held packets, one by one. */
  method RunCamera(camera: Camera)
    returns (s: QueueSteps.State, wires: seq<seq<byte>>, framesSent: nat, ghost cs: seq<Session>)
    requires SlotsFit(camera)
    ensures QueueGuarantees.Reachable(s) && QueueInvariant.Deliveries(s) && s.c.CIdle?
    ensures s.g == QueueSteps.Geometry(camera.capacity, camera.maxLen, camera.stride)
    ensures WiresOf(wires, cs) && Accounts(cs, framesSent, BytesSent(cs))
    ensures AllConsumed(cs) == QueueGuarantees.DeliveredFrames(s)
    ensures EndedByLoss(cs) && (NoFailures(camera.rounds) ==> Losses(cs) == 0)
    ensures NoFailures(camera.rounds) ==>
      forall k :: 0 <= k < |camera.rounds| && WillConnect(camera.rounds[k].connect) ==>
        |s.h.gets| >= |camera.rounds| - k
    ensures AllConnect(camera.rounds) ==> |s.h.gets| == |camera.rounds|
    ensures EnoughRounds(camera) ==> s.h.taken == |s.h.log|
  {
    hide Delay, SumDelays, WillConnect;
    var queue := new LiveQueue(camera.capacity, camera.maxLen, camera.stride, camera.memory, camera.schedule);
    var client := new Client(camera.config);
    assert queue.Delivered() == [];
    assert AllConsumed(client.log) == [] && Losses(client.log) == 0;
    client.NetworkLoop(queue, camera.rounds);
    wires := client.Wires();
    s, framesSent, cs := queue.s, client.framesSent, client.log;
    queue.IsReachable();
    ReachableDeliveries(s);
  }

  /** How many frames of a session the server gets: those wholly inside what arrives, up to its running flag. */
  function Through(c: Session, p: Plan): (k: nat)
    ensures k <= |Consumed(c)|
  {
    var whole := WholeFrames(Consumed(c), if p.cut.Some? then Min(p.cut.value, |c.wire|) else |c.wire|);
    if p.limit.Some? then Min(p.limit.value, whole) else whole
  }

  /** What the server receives over the first n connections: of each, its first frames, unchanged. */
  function Expected(cs: seq<Session>, plans: seq<Plan>, n: nat): seq<Received>
    requires n <= |cs|
  {
    if n == 0 then []
    else Expected(cs, plans, n - 1) + Views(Consumed(cs[n - 1])[..Through(cs[n - 1], PlanOf(plans, n - 1))])
  }

  lemma {:induction false} FewWholeFrames(fs: seq<Frame>, n: nat)
    ensures WholeFrames(fs, n) <= n
  {
    hide EncodeFrame;
    if fs != [] && |EncodeFrame(fs[0])| <= n { FewWholeFrames(fs[1..], n - |EncodeFrame(fs[0])|); }
  }

  /** One connection, whatever becomes of it. */
  lemma SessionThrough(c: Session, p: Plan)
    requires Framed(c) && forall f :: f in Consumed(c) ==> Sendable(f)
    ensures Take(ParseStream(Arriving(c.wire, p)).frames, RoundsOf(c.wire, p)) == Views(Consumed(c)[..Through(c, p)])
  {
    hide ParseStream, Framed, Consumed, View, Views, WholeFrames;
    var k := SessionTaken(c, Arriving(c.wire, p), RoundsOf(c.wire, p));
    FewWholeFrames(Consumed(c), |Arriving(c.wire, p)|);
  }

  /** All connections: exactly the first frames of each. */
  lemma {:induction false} TakenExactly(cs: seq<Session>, wires: seq<seq<byte>>, plans: seq<Plan>, n: nat)
    requires WiresOf(wires, cs) && n <= |cs| && (forall c :: c in cs ==> Framed(c)) && AllSendable(cs)
    ensures Taken(Streams(wires, plans), Limits(wires, plans), n) == Expected(cs, plans, n)
    decreases n
  {
    hide ParseStream, Framed, Consumed, View, Views, Through, Take, Arriving, RoundsOf, Sendable;
    if n > 0 {
      assert cs[n - 1] in cs && wires[n - 1] == cs[n - 1].wire;
      TakenExactly(cs, wires, plans, n - 1);
      SessionThrough(cs[n - 1], PlanOf(plans, n - 1));
    }
  }

  lemma WiresCut(wires: seq<seq<byte>>, cs: seq<Session>, plans: seq<Plan>)
    requires WiresOf(wires, cs)
    ensures Truncated(Streams(wires, plans), cs)
  {
  }

  lemma {:induction false} NoLosses(cs: seq<Session>)
    requires Losses(cs) == 0
    ensures forall i :: 0 <= i < |cs| ==> cs[i].lost.None?
  {
    if cs != [] { NoLosses(cs[..|cs| - 1]); }
  }

  lemma {:induction false} FewerFramesThanBytes(fs: seq<Frame>)
    ensures |fs| <= |EncodeAll(fs)|
  {
    if fs != [] { FewerFramesThanBytes(fs[1..]); }
  }

  /** Undisturbed connections without losses bring the server everything that was taken from the queue. */
  lemma AllArrive(s: QueueSteps.State, wires: seq<seq<byte>>, cs: seq<Session>, plans: seq<Plan>)
    requires QueueGuarantees.Reachable(s) && QueueInvariant.Deliveries(s) && s.g.maxLen <= SERVER_MAX_PAYLOAD
    requires AllConsumed(cs) == QueueGuarantees.DeliveredFrames(s)
    requires (forall c :: c in cs ==> Framed(c)) && WiresOf(wires, cs) && Losses(cs) == 0 && Undisturbed(plans)
    ensures Taken(Streams(wires, plans), Limits(wires, plans), |wires|) == Views(QueueGuarantees.DeliveredFrames(s))
  {
    hide QueueGuarantees.Reachable, QueueInvariant.Deliveries, AllConsumed, Taken, View, Losses;
    ConsumedSendable(s, cs);
    NoLosses(cs);
    var streams, limits := Streams(wires, plans), Limits(wires, plans);
    forall i | 0 <= i < |cs|
      ensures cs[i].lost.None? && streams[i] == cs[i].wire && limits[i] >= |cs[i].sent|
    {
      assert PlanOf(plans, i).cut.None? && PlanOf(plans, i).limit.None?;
      assert cs[i] in cs && Framed(cs[i]);
      FewerFramesThanBytes(cs[i].sent);
    }
    WholeSeq(cs);
    NothingLostWithoutFailures(cs, streams, limits, |cs|);
  }

  lemma ReceivedExactly(s: QueueSteps.State, wires: seq<seq<byte>>, cs: seq<Session>, plans: seq<Plan>)
    requires QueueGuarantees.Reachable(s) && QueueInvariant.Deliveries(s) && s.g.maxLen <= SERVER_MAX_PAYLOAD
    requires AllConsumed(cs) == QueueGuarantees.DeliveredFrames(s)
    requires (forall c :: c in cs ==> Framed(c)) && WiresOf(wires, cs)
    ensures Taken(Streams(wires, plans), Limits(wires, plans), |wires|) == Expected(cs, plans, |cs|)
  {
    hide QueueGuarantees.Reachable, QueueInvariant.Deliveries, Framed, AllSendable, Taken, Expected;
    ConsumedSendable(s, cs);
    TakenExactly(cs, wires, plans, |cs|);
  }

  /** What there is after a run: the queue's state, the bytes sent over each connection, the frames counted as sent, and
      on the server the frames received, which of them were saved, why each connection ended, and the files. */
  datatype Outcome = Outcome(s: QueueSteps.State, wires: seq<seq<byte>>, framesSent: nat, received: seq<Received>,
                             saved: seq<bool>, endings: seq<Option<Ending>>, files: map<string, seq<byte>>)

  /** What the outcome alone shows. */
  ghost predicate Faithful(camera: Camera, dir: string, saveFrames: bool, plans: seq<Plan>, o: Outcome) {
    && QueueGuarantees.Reachable(o.s) && QueueInvariant.Deliveries(o.s)
    // The frames received have strictly increasing sequence numbers, and each is the frame given to that call of push.
    && FramesOf(o.received, o.s.h.calls)
    // No header was refused.
    && |o.endings| == |o.wires| && (forall e :: e in o.endings && e.Some? ==> !e.value.Rejected?)
    // Every frame that was saved, on whichever connection, still has exactly its payload in its file.
    && SavedIntact(o.files, dir, o.received, o.saved)
    && (|dir| <= 484 ==> forall i :: 0 <= i < |o.received| && o.saved[i] ==>
          NameOf(dir, o.received[i]) in o.files && o.files[NameOf(dir, o.received[i])] == o.received[i].payload)
    && (saveFrames && AlwaysSaves(plans) ==> AllDone(o.saved))
    // If no write fails, there is one connection at most, and from the first success on every round asks for a frame;
    // if nothing disturbs the connection either, the server gets all that pop handed out.
    && (NoFailures(camera.rounds) ==>
          && |o.wires| <= 1
          && (Undisturbed(plans) ==> o.received == Views(QueueGuarantees.DeliveredFrames(o.s)))
          && forall k :: 0 <= k < |camera.rounds| && WillConnect(camera.rounds[k].connect) ==>
               |o.s.h.gets| >= |camera.rounds| - k)
    // With enough rounds that connect, no frame stays behind in the queue.
    && (AllConnect(camera.rounds) ==> |o.s.h.gets| == |camera.rounds|)
    && (EnoughRounds(camera) ==> o.s.h.taken == |o.s.h.log|)
  }

  /** What went over each connection, and how it explains the outcome. */
  ghost predicate Explains(cs: seq<Session>, plans: seq<Plan>, o: Outcome)
    requires QueueInvariant.Deliveries(o.s)
  {
    && WiresOf(o.wires, cs) && Accounts(cs, o.framesSent, BytesSent(cs))
    && AllConsumed(cs) == QueueGuarantees.DeliveredFrames(o.s)
    // Of each connection the server received exactly the frames wholly inside what arrived, up to its running flag.
    && o.received == Expected(cs, plans, |cs|)
    // Between calls of push every frame that reached the open queue is accounted for.
    && (o.s.p.PIdle? ==>
          o.s.h.attempts == o.framesSent + Losses(cs) + o.s.h.unallocated + o.s.n.dropped + o.s.m.count)
    // A connection is given up only when a frame was lost on it.
    && EndedByLoss(cs) && Losses(cs) <= |cs| <= Losses(cs) + 1
  }

  /** End to end: for every schedule of the camera's threads, all outcomes of connecting, writing and reading, every cut
      of every connection and every moment at which the server stops. The queue's slots may have any size that the
      server accepts. */
  method EndToEnd(camera: Camera, dir: string, saveFrames: bool, plans: seq<Plan>)
    returns (o: Outcome, ghost cs: seq<Session>)
    requires SlotsFit(camera) && camera.maxLen <= SERVER_MAX_PAYLOAD
    ensures Faithful(camera, dir, saveFrames, plans, o)
    ensures Explains(cs, plans, o)
  {
    hide QueueGuarantees.Reachable, QueueInvariant.Deliveries, QueueGuarantees.DeliveredFrames, AllConsumed, Framed;
    hide ParseStream, Taken, View, SavedIntact, Untouched, FramesOf, Streams, Limits, Losses, FramesSent, BytesSent;
    hide Expected, WiresOf, WillConnect, NoFailure;
    var s, wires, framesSent;
    s, wires, framesSent, cs := RunCamera(camera);
    assert |wires| == |cs| by { WiresCut(wires, cs, []); }
    var server := new Server(dir, saveFrames);
    var received, saved, endings := ServeAll(server, wires, plans);
    o := Outcome(s, wires, framesSent, received, saved, endings, server.disk.files);
    WiresCut(wires, cs, plans);
    TakenFromPushes(s, cs, Streams(wires, plans), Limits(wires, plans));
    ReceivedExactly(s, wires, cs, plans);
    TakenAccounted(cs, framesSent, BytesSent(cs));
    ConnectionsAndLosses(cs);
    if |dir| <= 484 { NoFileOverwritten(o.files, dir, received, saved, s.h.calls); }
    if s.p.PIdle? { FramesAccountedFor(s, cs, framesSent, BytesSent(cs)); }
    if NoFailures(camera.rounds) && Undisturbed(plans) { AllArrive(s, wires, cs, plans); }
  }

  /** The programs as they are: slots for frames of up to 4 MiB, any number of them, in zeroed memory. Nothing else is
      assumed. */
  method EndToEndAsBuilt(queueSize: QueueSteps.pos, schedule: seq<seq<QueueSteps.Action>>, rounds: seq<Round>,
                         dir: string, saveFrames: bool, plans: seq<Plan>)
    returns (camera: Camera, o: Outcome, ghost cs: seq<Session>)
    ensures camera.capacity == queueSize && camera.maxLen == 4_194_304 && camera.schedule == schedule
    ensures camera.rounds == rounds && camera.config == DEFAULT_BACKOFF
    ensures Faithful(camera, dir, saveFrames, plans, o)
    ensures Explains(cs, plans, o)
  {
    var stride := CalcStride(MAX_FRAME_SIZE);
    StrideIsLeastMultiple(MAX_FRAME_SIZE);
    hide CalcStride, Faithful, Explains;
    var zeros := seq(stride * queueSize, _ => 0);
    camera := Camera(queueSize, MAX_FRAME_SIZE, stride, zeros, schedule, DEFAULT_BACKOFF, rounds);
    o, cs := EndToEnd(camera, dir, saveFrames, plans);
  }
}
