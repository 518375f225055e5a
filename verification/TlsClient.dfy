/** The network client: connecting with backoff, the send loop, and what reaches the wire. */
module TlsClient {
  import opened Wrappers
  import opened Bits
  import opened ByteOrder
  import opened SlotLayout
  import opened Protocol
  import opened FrameStream
  import opened SharedQueue

  // ---- The outside world ----

  /** How one resolved address turns out. */
  datatype Attempt = NoSocket | ConnectedAtOnce | FailedAtOnce | TimedOut | FailedLate | ConnectedLate

  predicate Connects(a: Attempt) { a.ConnectedAtOnce? || a.ConnectedLate? }

  /** How one call of tlsConnect turns out: name resolution, each address in order, then the TLS steps. */
  datatype ConnectScript = ConnectScript(resolved: bool, attempts: seq<Attempt>, sslNew: bool, setHost: bool,
                                         setFd: bool, handshake: bool)

  /** All steps of tlsConnect succeed. */
  ghost predicate WillConnect(script: ConnectScript) {
    && script.resolved && (exists a :: a in script.attempts && Connects(a))
    && script.sslNew && script.setHost && script.setFd && script.handshake
  }

  /** One SSL_write call: retry, so many bytes taken, or failure after extra more bytes went out anyway. */
  datatype WriteEvent = Again | Wrote(n: nat) | Fails(extra: nat)

  /** In no round a write fails. */
  ghost predicate NoFailures(rounds: seq<Round>) { forall r :: r in rounds ==> NoFailure(r.writes) }

  /** In every round connecting would succeed. */
  ghost predicate AllConnect(rounds: seq<Round>) { forall r :: r in rounds ==> WillConnect(r.connect) }

  predicate NoFailure(writes: seq<WriteEvent>) { forall e :: e in writes ==> !e.Fails? }

  /** The operating system's view of this process: open sockets, which of them are non-blocking, live SSL objects, and
      the bytes that were sent: over the latest connection, and before its start. */
  class Host {
    var open: set<int>
    var nonBlocking: set<int>
    var sessions: set<int>
    var nextId: nat
    var wire: seq<byte>
    var earlier: seq<seq<byte>>

    constructor ()
      ensures open == {} && sessions == {} && nonBlocking == {} && Fresh() && earlier == []
    {
      open, sessions, nonBlocking, nextId, wire, earlier := {}, {}, {}, 0, [], [];
    }

    /** Identifiers handed out so far are below nextId. */
    ghost predicate Fresh()
      reads this
    {
      (forall x :: x in open ==> 0 <= x < nextId) && (forall x :: x in sessions ==> 0 <= x < nextId)
      && nonBlocking <= open
    }

    method Socket() returns (fd: int)
      requires Fresh()
      modifies this`open, this`nextId
      ensures Fresh() && fd >= 0 && fd !in old(open) && open == old(open) + {fd}
      ensures sessions == old(sessions) && nonBlocking == old(nonBlocking)
    {
      fd := nextId;
      nextId := nextId + 1;
      open := open + {fd};
    }

    method Close(fd: int)
      requires Fresh() && fd in open
      modifies this`open, this`nonBlocking
      ensures Fresh() && open == old(open) - {fd} && nonBlocking == old(nonBlocking) - {fd}
      ensures sessions == old(sessions)
    {
      open := open - {fd};
      nonBlocking := nonBlocking - {fd};
    }

    /** fcntl(F_SETFL): sets or clears the non-blocking bit. */
    method SetNonBlocking(fd: int, on: bool)
      requires Fresh() && fd in open
      modifies this`nonBlocking
      ensures Fresh() && open == old(open) && sessions == old(sessions)
      ensures nonBlocking == if on then old(nonBlocking) + {fd} else old(nonBlocking) - {fd}
    {
      nonBlocking := if on then nonBlocking + {fd} else nonBlocking - {fd};
    }

    method NewSession() returns (ssl: int)
      requires Fresh()
      modifies this`sessions, this`nextId
      ensures Fresh() && ssl >= 0 && ssl !in old(sessions) && sessions == old(sessions) + {ssl}
      ensures open == old(open) && nonBlocking == old(nonBlocking)
    {
      ssl := nextId;
      nextId := nextId + 1;
      sessions := sessions + {ssl};
    }

    method FreeSession(ssl: int)
      requires Fresh() && ssl in sessions
      modifies this`sessions
      ensures Fresh() && sessions == old(sessions) - {ssl} && open == old(open) && nonBlocking == old(nonBlocking)
    {
      sessions := sessions - {ssl};
    }
  }

  // ---- Backoff ----

  function Min(a: nat, b: nat): nat { if a < b then a else b }

  type factor = x: real | 0.0 <= x witness 0.0

  /** The reconnect settings. */
  datatype Backoff = Backoff(baseMs: nat, maxMs: nat, multiplier: factor)

  const DEFAULT_BACKOFF := Backoff(1000, 30000, 2.0)

  /** The product, with its fraction dropped. */
  function Scaled(d: nat, m: factor): nat {
    assert d as real * m >= 0.0;
    (d as real * m).Floor
  }

  /** The delay after k consecutive failures. */
  function Delay(b: Backoff, k: nat): nat {
    if k == 0 then b.baseMs else Min(Scaled(Delay(b, k - 1), b.multiplier), b.maxMs)
  }

  function SumDelays(b: Backoff, k: nat): nat {
    if k == 0 then 0 else SumDelays(b, k - 1) + Delay(b, k - 1)
  }

  function Power(m: nat, k: nat): nat { if k == 0 then 1 else m * Power(m, k - 1) }

  lemma {:induction false} WholeScaled(d: nat, m: nat)
    ensures Scaled(d, m as real) == m * d
    decreases m
  {
    assert d as real * m as real == (m * d) as real by { WholeProduct(d, m); }
  }

  lemma {:induction false} WholeProduct(d: nat, m: nat)
    ensures d as real * m as real == (m * d) as real
    decreases m
  {
    if m > 0 {
      WholeProduct(d, m - 1);
      assert d as real * m as real == d as real * (m - 1) as real + d as real;
      assert m * d == (m - 1) * d + d;
    }
  }

  /** With a whole multiplier, multiplying and capping at every step is multiplying with one cap at the end; a base
      above the cap counts only once. */
  lemma {:induction false} DelayClosedForm(b: Backoff, m: nat, k: nat)
    requires b.multiplier == m as real && m > 0
    ensures Delay(b, k) == if k == 0 then b.baseMs else Min(b.baseMs * Power(m, k), b.maxMs)
  {
    if k > 0 {
      DelayClosedForm(b, m, k - 1);
      WholeScaled(Delay(b, k - 1), m);
      assert Power(m, 0) == 1;
      PowerStep(b.baseMs, m, k);
      var x := b.baseMs * Power(m, k - 1);
      hide Power, Scaled, Min;
      CapOnce(x, m, b.maxMs);
    }
  }

  lemma PowerStep(base: nat, m: nat, k: nat)
    requires k > 0
    ensures base * Power(m, k) == m * (base * Power(m, k - 1))
  {
    var p := Power(m, k - 1);
    assert base * (m * p) == m * (base * p);
  }

  lemma CapOnce(x: nat, m: nat, max: nat)
    requires m > 0
    ensures Min(m * Min(x, max), max) == Min(m * x, max)
  {
    if x > max {
      TimesAtLeast(m, max);
      TimesAtLeast(m, x);
    }
  }

  lemma TimesAtLeast(m: nat, x: nat)
    requires m > 0
    ensures m * x >= x
  {
    assert m * x == (m - 1) * x + x;
  }

  lemma BackoffStart(b: Backoff)
    ensures Delay(b, 0) == b.baseMs && SumDelays(b, 0) == 0
  {
  }

  /** With any multiplier of at least one: after a failure the delay lies between the base, or the cap if that is less,
      and the cap, and it never decreases from one failure to the next unless the base is above the cap. */
  lemma {:induction false} DelayInRange(b: Backoff, k: nat)
    requires b.multiplier >= 1.0
    ensures k > 0 ==> Min(b.baseMs, b.maxMs) <= Delay(b, k) <= b.maxMs
    ensures b.baseMs <= b.maxMs ==> b.baseMs <= Delay(b, k) <= Delay(b, k + 1) <= b.maxMs
  {
    ScaledGrows(Delay(b, k), b.multiplier);
    if k > 0 {
      DelayInRange(b, k - 1);
      ScaledGrows(Delay(b, k - 1), b.multiplier);
    }
  }

  lemma ScaledGrows(d: nat, m: factor)
    requires m >= 1.0
    ensures Scaled(d, m) >= d
  {
    assert d as real * m >= d as real;
  }

  /** With the default settings: the total time slept over k consecutive failures, in milliseconds. */
  lemma {:induction false} DefaultTotalSleep(k: nat)
    ensures SumDelays(DEFAULT_BACKOFF, k) == if k <= 5 then 1000 * (Pow2(k) - 1) else 31000 + 30000 * (k - 5)
  {
    assert Pow2(5) == 32;
    if k > 0 {
      DefaultTotalSleep(k - 1);
      DelayClosedForm(DEFAULT_BACKOFF, 2, k - 1);
      PowersOfTwo(k - 1);
      if k > 5 { PowGrows(5, k - 1); }
    }
  }

  lemma {:induction false} PowersOfTwo(k: nat)
    ensures Power(2, k) == Pow2(k)
  {
    if k > 0 { PowersOfTwo(k - 1); }
  }

  lemma {:induction false} PowGrows(a: nat, b: nat)
    requires a <= b
    ensures Pow2(a) <= Pow2(b)
    decreases b
  {
    if a < b { PowGrows(a, b - 1); }
  }

  // ---- What one connection carried ----

  /** sent: frames fully written; lost: the frame whose write failed, after which the connection is dropped. */
  datatype Session = Session(sent: seq<Frame>, lost: Option<Frame>, wire: seq<byte>)

  /** Whole encoded frames, then a prefix of at most one more. */
  predicate Framed(c: Session) {
    match c.lost
    case None => c.wire == EncodeAll(c.sent)
    case Some(f) => EncodeAll(c.sent) <= c.wire && c.wire[|EncodeAll(c.sent)|..] <= EncodeFrame(f)
  }

  function Consumed(c: Session): seq<Frame> {
    match c.lost
    case None => c.sent
    case Some(f) => c.sent + [f]
  }

  function AllConsumed(cs: seq<Session>): seq<Frame> {
    if cs == [] then [] else AllConsumed(cs[..|cs| - 1]) + Consumed(cs[|cs| - 1])
  }

  function FramesSent(cs: seq<Session>): nat {
    if cs == [] then 0 else FramesSent(cs[..|cs| - 1]) + |cs[|cs| - 1].sent|
  }

  function BytesOf(fs: seq<Frame>): nat {
    if fs == [] then 0 else BytesOf(fs[..|fs| - 1]) + FRAME_HEADER_SIZE + |fs[|fs| - 1].payload|
  }

  function BytesSent(cs: seq<Session>): nat {
    if cs == [] then 0 else BytesSent(cs[..|cs| - 1]) + BytesOf(cs[|cs| - 1].sent)
  }

  function Losses(cs: seq<Session>): nat {
    if cs == [] then 0 else Losses(cs[..|cs| - 1]) + if cs[|cs| - 1].lost.Some? then 1 else 0
  }

  /** Every connection is framed, and these are the frames and bytes fully sent over them. */
  ghost predicate Accounts(cs: seq<Session>, frames: nat, bytes: nat) {
    (forall c :: c in cs ==> Framed(c)) && frames == FramesSent(cs) && bytes == BytesSent(cs)
  }

  lemma WithLast(front: seq<Session>, c: Session)
    ensures AllConsumed(front + [c]) == AllConsumed(front) + Consumed(c)
    ensures FramesSent(front + [c]) == FramesSent(front) + |c.sent|
    ensures BytesSent(front + [c]) == BytesSent(front) + BytesOf(c.sent)
    ensures Losses(front + [c]) == Losses(front) + if c.lost.Some? then 1 else 0
    ensures (forall d :: d in front + [c] ==> Framed(d)) <==> Framed(c) && forall d :: d in front ==> Framed(d)
  {
    var cs := front + [c];
    assert cs[..|cs| - 1] == front;
    assert c in cs && forall d :: d in front ==> d in cs;
  }

  lemma PrefixOfFirst(before: seq<byte>, wire: seq<byte>, a: seq<byte>, b: seq<byte>)
    requires exists k: nat :: k <= |a| && wire == before + a[..k]
    ensures before <= wire && wire[|before|..] <= a + b
  {
  }

  lemma SecondAfterFirst(before: seq<byte>, wire: seq<byte>, a: seq<byte>, b: seq<byte>, whole: bool)
    requires if whole then wire == before + a + b else exists k: nat :: k <= |b| && wire == before + a + b[..k]
    ensures whole ==> wire == before + (a + b)
    ensures before <= wire && wire[|before|..] <= a + b
  {
  }

  lemma AfterConnect(cs: seq<Session>, frames: nat, bytes: nat)
    requires Accounts(cs, frames, bytes)
    ensures var cs' := cs + [Session([], None, [])];
      Accounts(cs', frames, bytes) && AllConsumed(cs') == AllConsumed(cs) && Losses(cs') == Losses(cs)
  {
    WithLast(cs, Session([], None, []));
  }

  lemma AfterSend(front: seq<Session>, c: Session, frames: nat, bytes: nat, f: Frame)
    requires Accounts(front + [c], frames, bytes) && c.lost.None?
    ensures var c' := Session(c.sent + [f], None, c.wire + EncodeFrame(f));
      && Accounts(front + [c'], frames + 1, bytes + FRAME_HEADER_SIZE + |f.payload|)
      && AllConsumed(front + [c']) == AllConsumed(front + [c]) + [f]
      && Losses(front + [c']) == Losses(front + [c])
  {
    var c' := Session(c.sent + [f], None, c.wire + EncodeFrame(f));
    WithLast(front, c);
    WithLast(front, c');
    EncodeAllSnoc(c.sent, f);
    Associative(AllConsumed(front), c.sent, [f]);
    assert c'.sent[..|c'.sent| - 1] == c.sent;
    hide EncodeFrame, EncodeAll, AllConsumed, FramesSent, BytesSent, Losses;
  }

  lemma AfterLoss(front: seq<Session>, c: Session, frames: nat, bytes: nat, f: Frame, wire: seq<byte>)
    requires Accounts(front + [c], frames, bytes) && c.lost.None?
    requires c.wire <= wire && wire[|c.wire|..] <= EncodeFrame(f)
    ensures var c' := Session(c.sent, Some(f), wire);
      && Accounts(front + [c'], frames, bytes)
      && AllConsumed(front + [c']) == AllConsumed(front + [c]) + [f]
      && Losses(front + [c']) == Losses(front + [c]) + 1
  {
    var c' := Session(c.sent, Some(f), wire);
    WithLast(front, c);
    WithLast(front, c');
    Associative(AllConsumed(front), c.sent, [f]);
    hide EncodeFrame, EncodeAll, AllConsumed, FramesSent, BytesSent, Losses;
  }

  /** Every frame taken was sent or lost; a connection loses at most one. */
  lemma {:induction false} TakenIsSentOrLost(cs: seq<Session>)
    ensures |AllConsumed(cs)| == FramesSent(cs) + Losses(cs) && Losses(cs) <= |cs|
  {
    if cs != [] { TakenIsSentOrLost(cs[..|cs| - 1]); }
  }

  /** Every connection but the last one ended with a lost frame. */
  ghost predicate EndedByLoss(cs: seq<Session>) {
    forall i :: 0 <= i < |cs| - 1 ==> cs[i].lost.Some?
  }

  lemma OnlyLastChanged(cs: seq<Session>, cs': seq<Session>)
    requires EndedByLoss(cs) && |cs'| == |cs| > 0 && cs'[..|cs| - 1] == cs[..|cs| - 1]
    ensures EndedByLoss(cs')
  {
    forall i | 0 <= i < |cs| - 1 ensures cs'[i].lost.Some? {
      assert cs'[i] == cs'[..|cs| - 1][i] == cs[..|cs| - 1][i];
    }
  }

  lemma {:induction false} EachEndedByLoss(cs: seq<Session>)
    requires forall c :: c in cs ==> c.lost.Some?
    ensures Losses(cs) == |cs|
  {
    if cs != [] { EachEndedByLoss(cs[..|cs| - 1]); }
  }

  /** So there is at most one connection more than there are losses. */
  lemma ConnectionsAndLosses(cs: seq<Session>)
    requires EndedByLoss(cs)
    ensures |cs| <= Losses(cs) + 1
  {
    if cs != [] { EachEndedByLoss(cs[..|cs| - 1]); }
  }

  lemma TakenAccounted(cs: seq<Session>, frames: nat, bytes: nat)
    requires Accounts(cs, frames, bytes)
    ensures |AllConsumed(cs)| == frames + Losses(cs) && Losses(cs) <= |cs|
  {
    TakenIsSentOrLost(cs);
  }

  lemma {:induction false} EncodeAllSnoc(fs: seq<Frame>, f: Frame)
    ensures EncodeAll(fs + [f]) == EncodeAll(fs) + EncodeFrame(f)
  {
    hide EncodeFrame;
    if fs == [] {
      assert (fs + [f])[1..] == [];
    } else {
      EncodeAllSnoc(fs[1..], f);
      assert (fs + [f])[1..] == fs[1..] + [f];
      Associative(EncodeFrame(fs[0]), EncodeAll(fs[1..]), EncodeFrame(f));
    }
  }

  // ---- The client ----

  datatype TlsState = Disconnected | Connecting | Connected

  /** What the world does during one round of the network loop. */
  datatype Round = Round(connect: ConnectScript, writes: seq<WriteEvent>)

  /** After i rounds that all connect: at least one of the other threads' schedule entries was used up in each, and once
      none was left, one frame was taken from the queue in each. */
  predicate Drains(entries: nat, i: nat, remaining: nat, settled: bool, left: int, capacity: nat) {
    if i <= entries then remaining <= entries - i
    else
      && remaining == 0 && settled
      && 0 <= left <= if capacity > i - entries - 1 then capacity - (i - entries - 1) else 0
  }

  lemma DrainsNext(entries: nat, i: nat, remaining: nat, settled: bool, left: int, capacity: nat,
                   remaining': nat, settled': bool, left': int)
    requires Drains(entries, i, remaining, settled, left, capacity) && (settled ==> remaining == 0)
    requires remaining' <= remaining && (remaining > 0 ==> remaining' < remaining)
    requires remaining == 0 ==> settled' && 0 <= left' <= capacity
    requires settled ==> left' == if left > 0 then left - 1 else left
    ensures Drains(entries, i + 1, remaining', settled', left', capacity)
  {
  }

  /** Since the first round k that would connect, if no write fails, the client is connected and asks in every round. */
  ghost predicate Asking(rounds: seq<Round>, i: nat, connected: bool, asked: int)
    requires i <= |rounds|
  {
    asked >= 0 && forall k :: 0 <= k < i && WillConnect(rounds[k].connect) ==> connected && asked >= i - k
  }

  lemma AskingNext(rounds: seq<Round>, i: nat, connected: bool, asked: int, connected': bool, asked': int)
    requires i < |rounds| && Asking(rounds, i, connected, asked)
    requires var asks := connected || WillConnect(rounds[i].connect);
      (asks ==> connected') && asked' == asked + if asks then 1 else 0
    ensures Asking(rounds, i + 1, connected', asked')
  {
    hide WillConnect;
  }

  class Client {
    const config: Backoff
    const host: Host
    var state: TlsState
    var ssl: int
    var sockfd: int
    var reconnectDelayMs: nat
    var framesSent: nat
    var bytesSent: nat
    ghost var log: seq<Session>
    ghost var failures: nat
    ghost var slept: nat

    /** Handles match what is really open, so nothing leaks; a session's socket blocks again. */
    ghost predicate HandlesMatch()
      reads this, host
    {
      && host.Fresh() && host.nonBlocking == {}
      && host.open == (if sockfd >= 0 then {sockfd} else {})
      && host.sessions == (if ssl >= 0 then {ssl} else {})
      && (state == Connected <==> ssl >= 0) && (state == Connected <==> sockfd >= 0)
    }

    /** The delay and the time slept since the last success are those of the failures since then. */
    ghost predicate BackoffMatches()
      reads this
    {
      reconnectDelayMs == Delay(config, failures) && slept == SumDelays(config, failures)
    }

    /** Every connection's wire is framed, only a dropped connection lost a frame, and the counters count. */
    ghost predicate LogMatches()
      reads this, host
    {
      && Accounts(log, framesSent, bytesSent) && WiresMatch()
      && (state == Connected ==> log != [] && log[|log| - 1].lost.None?)
    }

    ghost predicate EarlierMatch()
      reads this, host
    {
      |log| == |host.earlier| && forall i :: 0 <= i < |log| - 1 ==> host.earlier[i + 1] == log[i].wire
    }

    /** The log says what went over each connection. */
    ghost predicate WiresMatch()
      reads this, host
    {
      EarlierMatch() && (log != [] ==> host.wire == log[|log| - 1].wire)
    }

    /** A connection was given up only because a frame was lost on it. */
    ghost predicate KeepsConnections()
      reads this
    {
      EndedByLoss(log) && (log != [] && state != Connected ==> log[|log| - 1].lost.Some?)
    }

    /** The bytes sent over each connection so far. */
    method Wires() returns (wires: seq<seq<byte>>)
      requires Valid()
      ensures |wires| == |log| && forall i :: 0 <= i < |log| ==> wires[i] == log[i].wire
    {
      hide Accounts, Delay, SumDelays;
      wires := (host.earlier + [host.wire])[1..];
    }

    ghost predicate Valid()
      reads this, host
    {
      HandlesMatch() && BackoffMatches() && LogMatches()
    }

    constructor (config: Backoff)
      ensures Valid() && fresh(host) && state == Disconnected && log == [] && failures == 0
      ensures this.config == config
    {
      this.config := config;
      host := new Host();
      state, ssl, sockfd, reconnectDelayMs := Disconnected, -1, -1, config.baseMs;
      framesSent, bytesSent := 0, 0;
      log, failures, slept := [], 0, 0;
    }

    /** Tries the resolved addresses in order; whatever happens, at most the returned socket stays open, and it has its
        original blocking mode back. */
    method CreateTcpConnection(script: ConnectScript) returns (fd: int)
      requires host.Fresh() && host.nonBlocking == {}
      modifies host`open, host`nextId, host`nonBlocking
      ensures host.Fresh() && host.nonBlocking == {}
      ensures fd >= 0 ==> fd !in old(host.open) && host.open == old(host.open) + {fd}
      ensures fd < 0 ==> fd == -1 && host.open == old(host.open)
      ensures fd >= 0 <==> script.resolved && exists a :: a in script.attempts && Connects(a)
    {
      fd := -1;
      if !script.resolved { return; }
      var i := 0;
      while i < |script.attempts|
        invariant 0 <= i <= |script.attempts|
        invariant host.Fresh() && host.nonBlocking == {}
        invariant fd == -1 && host.open == old(host.open)
        invariant forall a :: a in script.attempts[..i] ==> !Connects(a)
      {
        var a := script.attempts[i];
        i := i + 1;
        assert a in script.attempts;
        if a.NoSocket? { continue; }
        fd := host.Socket();
        var saved := fd in host.nonBlocking;
        host.SetNonBlocking(fd, true);
        if a.ConnectedAtOnce? {
          host.SetNonBlocking(fd, saved);
          break;
        }
        if a.FailedAtOnce? || a.TimedOut? || a.FailedLate? {
          host.Close(fd);
          fd := -1;
          continue;
        }
        host.SetNonBlocking(fd, saved);
        break;
      }
    }

    /** Connects, or leaves no handle behind. */
    method TlsConnect(script: ConnectScript) returns (ok: bool)
      requires Valid() && state != Connected
      modifies this, host
      ensures Valid() && (ok <==> state == Connected) && (ok <==> WillConnect(script))
      ensures ok ==> log == old(log) + [Session([], None, [])] && failures == 0
      ensures AllConsumed(log) == AllConsumed(old(log)) && Losses(log) == Losses(old(log))
      ensures !ok ==> log == old(log) && failures == old(failures) && slept == old(slept) && state == old(state)
    {
      hide Accounts, Delay, SumDelays, AllConsumed, Losses;
      sockfd := CreateTcpConnection(script);
      if sockfd < 0 { return false; }
      ok := StartTls(script);
      if ok {
        EnterConnected();
      } else {
        host.Close(sockfd);
        sockfd := -1;
      }
    }

    /** The TLS steps on a connected socket; a session object that fails one of them is freed. */
    method StartTls(script: ConnectScript) returns (ok: bool)
      requires host.Fresh() && ssl < 0 && host.sessions == {}
      modifies this`ssl, host`sessions, host`nextId
      ensures host.Fresh() && (ok <==> ssl >= 0) && host.sessions == if ssl >= 0 then {ssl} else {}
      ensures ok <==> script.sslNew && script.setHost && script.setFd && script.handshake
    {
      ok := false;
      if script.sslNew {
        ssl := host.NewSession();
        if script.setHost && script.setFd && script.handshake { return true; }
        host.FreeSession(ssl);
        ssl := -1;
      }
    }

    /** What tlsConnect does last: nothing is on the new connection's wire yet, and the backoff starts over. */
    method EnterConnected()
      requires Accounts(log, framesSent, bytesSent) && WiresMatch() && state != Connected
      requires host.Fresh() && host.nonBlocking == {} && sockfd >= 0 && ssl >= 0
      requires host.open == {sockfd} && host.sessions == {ssl}
      modifies this`log, this`failures, this`slept, this`state, this`reconnectDelayMs, host`wire, host`earlier
      ensures Valid() && state == Connected && log == old(log) + [Session([], None, [])] && failures == 0
      ensures AllConsumed(log) == AllConsumed(old(log)) && Losses(log) == Losses(old(log))
    {
      hide Accounts, Delay, SumDelays, AllConsumed, Losses;
      host.earlier, host.wire := host.earlier + [host.wire], [];
      AfterConnect(log, framesSent, bytesSent);
      log := log + [Session([], None, [])];
      failures, slept := 0, 0;
      BackoffStart(config);
      state := Connected;
      reconnectDelayMs := config.baseMs;
    }

    /** SSL_write takes n bytes of the buffer from position at on, reading each when it gets there. */
    method PutBytes(queue: LiveQueue, data: Buffer, at: nat, n: nat, ghost bytes: seq<byte>)
      requires queue.Valid() && queue.Holds(data, bytes) && at + n <= |bytes|
      modifies host`wire, queue
      ensures queue.Meanwhile() && queue.Holds(data, bytes)
      ensures host.wire == old(host.wire) + bytes[at..at + n]
    {
      hide LiveQueue.Valid, LiveQueue.Idle, LiveQueue.Holding, LiveQueue.Shown, LiveQueue.Delivered, LiveQueue.Holds;
      for i := at to at + n
        invariant queue.Valid() && queue.Meanwhile() && queue.Holds(data, bytes)
        invariant host.wire == old(host.wire) + bytes[at..i]
      {
        var b := queue.Load(data, i, bytes);
        host.wire := host.wire + [b];
        assert bytes[at..i + 1] == bytes[at..i] + [bytes[i]];
      }
    }

    /** sslWriteAll: on success all of the buffer's bytes went out; on failure some prefix of them did. */
    method SslWriteAll(queue: LiveQueue, data: Buffer, len: nat, writes: seq<WriteEvent>, ghost bytes: seq<byte>)
      returns (ok: bool, rest: seq<WriteEvent>)
      requires queue.Valid() && queue.Holds(data, bytes) && len == |bytes|
      modifies host`wire, queue
      ensures queue.Meanwhile() && queue.Holds(data, bytes)
      ensures ok ==> host.wire == old(host.wire) + bytes
      ensures !ok ==> exists k: nat :: k <= |bytes| && host.wire == old(host.wire) + bytes[..k]
      ensures NoFailure(writes) ==> ok && NoFailure(rest)
    {
      hide LiveQueue.Valid, LiveQueue.Idle, LiveQueue.Holding, LiveQueue.Shown, LiveQueue.Delivered, LiveQueue.Holds;
      var at, remaining := 0, len;
      rest := writes;
      while remaining > 0
        invariant 0 <= at <= len && at + remaining == len
        invariant queue.Valid() && queue.Meanwhile() && queue.Holds(data, bytes)
        invariant host.wire == old(host.wire) + bytes[..at]
        invariant NoFailure(writes) ==> NoFailure(rest)
        decreases remaining, |rest|
      {
        var written := remaining;
        if rest != [] {
          var e := rest[0];
          rest := rest[1..];
          if e.Again? { continue; }
          if e.Fails? {
            var extra := Min(e.extra, remaining);
            PutBytes(queue, data, at, extra, bytes);
            assert bytes[..at + extra] == bytes[..at] + bytes[at..at + extra];
            return false, rest;
          }
          written := if e.n == 0 then 1 else Min(e.n, remaining);
        }
        PutBytes(queue, data, at, written, bytes);
        assert bytes[..at + written] == bytes[..at] + bytes[at..at + written];
        at := at + written;
        remaining := remaining - written;
      }
      assert bytes[..at] == bytes;
      ok := true;
    }

    /** The header for a packet, from the metadata in it. */
    method HeaderFor(queue: LiveQueue, pkt: nat) returns (header: seq<byte>, len: nat)
      requires queue.Holding(pkt)
      ensures |header| == FRAME_HEADER_SIZE && len == |queue.Shown(pkt).payload|
      ensures EncodeFrame(queue.Shown(pkt)) == header + queue.Shown(pkt).payload
    {
      var meta := queue.MetaOfPacket(pkt);
      var hdr := new FrameHeader();
      hdr.Init(meta.seqNo, meta.timestamp, meta.len, meta.pixelFormat, meta.width, meta.height);
      header := hdr.Memory();
      len := meta.len;
    }

    method SendHeader(queue: LiveQueue, pkt: nat, writes: seq<WriteEvent>)
      returns (ok: bool, rest: seq<WriteEvent>, len: nat, ghost header: seq<byte>)
      requires queue.Holding(pkt)
      modifies host`wire, queue
      ensures queue.Meanwhile() && len == |old(queue.Shown(pkt)).payload|
      ensures EncodeFrame(old(queue.Shown(pkt))) == header + old(queue.Shown(pkt)).payload
      ensures ok ==> host.wire == old(host.wire) + header
      ensures !ok ==>
        old(host.wire) <= host.wire && host.wire[|old(host.wire)|..] <= EncodeFrame(old(queue.Shown(pkt)))
      ensures NoFailure(writes) ==> ok && NoFailure(rest)
    {
      ghost var before, payload := host.wire, queue.Shown(pkt).payload;
      var bytes;
      bytes, len := HeaderFor(queue, pkt);
      header := bytes;
      assert queue.Valid();
      hide EncodeFrame, NoFailure, LiveQueue.Valid, LiveQueue.Idle, LiveQueue.Holding, LiveQueue.Shown;
      hide LiveQueue.Delivered;
      ok, rest := SslWriteAll(queue, Local(bytes), FRAME_HEADER_SIZE, writes, bytes);
      if !ok { PrefixOfFirst(before, host.wire, bytes, payload); }
    }

    /** Header, then the payload out of the packet's slot: the whole encoding of the frame that was given to push, or a
        prefix of it. */
    method SendFrame(queue: LiveQueue, pkt: nat, writes: seq<WriteEvent>) returns (ok: bool, len: nat)
      requires queue.Holding(pkt)
      modifies host`wire, queue
      ensures queue.Meanwhile() && len == |old(queue.Shown(pkt)).payload|
      ensures ok ==> host.wire == old(host.wire) + EncodeFrame(old(queue.Shown(pkt)))
      ensures !ok ==>
        old(host.wire) <= host.wire && host.wire[|old(host.wire)|..] <= EncodeFrame(old(queue.Shown(pkt)))
      ensures NoFailure(writes) ==> ok
    {
      ghost var before, payload := host.wire, queue.Shown(pkt).payload;
      hide EncodeFrame, NoFailure, LiveQueue.Valid, LiveQueue.Idle, LiveQueue.Holding, LiveQueue.Shown;
      hide LiveQueue.Delivered;
      var rest;
      ghost var header;
      ok, rest, len, header := SendHeader(queue, pkt, writes);
      if !ok { return; }
      ok, rest := SslWriteAll(queue, Payload(pkt), len, rest, payload);
      SecondAfterFirst(before, host.wire, header, payload, ok);
    }

    /** The frame is on the wire. */
    method CountSent(ghost f: Frame, len: nat)
      requires HandlesMatch() && BackoffMatches() && Accounts(log, framesSent, bytesSent) && state == Connected
      requires log != [] && log[|log| - 1].lost.None? && len == |f.payload| && EarlierMatch()
      requires host.wire == log[|log| - 1].wire + EncodeFrame(f)
      modifies this`log, this`framesSent, this`bytesSent
      ensures Valid() && |log| == |old(log)|
      ensures log[..|log| - 1] == old(log)[..|log| - 1] && log[|log| - 1].lost.None?
      ensures AllConsumed(log) == AllConsumed(old(log)) + [f] && Losses(log) == Losses(old(log))
    {
      hide Accounts, Delay, SumDelays, AllConsumed, EncodeFrame, Losses;
      ghost var last, front := log[|log| - 1], log[..|log| - 1];
      assert log == front + [last];
      AfterSend(front, last, framesSent, bytesSent, f);
      framesSent := framesSent + 1;
      bytesSent := bytesSent + FRAME_HEADER_SIZE + len;
      log := front + [Session(last.sent + [f], None, last.wire + EncodeFrame(f))];
    }

    /** The frame is lost, and with it the connection. */
    ghost method NoteLost(f: Frame)
      requires Accounts(log, framesSent, bytesSent) && EarlierMatch() && log != [] && log[|log| - 1].lost.None?
      requires log[|log| - 1].wire <= host.wire && host.wire[|log[|log| - 1].wire|..] <= EncodeFrame(f)
      modifies this`log
      ensures Accounts(log, framesSent, bytesSent) && WiresMatch() && |log| == |old(log)|
      ensures log[..|log| - 1] == old(log)[..|log| - 1] && log[|log| - 1].lost.Some?
      ensures AllConsumed(log) == AllConsumed(old(log)) + [f] && Losses(log) == Losses(old(log)) + 1
    {
      hide Accounts, AllConsumed, EncodeFrame, Losses;
      var last, front := log[|log| - 1], log[..|log| - 1];
      assert log == front + [last];
      AfterLoss(front, last, framesSent, bytesSent, f, host.wire);
      log := front + [Session(last.sent, Some(f), host.wire)];
    }

    /** Sends a packet's frame, enters its fate and frees the packet; a failed connection is dropped after that. */
    method SendNext(queue: LiveQueue, pkt: nat, writes: seq<WriteEvent>) returns (ok: bool)
      requires Valid() && state == Connected && queue.Holding(pkt)
      modifies this`log, this`framesSent, this`bytesSent, this`ssl, this`sockfd, this`state, host, queue
      ensures Valid() && (ok <==> state == Connected)
      ensures queue.Idle() && queue.Delivered() == old(queue.Delivered()) && queue.s.h.gets == old(queue.s.h.gets)
      ensures |queue.schedule| <= |old(queue.schedule)|
      ensures old(queue.schedule) == [] ==>
        queue.s.h == old(queue.s.h) && queue.s.m.owner == old(queue.s.m.owner)
      ensures |log| == |old(log)| && (old(KeepsConnections()) ==> KeepsConnections())
      ensures AllConsumed(log) == AllConsumed(old(log)) + [old(queue.Shown(pkt))]
      ensures Losses(log) == Losses(old(log)) + if ok then 0 else 1
      ensures NoFailure(writes) ==> ok
    {
      hide Accounts, Delay, SumDelays, AllConsumed, EncodeFrame, Losses;
      hide LiveQueue.Valid, LiveQueue.Idle, LiveQueue.Holding, LiveQueue.Shown, LiveQueue.Delivered;
      ghost var f := queue.Shown(pkt);
      var len;
      ok, len := SendFrame(queue, pkt, writes);
      if ok {
        CountSent(f, len);
        queue.Free(pkt);
      } else {
        NoteLost(f);
        queue.Free(pkt);
        TlsDisconnect();
      }
      if old(KeepsConnections()) { OnlyLastChanged(old(log), log); }
    }

    /** Releases whatever is live, after a failed write and when the loop ends. */
    method TlsDisconnect()
      requires HandlesMatch() && BackoffMatches() && Accounts(log, framesSent, bytesSent) && WiresMatch()
      modifies this`ssl, this`sockfd, this`state, host`open, host`sessions, host`nonBlocking
      ensures Valid() && state == Disconnected && host.open == {} && host.sessions == {}
    {
      hide Accounts, Delay, SumDelays;
      if ssl >= 0 {
        host.FreeSession(ssl);
        ssl := -1;
      }
      if sockfd >= 0 {
        host.Close(sockfd);
        sockfd := -1;
      }
      state := Disconnected;
    }

    /** One failed attempt: sleep, then multiply the delay, up to the cap. */
    method BackOff()
      requires Valid() && state != Connected
      modifies this`reconnectDelayMs, this`failures, this`slept
      ensures Valid() && failures == old(failures) + 1 && slept == old(slept) + old(reconnectDelayMs)
    {
      hide Accounts;
      slept := slept + reconnectDelayMs;
      reconnectDelayMs := Scaled(reconnectDelayMs, config.multiplier);
      if reconnectDelayMs > config.maxMs {
        reconnectDelayMs := config.maxMs;
      }
      failures := failures + 1;
    }

    /** One attempt to connect, and one more failure if it does not succeed. */
    method TryConnect(script: ConnectScript) returns (ok: bool)
      requires Valid() && state != Connected
      modifies this, host
      ensures Valid() && (ok <==> state == Connected) && (ok <==> WillConnect(script))
      ensures AllConsumed(log) == AllConsumed(old(log)) && Losses(log) == Losses(old(log))
      ensures failures == if ok then 0 else old(failures) + 1
      ensures log == if ok then old(log) + [Session([], None, [])] else old(log)
      ensures old(KeepsConnections()) ==> KeepsConnections()
    {
      hide Accounts, Delay, SumDelays, AllConsumed, Losses;
      state := Connecting;
      ok := TlsConnect(script);
      if !ok { BackOff(); }
    }

    /** networkLoop, until the running flag is found cleared: every frame pop handed out is accounted for on some
        connection, no handle survives, no packet is kept while the next one is asked for, and a connection is given up
        only when a frame was lost on it. While connected, every round asks the queue for a frame. If every attempt to
        connect succeeds and there are enough rounds after the other threads have stopped, the queue is empty. */
    method NetworkLoop(queue: LiveQueue, rounds: seq<Round>)
      requires Valid() && queue.Idle() && queue.Delivered() == AllConsumed(log)
      modifies this, host, queue
      ensures Valid() && state == Disconnected && host.open == {} && host.sessions == {}
      ensures queue.Idle() && queue.Delivered() == AllConsumed(log)
      ensures |queue.Delivered()| == framesSent + Losses(log) && Losses(log) <= |log|
      ensures old(KeepsConnections()) ==> EndedByLoss(log)
      ensures NoFailures(rounds) ==> Losses(log) == Losses(old(log))
      ensures forall k :: 0 <= k < |rounds| && WillConnect(rounds[k].connect) && NoFailures(rounds) ==>
        |queue.s.h.gets| >= |old(queue.s.h.gets)| + |rounds| - k
      ensures AllConnect(rounds) ==>
        |queue.s.h.gets| == |old(queue.s.h.gets)| + |rounds|
      ensures AllConnect(rounds) && |rounds| > |old(queue.schedule)| + queue.capacity ==> queue.Left() == 0
    {
      hide Accounts, Delay, SumDelays, AllConsumed, Losses;
      Rounds(queue, rounds);
      TakenAccounted(log, framesSent, bytesSent);
      TlsDisconnect();
    }

    /** After i rounds: how often the queue was asked, and how far it is drained. */
    ghost predicate Progress(queue: LiveQueue, rounds: seq<Round>, i: nat, asked0: nat, entries: nat)
      requires i <= |rounds|
      reads this`state, queue
    {
      && (NoFailures(rounds) ==> Asking(rounds, i, state == Connected, |queue.s.h.gets| - asked0))
      && (AllConnect(rounds) ==>
            && |queue.s.h.gets| == asked0 + i
            && Drains(entries, i, |queue.schedule|, queue.Settled(), queue.Left(), queue.capacity))
    }

    /** The loop itself. */
    method Rounds(queue: LiveQueue, rounds: seq<Round>)
      requires Valid() && queue.Idle() && queue.Delivered() == AllConsumed(log)
      modifies this, host, queue
      ensures Valid() && queue.Idle() && queue.Delivered() == AllConsumed(log)
      ensures old(KeepsConnections()) ==> KeepsConnections()
      ensures NoFailures(rounds) ==> Losses(log) == Losses(old(log))
      ensures Progress(queue, rounds, |rounds|, |old(queue.s.h.gets)|, |old(queue.schedule)|)
    {
      assert Progress(queue, rounds, 0, |queue.s.h.gets|, |queue.schedule|) by { queue.LeftFits(); }
      hide Accounts, Delay, SumDelays, AllConsumed, Losses, Valid, KeepsConnections, Progress, NoFailures, EndedByLoss;
      hide LiveQueue.Valid, LiveQueue.Delivered;
      for i := 0 to |rounds|
        invariant Valid() && queue.Idle() && queue.Delivered() == AllConsumed(log)
        invariant old(KeepsConnections()) ==> KeepsConnections()
        invariant NoFailures(rounds) ==> Losses(log) == Losses(old(log))
        invariant Progress(queue, rounds, i, |old(queue.s.h.gets)|, |old(queue.schedule)|)
      {
        NextRound(queue, rounds, i, |old(queue.s.h.gets)|, |old(queue.schedule)|);
      }
    }

    method NextRound(queue: LiveQueue, rounds: seq<Round>, i: nat, ghost asked0: nat, ghost entries: nat)
      requires Valid() && queue.Idle() && queue.Delivered() == AllConsumed(log)
      requires i < |rounds| && Progress(queue, rounds, i, asked0, entries)
      modifies this, host, queue
      ensures Valid() && queue.Idle() && queue.Delivered() == AllConsumed(log)
      ensures old(KeepsConnections()) ==> KeepsConnections()
      ensures NoFailures(rounds) ==> Losses(log) == Losses(old(log))
      ensures Progress(queue, rounds, i + 1, asked0, entries)
    {
      hide Accounts, Delay, SumDelays, AllConsumed, Losses, Valid, WillConnect, KeepsConnections, EndedByLoss;
      hide LiveQueue.Valid, LiveQueue.Delivered, NoFailure, Asking, Drains;
      assert rounds[i] in rounds;
      assert AllConnect(rounds) ==> WillConnect(rounds[i].connect);
      assert NoFailures(rounds) ==> NoFailure(rounds[i].writes);
      hide AllConnect, NoFailures;
      ghost var was, asked := state == Connected, |queue.s.h.gets| - asked0;
      ghost var remaining, settled, left := |queue.schedule|, queue.Settled(), queue.Left();
      OneRound(queue, rounds[i]);
      if NoFailures(rounds) { AskingNext(rounds, i, was, asked, state == Connected, |queue.s.h.gets| - asked0); }
      if AllConnect(rounds) {
        DrainsNext(entries, i, remaining, settled, left, queue.capacity,
                   |queue.schedule|, queue.Settled(), queue.Left());
      }
    }

    /** One round of the loop: connect if need be, take a packet, send its frame, free the packet. A client that is
        still connected does not connect again. */
    method OneRound(queue: LiveQueue, round: Round)
      requires Valid() && queue.Idle() && queue.Delivered() == AllConsumed(log)
      modifies this, host, queue
      ensures Valid() && queue.Idle() && queue.Delivered() == AllConsumed(log)
      ensures old(KeepsConnections()) ==> KeepsConnections()
      ensures NoFailure(round.writes) ==> Losses(log) == Losses(old(log))
      ensures var asks := old(state) == Connected || WillConnect(round.connect);
        && (NoFailure(round.writes) && asks ==> state == Connected)
        && |queue.s.h.gets| == |old(queue.s.h.gets)| + (if asks then 1 else 0)
        && |queue.schedule| <= |old(queue.schedule)|
        && (asks && old(queue.schedule) != [] ==> |queue.schedule| < |old(queue.schedule)|)
        && (asks && old(queue.schedule) == [] ==> queue.Settled() && 0 <= queue.Left() <= queue.capacity)
        && (asks && old(queue.Settled()) ==>
              queue.Left() == if old(queue.Left()) > 0 then old(queue.Left()) - 1 else old(queue.Left()))
    {
      hide Accounts, Delay, SumDelays, AllConsumed, Losses, Valid, WillConnect, KeepsConnections, NoFailure;
      hide LiveQueue.Valid, LiveQueue.Delivered;
      if state != Connected {
        var connected := TryConnect(round.connect);
        if !connected { return; }
      }
      TakeAndSend(queue, round.writes);
    }

    /** What a connected client does in one round. */
    method TakeAndSend(queue: LiveQueue, writes: seq<WriteEvent>)
      requires Valid() && state == Connected && queue.Idle() && queue.Delivered() == AllConsumed(log)
      modifies this, host, queue
      ensures Valid() && queue.Idle() && queue.Delivered() == AllConsumed(log)
      ensures old(KeepsConnections()) ==> KeepsConnections()
      ensures NoFailure(writes) ==> state == Connected && Losses(log) == Losses(old(log))
      ensures |queue.s.h.gets| == |old(queue.s.h.gets)| + 1
      ensures |queue.schedule| < |old(queue.schedule)| || queue.schedule == old(queue.schedule) == []
      ensures old(queue.schedule) == [] ==> queue.Settled() && 0 <= queue.Left() <= queue.capacity
      ensures old(queue.Settled()) ==>
        queue.Left() == if old(queue.Left()) > 0 then old(queue.Left()) - 1 else old(queue.Left())
    {
      hide Accounts, Delay, SumDelays, AllConsumed, Losses, Valid, KeepsConnections, NoFailure;
      assert old(KeepsConnections()) ==> KeepsConnections();
      var pkt := queue.Pop();
      if pkt.None? { return; }
      assert queue.Valid();
      hide LiveQueue.Valid, LiveQueue.Idle, LiveQueue.Holding, LiveQueue.Shown, LiveQueue.Delivered;
      var ok := SendNext(queue, pkt.value, writes);
    }
  }
}
