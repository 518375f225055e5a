/** The byte stream of one connection: frames one after the other, and what parsing any part of it yields. */
module FrameStream {
  import opened ByteOrder
  import opened SlotLayout
  import opened Protocol

  /** What the server keeps of a frame. */
  datatype Received = Received(meta: Meta, payload: seq<byte>)

  function View(f: Frame): Received { Received(MetaOf(f), f.payload) }

  function Views(fs: seq<Frame>): (r: seq<Received>)
    ensures |r| == |fs| && forall i :: 0 <= i < |fs| ==> r[i] == View(fs[i])
  {
    seq(|fs|, i requires 0 <= i < |fs| => View(fs[i]))
  }

  function EncodeFrame(f: Frame): (b: seq<byte>)
    ensures |b| == FRAME_HEADER_SIZE + |f.payload|
  {
    HeaderBytes(MetaOf(f)) + f.payload
  }

  function EncodeAll(fs: seq<Frame>): seq<byte> {
    if fs == [] then [] else EncodeFrame(fs[0]) + EncodeAll(fs[1..])
  }

  predicate Sendable(f: Frame) { |f.payload| <= SERVER_MAX_PAYLOAD }

  /** Why the server stops reading a connection. */
  datatype Ending = NoHeader | Rejected(why: Check) | NoPayload

  datatype Parse = Parse(frames: seq<Received>, ending: Ending)

  /** The frames in a stream that ends where it ends. */
  function ParseStream(s: seq<byte>): Parse
    decreases |s|
  {
    if |s| < FRAME_HEADER_SIZE then Parse([], NoHeader)
    else
      var h := s[..FRAME_HEADER_SIZE];
      if CheckHeader(h) != Accepted then Parse([], Rejected(CheckHeader(h)))
      else
        var n := FRAME_HEADER_SIZE + PayloadLen(h);
        if |s| < n then Parse([], NoPayload)
        else
          var rest := ParseStream(s[n..]);
          Parse([Received(DecodeHeader(h), s[FRAME_HEADER_SIZE..n])] + rest.frames, rest.ending)
  }

  function StreamSize(fs: seq<Received>): nat {
    if fs == [] then 0 else FRAME_HEADER_SIZE + |fs[0].payload| + StreamSize(fs[1..])
  }

  lemma HeaderOf(f: Frame)
    requires Sendable(f)
    ensures CheckHeader(HeaderBytes(MetaOf(f))) == Accepted && DecodeHeader(HeaderBytes(MetaOf(f))) == MetaOf(f)
    ensures PayloadLen(HeaderBytes(MetaOf(f))) == |f.payload|
  {
    ServerReadsClientHeader(MetaOf(f));
    hide HeaderBytes, CheckHeader, PayloadLen;
    assert DecodeHeader(HeaderBytes(MetaOf(f))).len == |f.payload|;
  }

  /** One encoded frame at the front of a stream is read back exactly. */
  lemma ParseOne(f: Frame, t: seq<byte>)
    requires Sendable(f)
    ensures ParseStream(EncodeFrame(f) + t) == Parse([View(f)] + ParseStream(t).frames, ParseStream(t).ending)
  {
    HeaderOf(f);
    var s, n, h := EncodeFrame(f) + t, FRAME_HEADER_SIZE + |f.payload|, HeaderBytes(MetaOf(f));
    ThreeParts(h, f.payload, t);
    hide HeaderBytes, MetaOf, CheckHeader, DecodeHeader, PayloadLen;
    assert s == h + f.payload + t;
  }

  lemma ThreeParts(a: seq<byte>, b: seq<byte>, c: seq<byte>)
    ensures var s := a + b + c;
      s[..|a|] == a && s[|a|..|a| + |b|] == b && s[|a| + |b|..] == c
  {
  }

  /** Parsing encoded frames followed by anything returns those frames, then whatever the rest parses to. */
  lemma {:induction false} ParseEncoded(fs: seq<Frame>, t: seq<byte>)
    requires forall f :: f in fs ==> Sendable(f)
    ensures ParseStream(EncodeAll(fs) + t) == Parse(Views(fs) + ParseStream(t).frames, ParseStream(t).ending)
  {
    if fs == [] {
      assert EncodeAll(fs) + t == t;
    } else {
      var e, rest, tail := EncodeFrame(fs[0]), EncodeAll(fs[1..]), ParseStream(t).frames;
      ParseEncoded(fs[1..], t);
      ParseOne(fs[0], rest + t);
      ViewsCons(fs);
      hide ParseStream, EncodeFrame, View, Views;
      Associative(e, rest, t);
      Associative([View(fs[0])], Views(fs[1..]), tail);
    }
  }

  lemma ViewsCons(fs: seq<Frame>)
    requires fs != []
    ensures Views(fs) == [View(fs[0])] + Views(fs[1..])
  {
  }

  lemma Associative<T>(a: seq<T>, b: seq<T>, c: seq<T>)
    ensures (a + b) + c == a + (b + c)
  {
  }

  lemma HeadOfCut(a: seq<byte>, b: seq<byte>, k: nat)
    requires |a| <= k <= |a| + |b|
    ensures (a + b)[..k][..|a|] == a
  {
  }

  /** A stream cut inside a frame yields no frame from it, and is not an error of the sender's. */
  lemma ParseCut(f: Frame, k: nat)
    requires Sendable(f) && k < |EncodeFrame(f)|
    ensures ParseStream(EncodeFrame(f)[..k]) ==
      Parse([], if k < FRAME_HEADER_SIZE then NoHeader else NoPayload)
  {
    HeaderOf(f);
    if k >= FRAME_HEADER_SIZE { HeadOfCut(HeaderBytes(MetaOf(f)), f.payload, k); }
    hide HeaderBytes, MetaOf, CheckHeader, DecodeHeader, PayloadLen;
  }

  /** How many of these frames lie wholly within the first n bytes of their encoding. */
  function WholeFrames(fs: seq<Frame>, n: nat): (k: nat)
    ensures k <= |fs|
  {
    if fs == [] || n < |EncodeFrame(fs[0])| then 0 else 1 + WholeFrames(fs[1..], n - |EncodeFrame(fs[0])|)
  }

  /** Cutting the stream anywhere leaves exactly the frames that lie wholly before the cut. */
  lemma {:induction false} ParsePrefix(fs: seq<Frame>, p: seq<byte>) returns (k: nat)
    requires forall f :: f in fs ==> Sendable(f)
    requires p <= EncodeAll(fs)
    ensures k == WholeFrames(fs, |p|) && ParseStream(p).frames == Views(fs[..k]) && !ParseStream(p).ending.Rejected?
    ensures |EncodeAll(fs[..k])| <= |p| && (k < |fs| ==> |p| < |EncodeAll(fs[..k + 1])|)
  {
    if fs == [] {
      k := 0;
    } else if |p| < |EncodeFrame(fs[0])| {
      k := 0;
      CutInFirst(fs, p);
    } else {
      var e, es := EncodeFrame(fs[0]), EncodeAll(fs[1..]);
      assert EncodeAll(fs) == e + es;
      assert WholeFrames(fs, |p|) == 1 + WholeFrames(fs[1..], |p| - |e|);
      hide EncodeFrame, EncodeAll, View, Views, ParseStream, WholeFrames;
      var rest := p[|e|..];
      SplitPrefix(p, e, es);
      var j := ParsePrefix(fs[1..], rest);
      ParseOne(fs[0], rest);
      k := j + 1;
      TakeOneMore(fs, j);
    }
  }

  lemma CutInFirst(fs: seq<Frame>, p: seq<byte>)
    requires fs != [] && Sendable(fs[0]) && p <= EncodeAll(fs) && |p| < |EncodeFrame(fs[0])|
    ensures ParseStream(p).frames == [] && Views(fs[..0]) == [] && !ParseStream(p).ending.Rejected?
    ensures EncodeAll(fs[..0]) == [] && |EncodeAll(fs[..1])| == |EncodeFrame(fs[0])|
  {
    var e := EncodeFrame(fs[0]);
    hide EncodeFrame, ParseStream;
    assert EncodeAll(fs) == e + EncodeAll(fs[1..]);
    assert p == e[..|p|];
    ParseCut(fs[0], |p|);
    assert fs[..1] == [fs[0]] && fs[..1][1..] == [];
  }

  lemma SplitPrefix(p: seq<byte>, a: seq<byte>, b: seq<byte>)
    requires p <= a + b && |a| <= |p|
    ensures p == a + p[|a|..] && p[|a|..] <= b
  {
    assert (a + b)[|a|..] == b;
  }

  lemma TakeOneMore(fs: seq<Frame>, j: nat)
    requires fs != [] && j <= |fs| - 1
    ensures Views(fs[..j + 1]) == [View(fs[0])] + Views(fs[1..][..j])
    ensures |EncodeAll(fs[..j + 1])| == |EncodeFrame(fs[0])| + |EncodeAll(fs[1..][..j])|
    ensures j + 1 < |fs| ==> |EncodeAll(fs[..j + 2])| == |EncodeFrame(fs[0])| + |EncodeAll(fs[1..][..j + 1])|
  {
    hide EncodeFrame, View;
    assert fs[..j + 1][1..] == fs[1..][..j];
    if j + 1 < |fs| { assert fs[..j + 2][1..] == fs[1..][..j + 1]; }
  }

  /** The byte count of a fully parsed stream: every frame's header and payload. */
  lemma {:induction false} EncodedSize(fs: seq<Frame>)
    ensures |EncodeAll(fs)| == StreamSize(Views(fs))
  {
    if fs != [] {
      EncodedSize(fs[1..]);
      assert Views(fs)[1..] == Views(fs[1..]);
    }
  }
}
