/** The server's side of a connection: the read loop, the parse loop and the saved files. */
module FrameServer {
  import opened Wrappers
  import opened ByteOrder
  import opened SlotLayout
  import opened Protocol
  import opened FrameStream
  import opened FrameFiles

  /** What one SSL_read call does while bytes are still to come: ask to be retried, or deliver up to n of them. */
  datatype ReadEvent = Retry | Chunk(n: nat)

  /** One accepted connection. stream: the bytes that still reach the server before the connection ends or fails;
      script: how the coming reads cut them up; when it runs out, reads deliver all they can. */
  class Connection {
    var stream: seq<byte>
    var script: seq<ReadEvent>

    constructor (stream: seq<byte>, script: seq<ReadEvent>)
      ensures this.stream == stream && this.script == script
    {
      this.stream, this.script := stream, script;
    }

    /** SSL_read into buf at off: n bytes arrived; n == 0 with again asks for a retry, n == 0 otherwise is the end. */
    method Read(buf: array<byte>, off: nat, want: nat) returns (n: nat, again: bool)
      requires 0 < want && off + want <= buf.Length
      modifies this, buf
      ensures n <= want && n <= |old(stream)| && stream == old(stream)[n..]
      ensures buf[..] == old(buf[..off]) + old(stream)[..n] + old(buf[off + n..])
      ensures n > 0 ==> !again
      ensures n == 0 && !again ==> stream == []
      ensures n == 0 && again ==> |script| < |old(script)|
    {
      n, again := 0, false;
      assert buf[..] == buf[..off] + [] + buf[off..];
      if stream == [] { return; }
      var most := want;
      if script != [] {
        var e := script[0];
        script := script[1..];
        if e.Retry? { again := true; return; }
        most := if 0 < e.n < want then e.n else if e.n == 0 then 1 else want;
      }
      n := if most < |stream| then most else |stream|;
      CopyIn(buf, off, stream[..n]);
      stream := stream[n..];
    }

    method CopyIn(buf: array<byte>, off: nat, bytes: seq<byte>)
      requires off + |bytes| <= buf.Length
      modifies buf
      ensures buf[..] == old(buf[..off]) + bytes + old(buf[off + |bytes|..])
    {
      forall i | 0 <= i < |bytes| {
        buf[off + i] := bytes[i];
      }
    }

    /** sslReadAll: succeeds exactly when len bytes still arrive, and then buf starts with just those. */
    method ReadAll(buf: array<byte>, len: nat) returns (ok: bool)
      requires len <= buf.Length
      modifies this, buf
      ensures ok <==> len <= |old(stream)|
      ensures ok ==> stream == old(stream)[len..] && buf[..len] == old(stream)[..len]
    {
      var got, remaining := 0, len;
      while remaining > 0
        invariant 0 <= got <= len && got + remaining == len && got <= |old(stream)|
        invariant stream == old(stream)[got..] && buf[..got] == old(stream)[..got]
        decreases remaining, |script|
      {
        ghost var before := buf[..];
        var n, again := Read(buf, got, remaining);
        if n == 0 {
          if again { continue; }
          return false;
        }
        assert buf[..got + n] == before[..got] + old(stream)[got..][..n];
        got := got + n;
        remaining := remaining - n;
      }
      return true;
    }
  }

  function Take<T>(s: seq<T>, n: nat): seq<T> { if n < |s| then s[..n] else s }

  function NameOf(dir: string, r: Received): string
    requires InRange(r.meta)
  {
    FileName(dir, r.meta.seqNo, Extension(r.meta.pixelFormat))
  }

  lemma DecodedInRange(b: seq<byte>)
    requires |b| == FRAME_HEADER_SIZE
    ensures InRange(DecodeHeader(b))
  {
    FieldWidths();
    HtonllInvolution(Word64(b[8..16]));
    HtonllInvolution(Word64(b[16..24]));
    FromLeBound(Reverse(Le(FromLe(b[24..28]), 4)));
    FromLeBound(Reverse(Le(FromLe(b[28..32]), 4)));
    FromLeBound(Reverse(Le(FromLe(b[32..34]), 2)));
    FromLeBound(Reverse(Le(FromLe(b[34..36]), 2)));
  }

  ghost predicate DistinctSeqNos(frames: seq<Received>) {
    forall i, k :: 0 <= i < k < |frames| ==> frames[i].meta.seqNo != frames[k].meta.seqNo
  }

  /** As long as sequence numbers differ, every file that was saved successfully still holds its frame's payload. */
  ghost predicate SavedIntact(files: map<string, seq<byte>>, dir: string, frames: seq<Received>, saved: seq<bool>) {
    && |saved| == |frames|
    && (forall r :: r in frames ==> InRange(r.meta))
    && (|dir| <= 484 && DistinctSeqNos(frames) ==>
          forall i :: 0 <= i < |frames| && saved[i] ==>
            NameOf(dir, frames[i]) in files && files[NameOf(dir, frames[i])] == frames[i].payload)
  }

  /** The file that saving one of these frames writes to. */
  ghost predicate NamedBy(name: string, dir: string, frames: seq<Received>) {
    exists r :: r in frames && InRange(r.meta) && name == NameOf(dir, r)
  }

  /** No file but those of the given frames was created, changed or removed. */
  ghost predicate Untouched(files: map<string, seq<byte>>, files': map<string, seq<byte>>, dir: string,
                            frames: seq<Received>)
  {
    forall name :: !NamedBy(name, dir, frames) ==>
      (name in files' <==> name in files) && (name in files ==> files'[name] == files[name])
  }

  predicate AllDone(saved: seq<bool>) { forall b :: b in saved ==> b }

  /** How the save of frame number i turns out; where the list of scripts ends, nothing fails. */
  function ScriptOf(saves: seq<SaveScript>, i: nat): SaveScript {
    if i < |saves| then saves[i] else SaveScript(true, [])
  }

  predicate Succeeds(script: SaveScript) { script.openOk && Failed !in script.writes }

  /** Every frame whose save can succeed was saved. */
  predicate SavedIfPossible(saves: seq<SaveScript>, saved: seq<bool>) {
    forall i :: 0 <= i < |saved| && Succeeds(ScriptOf(saves, i)) ==> saved[i]
  }

  function Successes(saved: seq<bool>): nat {
    if saved == [] then 0 else Successes(saved[..|saved| - 1]) + if saved[|saved| - 1] then 1 else 0
  }

  class Server {
    var framesReceived: nat
    var bytesReceived: nat
    var framesSaved: nat
    const dir: string
    const saveFrames: bool
    const disk: Disk

    constructor (dir: string, saveFrames: bool)
      ensures framesReceived == bytesReceived == framesSaved == 0
      ensures fresh(disk) && this.dir == dir && this.saveFrames == saveFrames
    {
      framesReceived, bytesReceived, framesSaved := 0, 0, 0;
      this.dir, this.saveFrames := dir, saveFrames;
      disk := new Disk();
    }

    /** One round of the parse loop, up to the complete frame, or why it ends the loop. The payload buffer is reused and
        only ever grows. */
    method ReadFrame(conn: Connection, hdr: array<byte>, frameBuf: array<byte>)
      returns (why: Option<Ending>, r: Received, buf: array<byte>)
      requires hdr.Length == FRAME_HEADER_SIZE && hdr != frameBuf
      modifies conn, hdr, frameBuf
      ensures buf == frameBuf || fresh(buf)
      ensures buf != hdr && buf.Length >= frameBuf.Length
      ensures why.None? ==>
        && ParseStream(old(conn.stream)).frames == [r] + ParseStream(conn.stream).frames
        && ParseStream(old(conn.stream)).ending == ParseStream(conn.stream).ending
        && InRange(r.meta) && |r.payload| <= buf.Length && r.payload == buf[..|r.payload|]
      ensures why.Some? ==> ParseStream(old(conn.stream)) == Parse([], why.value)
    {
      hide Le, Be, FromLe, Swap, Htonll, Word64, DecodeHeader;
      buf := frameBuf;
      r := Received(Meta(0, 0, 0, 0, 0, 0), []);
      ghost var s := conn.stream;
      var ok := conn.ReadAll(hdr, FRAME_HEADER_SIZE);
      if !ok { return Some(NoHeader), r, buf; }
      ghost var h := s[..FRAME_HEADER_SIZE];
      assert hdr[..] == h;
      HeaderSlices(h);

      if hdr[..4] != SERVER_MAGIC { return Some(Rejected(BadMagic)), r, buf; }
      if Swap(FromLe(hdr[4..6]), 2) != SERVER_VERSION { return Some(Rejected(BadVersion)), r, buf; }
      var payloadLen := Swap(FromLe(hdr[24..28]), 4);
      if payloadLen > SERVER_MAX_PAYLOAD { return Some(Rejected(TooLarge)), r, buf; }

      if payloadLen > buf.Length {
        buf := new byte[payloadLen];
      }
      ok := conn.ReadAll(buf, payloadLen);
      if !ok { return Some(NoPayload), r, buf; }
      why, r := None, Received(DecodeHeader(hdr[..]), buf[..payloadLen]);
      assert hdr[..] == h;
      DecodedInRange(h);
      assert s[FRAME_HEADER_SIZE..FRAME_HEADER_SIZE + payloadLen] == s[FRAME_HEADER_SIZE..][..payloadLen];
    }

    /** Counts a complete frame and, if asked to, saves it. */
    method Record(r: Received, buf: array<byte>, script: SaveScript) returns (done: bool)
      requires InRange(r.meta) && |r.payload| <= buf.Length && r.payload == buf[..|r.payload|]
      modifies this, disk`files
      ensures framesReceived == old(framesReceived) + 1
      ensures bytesReceived == old(bytesReceived) + FRAME_HEADER_SIZE + |r.payload|
      ensures framesSaved == old(framesSaved) + if done then 1 else 0
      ensures saveFrames && Succeeds(script) ==> done
      ensures !saveFrames ==> !done && disk.files == old(disk.files)
      ensures done ==> disk.files == old(disk.files)[NameOf(dir, r) := r.payload]
      ensures Untouched(old(disk.files), disk.files, dir, [r]) && SavedIntact(disk.files, dir, [r], [done])
    {
      hide NameOf;
      framesReceived := framesReceived + 1;
      bytesReceived := bytesReceived + FRAME_HEADER_SIZE + |r.payload|;
      done := false;
      assert NamedBy(NameOf(dir, r), dir, [r]) by { assert r in [r]; }
      if saveFrames {
        done := disk.SaveFrame(NameOf(dir, r), buf, |r.payload|, script);
        if done { framesSaved := framesSaved + 1; }
      }
    }

    /** One round of the loop: a frame is read, counted and saved, or the connection ends. */
    method ServeFrame(conn: Connection, hdr: array<byte>, frameBuf: array<byte>, script: SaveScript)
      returns (why: Option<Ending>, r: Received, done: bool, buf: array<byte>)
      requires hdr.Length == FRAME_HEADER_SIZE && hdr != frameBuf
      modifies this, disk`files, conn, hdr, frameBuf
      ensures (buf == frameBuf || fresh(buf)) && buf != hdr
      ensures why.Some? ==> ParseStream(old(conn.stream)) == Parse([], why.value) && disk.files == old(disk.files)
      ensures why.Some? ==> framesReceived == old(framesReceived) && bytesReceived == old(bytesReceived)
      ensures why.Some? ==> framesSaved == old(framesSaved)
      ensures why.None? ==> ParseStream(old(conn.stream)) == AfterFrames([r], ParseStream(conn.stream))
      ensures why.None? ==> framesReceived == old(framesReceived) + 1
      ensures why.None? ==> bytesReceived == old(bytesReceived) + FRAME_HEADER_SIZE + |r.payload|
      ensures why.None? ==> framesSaved == old(framesSaved) + if done then 1 else 0
      ensures why.None? && saveFrames && Succeeds(script) ==> done
      ensures why.None? ==> Untouched(old(disk.files), disk.files, dir, [r])
      ensures why.None? ==> SavedIntact(disk.files, dir, [r], [done])
      ensures !saveFrames ==> disk.files == old(disk.files)
    {
      hide ParseStream, NameOf, SavedIntact, Untouched;
      done := false;
      why, r, buf := ReadFrame(conn, hdr, frameBuf);
      if why.None? { done := Record(r, buf, script); }
    }

    /** handleClient: reads frames until the stream ends, a header is refused, or the running flag is found cleared
        after limit rounds. However the reads cut the stream, the frames taken are those of ParseStream, and so is the
        reason to stop. */
    method HandleClient(conn: Connection, limit: nat, saves: seq<SaveScript>)
      returns (frames: seq<Received>, saved: seq<bool>, why: Option<Ending>)
      modifies this, conn, disk`files
      ensures frames == Take(ParseStream(old(conn.stream)).frames, limit)
      ensures why ==
        if |ParseStream(old(conn.stream)).frames| < limit then Some(ParseStream(old(conn.stream)).ending) else None
      ensures framesReceived == old(framesReceived) + |frames|
      ensures bytesReceived == old(bytesReceived) + StreamSize(frames)
      ensures SavedIntact(disk.files, dir, frames, saved) && Untouched(old(disk.files), disk.files, dir, frames)
      ensures framesSaved == old(framesSaved) + Successes(saved)
      ensures saveFrames ==> SavedIfPossible(saves, saved)
      ensures !saveFrames ==> disk.files == old(disk.files)
    {
      frames, saved, why := [], [], None;
      var hdr := new byte[FRAME_HEADER_SIZE];
      var frameBuf := new byte[0];
      ghost var all := ParseStream(conn.stream);
      NothingHandled(disk.files, dir, all);
      while |frames| < limit
        invariant fresh(hdr) && fresh(frameBuf) && hdr != frameBuf && hdr.Length == FRAME_HEADER_SIZE
        invariant |frames| <= limit && why.None?
        invariant Handled(old(disk.files), disk.files, dir, all, ParseStream(conn.stream), frames, saved)
        invariant framesReceived == old(framesReceived) + |frames|
        invariant bytesReceived == old(bytesReceived) + StreamSize(frames)
        invariant framesSaved == old(framesSaved) + Successes(saved)
        invariant |saved| == |frames| && (saveFrames ==> SavedIfPossible(saves, saved))
        invariant !saveFrames ==> disk.files == old(disk.files)
        decreases limit - |frames|
      {
        hide ParseStream, NameOf, SavedIntact, Untouched, StreamSize, Successes, AfterFrames, Take, Handled;
        hide Succeeds, ScriptOf, SavedIfPossible;
        var script := ScriptOf(saves, |frames|);
        ghost var before, rest := disk.files, ParseStream(conn.stream);
        var r, done, buf;
        why, r, done, buf := ServeFrame(conn, hdr, frameBuf, script);
        if why.Some? {
          StopsAtEnd(old(disk.files), disk.files, dir, all, rest, frames, saved, limit);
          return;
        }
        frameBuf := buf;
        HandledOneMore(old(disk.files), before, disk.files, dir, all, ParseStream(conn.stream), frames, saved, r, done);
        if saveFrames { OneMorePossible(saves, saved, done); }
        frames, saved := frames + [r], saved + [done];
      }
      StopsAtLimit(old(disk.files), disk.files, dir, all, ParseStream(conn.stream), frames, saved);
    }
  }

  /** A stream that starts with these frames and goes on like rest. */
  function AfterFrames(frames: seq<Received>, rest: Parse): Parse { Parse(frames + rest.frames, rest.ending) }

  lemma OneMorePossible(saves: seq<SaveScript>, saved: seq<bool>, done: bool)
    requires SavedIfPossible(saves, saved) && (Succeeds(ScriptOf(saves, |saved|)) ==> done)
    ensures SavedIfPossible(saves, saved + [done])
  {
  }

  /** What the loop has done so far: these frames of the stream were taken, and these files are theirs. */
  ghost predicate Handled(files: map<string, seq<byte>>, files': map<string, seq<byte>>, dir: string,
                          all: Parse, rest: Parse, frames: seq<Received>, saved: seq<bool>)
  {
    all == AfterFrames(frames, rest) && SavedIntact(files', dir, frames, saved) && Untouched(files, files', dir, frames)
  }

  lemma NothingHandled(files: map<string, seq<byte>>, dir: string, all: Parse)
    ensures Handled(files, files, dir, all, all, [], [])
  {
  }

  lemma HandledOneMore(files0: map<string, seq<byte>>, files: map<string, seq<byte>>, files': map<string, seq<byte>>,
                       dir: string, all: Parse, rest: Parse, frames: seq<Received>, saved: seq<bool>,
                       r: Received, done: bool)
    requires Handled(files0, files, dir, all, AfterFrames([r], rest), frames, saved)
    requires SavedIntact(files', dir, [r], [done]) && Untouched(files, files', dir, [r])
    ensures Handled(files0, files', dir, all, rest, frames + [r], saved + [done])
    ensures StreamSize(frames + [r]) == StreamSize(frames) + FRAME_HEADER_SIZE + |r.payload|
    ensures Successes(saved + [done]) == Successes(saved) + if done then 1 else 0
  {
    IntactThrough(files, files', dir, frames, saved, [r], [done]);
    UntouchedThrough(files0, files, files', dir, frames, [r]);
    StreamSizeSnoc(frames, r);
    hide SavedIntact, Untouched;
    Associative(frames, [r], rest.frames);
    assert (saved + [done])[..|saved|] == saved;
  }

  lemma StopsAtEnd(files: map<string, seq<byte>>, files': map<string, seq<byte>>, dir: string,
                   all: Parse, rest: Parse, frames: seq<Received>, saved: seq<bool>, limit: nat)
    requires Handled(files, files', dir, all, rest, frames, saved) && |frames| < limit && rest.frames == []
    ensures SavedIntact(files', dir, frames, saved) && Untouched(files, files', dir, frames)
    ensures Take(all.frames, limit) == frames && |all.frames| < limit && all.ending == rest.ending
  {
    hide SavedIntact, Untouched;
  }

  lemma StopsAtLimit(files: map<string, seq<byte>>, files': map<string, seq<byte>>, dir: string,
                     all: Parse, rest: Parse, frames: seq<Received>, saved: seq<bool>)
    requires Handled(files, files', dir, all, rest, frames, saved)
    ensures SavedIntact(files', dir, frames, saved) && Untouched(files, files', dir, frames)
    ensures Take(all.frames, |frames|) == frames && |all.frames| >= |frames|
  {
    hide SavedIntact, Untouched;
  }

  lemma HeaderSlices(h: seq<byte>)
    requires |h| == FRAME_HEADER_SIZE
    ensures CheckHeader(h) ==
      if h[..4] != SERVER_MAGIC then BadMagic
      else if Swap(FromLe(h[4..6]), 2) != SERVER_VERSION then BadVersion
      else if PayloadLen(h) > SERVER_MAX_PAYLOAD then TooLarge
      else Accepted
  {
  }

  lemma {:induction false} StreamSizeSnoc(frames: seq<Received>, r: Received)
    ensures StreamSize(frames + [r]) == StreamSize(frames) + FRAME_HEADER_SIZE + |r.payload|
  {
    if frames != [] {
      assert (frames + [r])[1..] == frames[1..] + [r];
      StreamSizeSnoc(frames[1..], r);
    }
  }

  lemma UntouchedThrough(files: map<string, seq<byte>>, files1: map<string, seq<byte>>, files2: map<string, seq<byte>>,
                         dir: string, a: seq<Received>, b: seq<Received>)
    requires Untouched(files, files1, dir, a) && Untouched(files1, files2, dir, b)
    ensures Untouched(files, files2, dir, a + b)
  {
    hide NameOf;
    forall name | !NamedBy(name, dir, a + b) ensures !NamedBy(name, dir, a) && !NamedBy(name, dir, b) {
      assert forall r :: r in a || r in b ==> r in a + b;
    }
  }

  /** Saving further frames with new sequence numbers leaves every file saved before as it was. */
  lemma IntactThrough(files: map<string, seq<byte>>, files': map<string, seq<byte>>, dir: string,
                      a: seq<Received>, savedA: seq<bool>, b: seq<Received>, savedB: seq<bool>)
    requires SavedIntact(files, dir, a, savedA) && SavedIntact(files', dir, b, savedB)
    requires Untouched(files, files', dir, b)
    ensures SavedIntact(files', dir, a + b, savedA + savedB)
  {
    hide NameOf;
    var all := a + b;
    if |dir| <= 484 && DistinctSeqNos(all) {
      DistinctParts(a, b);
      forall i | 0 <= i < |a| && savedA[i]
        ensures NameOf(dir, a[i]) in files' && files'[NameOf(dir, a[i])] == a[i].payload
      {
        forall k | 0 <= k < |b| ensures NameOf(dir, a[i]) != NameOf(dir, b[k]) {
          assert all[i] == a[i] && all[|a| + k] == b[k];
          NamesDiffer(dir, a[i], b[k]);
        }
        assert !NamedBy(NameOf(dir, a[i]), dir, b);
      }
    }
  }

  lemma DistinctParts(a: seq<Received>, b: seq<Received>)
    requires DistinctSeqNos(a + b)
    ensures DistinctSeqNos(a) && DistinctSeqNos(b)
  {
    var all := a + b;
    forall i, k | 0 <= i < k < |a| ensures a[i].meta.seqNo != a[k].meta.seqNo {
      assert all[i] == a[i] && all[k] == a[k];
    }
    forall i, k | 0 <= i < k < |b| ensures b[i].meta.seqNo != b[k].meta.seqNo {
      assert all[|a| + i] == b[i] && all[|a| + k] == b[k];
    }
  }

  lemma NamesDiffer(dir: string, q: Received, r: Received)
    requires |dir| <= 484 && InRange(q.meta) && InRange(r.meta) && q.meta.seqNo != r.meta.seqNo
    ensures NameOf(dir, q) != NameOf(dir, r)
  {
    NameReadsBack(dir, q.meta.seqNo, Extension(q.meta.pixelFormat));
    NameReadsBack(dir, r.meta.seqNo, Extension(r.meta.pixelFormat));
  }
}
