/** Files the server saves frames to: names, when they are distinct, and the write loop. */
module FrameFiles {
  import opened ByteOrder
  import opened Protocol

  // ---- Names ----

  function DigitChar(d: nat): char
    requires d < 10
  {
    ['0', '1', '2', '3', '4', '5', '6', '7', '8', '9'][d]
  }

  function DigitValue(c: char): nat { if c < '0' then 0 else c as nat - '0' as nat }

  function Digits(n: nat): (s: string)
    ensures |s| > 0 && forall c :: c in s ==> '0' <= c <= '9'
  {
    if n < 10 then [DigitChar(n)] else Digits(n / 10) + [DigitChar(n % 10)]
  }

  function Zeros(k: nat): (s: string)
    ensures |s| == k && forall i :: 0 <= i < k ==> s[i] == '0'
  {
    seq(k, _ => '0')
  }

  /** The conversion %08lu. */
  function Pad8(n: nat): (s: string)
    ensures forall c :: c in s ==> '0' <= c <= '9'
  {
    if |Digits(n)| < 8 then Zeros(8 - |Digits(n)|) + Digits(n) else Digits(n)
  }

  /** The file extension for a pixel format; the name comparison stops at a NUL, which no known name contains. */
  function Extension(pixelFormat: u32): string {
    if FourCc(pixelFormat) == [0x4D, 0x4A, 0x50, 0x47] then "jpg"
    else if FourCc(pixelFormat) == [0x59, 0x55, 0x59, 0x56] then "yuyv"
    else if FourCc(pixelFormat) == [0x42, 0x47, 0x52, 0x33] then "bgr"
    else "raw"
  }

  function Stem(dir: string): string { dir + "/frame_" }

  function FullName(dir: string, seqNo: nat, ext: string): string { Stem(dir) + Pad8(seqNo) + "." + ext }

  /** snprintf into the 512-byte name buffer keeps at most 511 characters. */
  function FileName(dir: string, seqNo: nat, ext: string): string {
    var full := FullName(dir, seqNo, ext);
    if |full| <= 511 then full else full[..511]
  }

  /** The number a digit string denotes; leading zeros do not count. */
  function ValueOf(s: string): nat {
    if s == [] then 0 else 10 * ValueOf(s[..|s| - 1]) + DigitValue(s[|s| - 1])
  }

  lemma {:induction false} ValueOfDigits(n: nat)
    ensures ValueOf(Digits(n)) == n
  {
    if n >= 10 {
      ValueOfDigits(n / 10);
      var s := Digits(n);
      assert s[..|s| - 1] == Digits(n / 10) && s[|s| - 1] == DigitChar(n % 10);
    } else {
      assert Digits(n)[..0] == [];
    }
  }

  lemma {:induction false} ValueOfPadded(k: nat, s: string)
    ensures ValueOf(Zeros(k) + s) == ValueOf(s)
    decreases k + |s|
  {
    var t := Zeros(k) + s;
    if s != [] {
      ValueOfPadded(k, s[..|s| - 1]);
      assert t[..|t| - 1] == Zeros(k) + s[..|s| - 1];
    } else if k > 0 {
      ValueOfPadded(k - 1, s);
      assert t[..|t| - 1] == Zeros(k - 1) + s;
    }
  }

  /** Reading the padded number back gives the sequence number. */
  lemma PadReadsBack(n: nat)
    ensures ValueOf(Pad8(n)) == n
  {
    ValueOfDigits(n);
    if |Digits(n)| < 8 { ValueOfPadded(8 - |Digits(n)|, Digits(n)); }
  }

  function Pow10(k: nat): (p: nat)
    ensures p > 0
  {
    if k == 0 then 1 else 10 * Pow10(k - 1)
  }

  lemma {:induction false} DigitCount(n: nat, k: nat)
    requires 0 < k && n < Pow10(k)
    ensures |Digits(n)| <= k
    ensures Pow10(k - 1) <= n ==> |Digits(n)| == k
  {
    if n >= 10 {
      assert k > 1;
      DigitCount(n / 10, k - 1);
    }
  }

  lemma PadWidth(n: u64)
    ensures |Pad8(n)| <= 20
  {
    Pow10Values();
    DigitCount(n, 20);
  }

  lemma Pow10Values()
    ensures Pow10(18) == 1_000_000_000_000_000_000 && Pow10(19) == 10 * Pow10(18) && Pow10(20) == 100 * Pow10(18)
  {
    assert Pow10(6) == 1_000_000;
    assert Pow10(12) == 1_000_000_000_000;
  }

  /** The longest run of digits of s from position p. */
  function DigitRun(s: string, p: nat): string
    decreases |s| - p
  {
    if p < |s| && '0' <= s[p] <= '9' then [s[p]] + DigitRun(s, p + 1) else []
  }

  /** Reads the sequence number out of a file name. */
  function SeqOfName(dir: string, name: string): nat { ValueOf(DigitRun(name, |Stem(dir)|)) }

  lemma {:induction false} RunIs(f: string, p: nat, x: string)
    requires p + |x| <= |f| && f[p..p + |x|] == x && forall c :: c in x ==> '0' <= c <= '9'
    requires p + |x| < |f| ==> f[p + |x|] == '.'
    ensures DigitRun(f, p) == x
    decreases |x|
  {
    if x != [] {
      assert f[p] == f[p..p + |x|][0] && x[0] in x;
      assert f[p + 1..p + 1 + |x[1..]|] == f[p..p + |x|][1..];
      assert forall c :: c in x[1..] ==> c in x;
      RunIs(f, p + 1, x[1..]);
    }
  }

  /** Under a directory short enough for every digit to be kept, the name gives the sequence number back. */
  lemma NameReadsBack(dir: string, n: u64, ext: string)
    requires |dir| <= 484
    ensures SeqOfName(dir, FileName(dir, n, ext)) == n
  {
    NamePart(dir, n, ext);
    PadReadsBack(n);
    hide FileName, Stem, Pad8, ValueOf;
    RunIs(FileName(dir, n, ext), |Stem(dir)|, Pad8(n));
  }

  lemma NamePart(dir: string, n: u64, ext: string)
    requires |dir| <= 484
    ensures var p, s, f := |Stem(dir)|, Pad8(n), FileName(dir, n, ext);
      && p + |s| <= |f| && p + |s| <= 511 && |f| <= 511
      && f[p..p + |s|] == s
      && (|f| > p + |s| ==> f[p + |s|] == '.')
  {
    PadWidth(n);
    hide Pad8;
    var full := FullName(dir, n, ext);
    assert full[|Stem(dir)| + |Pad8(n)|] == '.';
  }

  /** One character more and two 64-bit sequence numbers share a file. */
  lemma LongDirectoryCollides(dir: string, ext: string)
    requires |dir| > 484
    ensures FileName(dir, 10_000_000_000_000_000_000, ext) == FileName(dir, 10_000_000_000_000_000_001, ext)
  {
    Pow10Values();
    DigitCount(Pow10(18), 19);
    hide Digits;
    LastDigitCut(dir, ext, Pow10(18));
  }

  lemma DigitsAppend(n: nat, d: nat)
    requires n > 0 && d < 10
    ensures Digits(10 * n + d) == Digits(n) + [DigitChar(d)]
  {
    var m := 10 * n + d;
    assert m / 10 == n && m % 10 == d;
  }

  lemma LastDigitCut(dir: string, ext: string, n: nat)
    requires |dir| > 484 && n > 0 && |Digits(n)| >= 19
    ensures FileName(dir, 10 * n, ext) == FileName(dir, 10 * n + 1, ext)
  {
    hide Digits, Pad8, FullName;
    NameCut(dir, ext, n, 0);
    NameCut(dir, ext, n, 1);
  }

  /** Under a long directory the name ends before its twentieth digit. */
  lemma NameCut(dir: string, ext: string, n: nat, d: nat)
    requires |dir| > 484 && n > 0 && |Digits(n)| >= 19 && d < 10
    ensures FileName(dir, 10 * n + d, ext) == (Stem(dir) + Digits(n))[..511]
  {
    DigitsAppend(n, d);
    hide Digits;
    var common, rest := Stem(dir) + Digits(n), [DigitChar(d)] + "." + ext;
    assert FullName(dir, 10 * n + d, ext) == common + rest;
    hide FullName;
    CutInCommonPart(common, rest, FullName(dir, 10 * n + d, ext));
  }

  lemma CutInCommonPart(common: string, rest: string, full: string)
    requires full == common + rest && |common| >= 511
    ensures full[..511] == common[..511]
  {
  }

  /** Saved files never collide for different sequence numbers exactly when the directory name is short enough. */
  lemma NamesDistinctIff(dir: string)
    ensures (forall a: u64, b: u64, ea: string, eb: string ::
               FileName(dir, a, ea) == FileName(dir, b, eb) ==> a == b)
            <==> |dir| <= 484
  {
    hide FileName, SeqOfName;
    if |dir| <= 484 {
      forall a: u64, b: u64, ea: string, eb: string | FileName(dir, a, ea) == FileName(dir, b, eb) ensures a == b {
        NameReadsBack(dir, a, ea);
        NameReadsBack(dir, b, eb);
      }
    } else {
      LongDirectoryCollides(dir, "raw");
      var a: u64, b: u64 := 10_000_000_000_000_000_000, 10_000_000_000_000_000_001;
      assert FileName(dir, a, "raw") == FileName(dir, b, "raw");
    }
  }

  // ---- What a name looks like ----

  lemma {:induction false} NoLeadingZero(n: nat)
    requires n > 0
    ensures Digits(n)[0] != '0'
  {
    if n >= 10 { NoLeadingZero(n / 10); }
  }

  predicate EndsWith(s: string, t: string) { |t| <= |s| && s[|s| - |t|..] == t }

  /** The name is the directory, the stem, the number in at least eight digits without a needless zero, and the
      extension, if all of it fits the buffer. */
  lemma NameShape(dir: string, n: u64, ext: string) returns (number: string)
    requires |dir| + |ext| <= 483
    ensures FileName(dir, n, ext) == dir + "/frame_" + number + ("." + ext)
    ensures ValueOf(number) == n && (forall c :: c in number ==> '0' <= c <= '9')
    ensures |number| >= 8 && (|number| > 8 ==> number[0] != '0')
  {
    number := Pad8(n);
    PadWidth(n);
    PadReadsBack(n);
    if |number| > 8 { NoLeadingZero(n); }
    hide Pad8, Digits, ValueOf;
  }

  /** Which extension each pixel format gets, by its word. */
  lemma ExtensionOfFormat(x: u32)
    ensures Extension(x) ==
      if x == 0x47504A4D then "jpg" else if x == 0x56595559 then "yuyv" else if x == 0x33524742 then "bgr" else "raw"
  {
    KnownFormats();
    hide FourCc;
    if FourCc(x) == FourCc(0x47504A4D) { FourCcInjective(x, 0x47504A4D); }
    if FourCc(x) == FourCc(0x56595559) { FourCcInjective(x, 0x56595559); }
    if FourCc(x) == FourCc(0x33524742) { FourCcInjective(x, 0x33524742); }
  }

  lemma KnownFormats()
    ensures FourCc(0x47504A4D) == [0x4D, 0x4A, 0x50, 0x47]
    ensures FourCc(0x56595559) == [0x59, 0x55, 0x59, 0x56]
    ensures FourCc(0x33524742) == [0x42, 0x47, 0x52, 0x33]
  {
    hide FourCc;
    FourCcIsMemory(0x47504A4D);
    FourCcIsMemory(0x56595559);
    FourCcIsMemory(0x33524742);
    LeFour(0x47504A4D);
    LeFour(0x56595559);
    LeFour(0x33524742);
  }

  /** The last part of a file's name tells the format of the frame in it, among those that have an extension of their
      own. */
  lemma NameEndsIn(dir: string, n: u64, x: u32)
    requires |dir| <= 479
    ensures var name := FileName(dir, n, Extension(x));
      && (EndsWith(name, ".jpg") <==> x == 0x47504A4D)
      && (EndsWith(name, ".yuyv") <==> x == 0x56595559)
      && (EndsWith(name, ".bgr") <==> x == 0x33524742)
      && (EndsWith(name, ".raw") <==> x != 0x47504A4D && x != 0x56595559 && x != 0x33524742)
  {
    ExtensionOfFormat(x);
    var ext := Extension(x);
    var number := NameShape(dir, n, ext);
    hide FileName, Extension, ValueOf, EndsWith;
    EndsInOne(dir + "/frame_" + number, ext);
  }

  lemma EndsInOne(base: string, ext: string)
    requires ext == "jpg" || ext == "yuyv" || ext == "bgr" || ext == "raw"
    ensures var name := base + ("." + ext);
      && (EndsWith(name, ".jpg") <==> ext == "jpg") && (EndsWith(name, ".yuyv") <==> ext == "yuyv")
      && (EndsWith(name, ".bgr") <==> ext == "bgr") && (EndsWith(name, ".raw") <==> ext == "raw")
  {
    hide EndsWith;
    if ext == "jpg" {
      assert "." + ext == ".jpg";
    } else if ext == "yuyv" {
      assert "." + ext == ".yuyv";
    } else if ext == "bgr" {
      assert "." + ext == ".bgr";
    } else {
      assert "." + ext == ".raw";
    }
    EndsAlike(base, "." + ext, ".jpg");
    EndsAlike(base, "." + ext, ".yuyv");
    EndsAlike(base, "." + ext, ".bgr");
    EndsAlike(base, "." + ext, ".raw");
  }

  lemma EndsAlike(base: string, t: string, u: string)
    requires t != [] && u != []
    ensures EndsWith(base + t, t) && (t[|t| - 1] != u[|u| - 1] ==> !EndsWith(base + t, u))
  {
  }

  // ---- Writing ----

  /** What one write call does: it is interrupted, takes some bytes, or fails. */
  datatype DiskEvent = Interrupted | Wrote(n: nat) | Failed

  /** How the calls of one save turn out; when the list ends, writes take all they are given. */
  datatype SaveScript = SaveScript(openOk: bool, writes: seq<DiskEvent>)

  class Disk {
    var files: map<string, seq<byte>>

    constructor ()
      ensures files == map[]
    {
      files := map[];
    }

    /** Open with truncation, then write until nothing remains. True exactly means: the file holds the payload. */
    method SaveFrame(name: string, data: array<byte>, len: nat, script: SaveScript) returns (ok: bool)
      requires len <= data.Length
      modifies this`files
      ensures ok ==> files == old(files)[name := data[..len]]
      ensures !ok && !script.openOk ==> files == old(files)
      ensures !ok && script.openOk ==>
        exists k: nat :: k <= len && files == old(files)[name := data[..k]]
      ensures script.openOk && Failed !in script.writes ==> ok
    {
      if !script.openOk { return false; }
      files := files[name := []];
      var written, remaining, events := 0, len, script.writes;
      while remaining > 0
        invariant 0 <= written <= len && written + remaining == len
        invariant files == old(files)[name := data[..written]]
        invariant Failed !in script.writes ==> Failed !in events
        decreases remaining, |events|
      {
        var n := remaining;
        if events != [] {
          var e := events[0];
          events := events[1..];
          if e.Interrupted? { continue; }
          if e.Failed? { return false; }
          n := if e.n < remaining then e.n else remaining;
        }
        assert data[..written + n] == data[..written] + data[written..written + n];
        files := files[name := files[name] + data[written..written + n]];
        written := written + n;
        remaining := remaining - n;
      }
      return true;
    }
  }
}
