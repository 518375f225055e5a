/** The fixed-buffer log message: an in-place 512-byte buffer that refines unbounded concatenation. */
module Logger {

  const BUF_SIZE: nat := 512

  /** The first n characters of s, or all of them. */
  function Cut(s: string, n: nat): string { if |s| <= n then s else s[..n] }

  /** The line a message must produce: at most 510 characters of what was inserted, and a newline. */
  function Line(text: string): string { Cut(text, BUF_SIZE - 2) + "\n" }

  lemma CutAppend(a: string, b: string, n: nat)
    ensures Cut(a + b, n) == if |a| >= n then Cut(a, n) else a + Cut(b, n - |a|)
  {
  }

  /** What one formatting call yields: the full text, or an encoding failure (a negative result). */
  datatype Formatted = Text(s: string) | Failure

  class LogMessage {
    const shouldLog: bool
    const buf: array<char>
    var pos: nat
    ghost var text: string

    /** The buffer holds the first 510 characters of everything inserted so far. */
    ghost predicate Valid()
      reads this, buf
    {
      && buf.Length == BUF_SIZE
      && (shouldLog ==> pos <= BUF_SIZE - 2 && buf[..pos] == Cut(text, BUF_SIZE - 2))
      && (!shouldLog ==> text == "")
    }

    /** snprintf(buf + off, size, "%s", s): writes at most size - 1 characters and a NUL; the result is the length the
        whole text would have had. */
    method Snprintf(off: nat, size: nat, f: Formatted) returns (n: int)
      requires size > 0 && off + size <= buf.Length
      modifies buf
      ensures f.Failure? ==> n < 0
      ensures f.Text? ==> n == |f.s|
      ensures f.Text? ==> buf[off..off + |Cut(f.s, size - 1)|] == Cut(f.s, size - 1)
      ensures f.Text? ==> buf[off + |Cut(f.s, size - 1)|] == '\0'
      ensures forall i :: 0 <= i < buf.Length && !(off <= i < off + size) ==> buf[i] == old(buf[i])
    {
      if f.Failure? {
        buf[off] := '\0';
        return -1;
      }
      var out := Cut(f.s, size - 1);
      forall i | 0 <= i < |out| { buf[off + i] := out[i]; }
      buf[off + |out|] := '\0';
      n := |f.s|;
    }

    /** Opens the line with its prefix if the level is enabled. */
    constructor (enabled: bool, prefix: Formatted)
      ensures Valid() && fresh(buf) && buf.Length == 512 && shouldLog == enabled
      ensures text == if enabled && prefix.Text? then prefix.s else ""
    {
      shouldLog := enabled;
      buf := new char[BUF_SIZE];
      pos := 0;
      text := if enabled && prefix.Text? then prefix.s else "";
      new;
      if shouldLog {
        var n := Snprintf(0, BUF_SIZE - 1, prefix);
        if n > 0 { pos := if n < BUF_SIZE - 1 then n else BUF_SIZE - 2; }
      }
    }

    /** append_s and appendFmt: a formatting failure leaves the message as it was. */
    method Append(f: Formatted)
      requires Valid()
      modifies this, buf
      ensures Valid()
      ensures text == if shouldLog && f.Text? then old(text) + f.s else old(text)
    {
      if !shouldLog { return; }
      if pos >= BUF_SIZE - 1 { return; }
      ghost var before := buf[..pos];
      var n := Snprintf(pos, BUF_SIZE - 1 - pos, f);
      assert buf[..pos] == before;
      if f.Text? {
        CutAppend(text, f.s, BUF_SIZE - 2);
        text := text + f.s;
      }
      hide Cut;
      if n > 0 {
        var end := pos + |Cut(f.s, BUF_SIZE - 2 - pos)|;
        assert buf[..end] == before + buf[pos..end];
        pos := pos + n;
        if pos >= BUF_SIZE - 1 { pos := BUF_SIZE - 2; }
      }
    }

    /** operator<<(char): no formatting, no NUL. */
    method AppendChar(c: char)
      requires Valid()
      modifies this, buf
      ensures Valid() && text == if shouldLog then old(text) + [c] else old(text)
    {
      if !shouldLog { return; }
      CutAppend(text, [c], BUF_SIZE - 2);
      text := text + [c];
      if pos < BUF_SIZE - 2 {
        ghost var before := buf[..pos];
        buf[pos] := c;
        assert buf[..pos + 1] == before + [c];
        pos := pos + 1;
      }
    }

    /** The destructor: terminates the line inside the buffer and emits exactly the line the text stands for. */
    method Finish() returns (out: string)
      requires Valid()
      modifies this, buf
      ensures out == if shouldLog then Line(text) else ""
      ensures shouldLog ==> pos < BUF_SIZE && buf[pos] == '\0' && buf[..pos] == out
      ensures text == old(text)
    {
      out := "";
      if !shouldLog { return; }
      ghost var before := buf[..pos];
      if pos < BUF_SIZE - 1 {
        buf[pos] := '\n';
        assert buf[..pos + 1] == before + "\n";
        pos := pos + 1;
      }
      buf[pos] := '\0';
      out := buf[..pos];
    }

    /** LogErrnoMessage's destructor: the error text comes last on the line. */
    method FinishWithErrno(errNum: int, description: string, number: string) returns (out: string)
      requires Valid()
      modifies this, buf
      ensures out ==
        if !shouldLog then ""
        else Line(old(text) + if errNum != 0 then ": " + description + " (errno=" + number + ")" else "")
    {
      if errNum != 0 {
        Append(Text(": "));
        Append(Text(description));
        Append(Text(" (errno="));
        Append(Text(number));
        Append(Text(")"));
        Regroup(old(text), ": ", description, " (errno=", number, ")");
      }
      hide Cut;
      assert old(text) + "" == old(text);
      out := Finish();
    }
  }

  lemma Regroup(t: string, a: string, b: string, c: string, d: string, e: string)
    ensures ((((t + a) + b) + c) + d) + e == t + (a + b + c + d + e)
  {
  }

  // ---- A whole logging statement ----

  datatype Insertion = Insert(f: Formatted) | InsertChar(c: char)

  /** The first n insertions after the prefix, with no limit on their length. */
  function Concatenated(prefix: Formatted, ins: seq<Insertion>, n: nat): string
    requires n <= |ins|
  {
    if n == 0 then (if prefix.Text? then prefix.s else "")
    else Concatenated(prefix, ins, n - 1) + Inserted(ins[n - 1])
  }

  /** What one insertion adds; a failed conversion adds nothing. */
  function Inserted(i: Insertion): string {
    match i
    case Insert(Text(s)) => s
    case Insert(Failure) => ""
    case InsertChar(c) => [c]
  }

  lemma NothingInserted(prefix: Formatted, ins: seq<Insertion>)
    ensures Concatenated(prefix, ins, 0) == if prefix.Text? then prefix.s else ""
  {
  }

  lemma ConcatenatedNext(prefix: Formatted, ins: seq<Insertion>, n: nat)
    requires n < |ins|
    ensures Concatenated(prefix, ins, n + 1) == Concatenated(prefix, ins, n) + Inserted(ins[n])
  {
  }

  lemma LineOf(text: string)
    ensures Line(text) == (if |text| <= 510 then text else text[..510]) + "\n"
  {
  }

  /** One operator<< of a statement. */
  method Put(m: LogMessage, i: Insertion)
    requires m.Valid()
    modifies m, m.buf
    ensures m.Valid() && m.text == if m.shouldLog then old(m.text) + Inserted(i) else old(m.text)
  {
    hide LogMessage.Valid;
    match i {
      case Insert(f) =>
        m.Append(f);
        assert f.Failure? ==> old(m.text) + "" == old(m.text);
      case InsertChar(c) => m.AppendChar(c);
    }
  }

  /** A complete statement emits the first 510 characters of the unbounded concatenation, then a newline. */
  method Log(enabled: bool, prefix: Formatted, ins: seq<Insertion>) returns (out: string)
    ensures enabled ==>
      var text := Concatenated(prefix, ins, |ins|);
      out == (if |text| <= 510 then text else text[..510]) + "\n"
    ensures !enabled ==> out == ""
  {
    if enabled { LineOf(Concatenated(prefix, ins, |ins|)); }
    hide LogMessage.Valid, Cut, Line, Inserted, Concatenated;
    NothingInserted(prefix, ins);
    var m := new LogMessage(enabled, prefix);
    for i := 0 to |ins|
      invariant m.Valid() && fresh(m) && fresh(m.buf) && m.shouldLog == enabled
      invariant enabled ==> m.text == Concatenated(prefix, ins, i)
    {
      ConcatenatedNext(prefix, ins, i);
      Put(m, ins[i]);
    }
    out := m.Finish();
  }

  /** Truncation happens once: cutting after every insertion gives what cutting the whole text at the end gives, so the
      emitted line never depends on how the text was split into insertions. */
  lemma CutIsAssociative(a: string, b: string, n: nat)
    ensures Cut(Cut(a, n) + b, n) == Cut(a + b, n)
  {
    CutAppend(a, b, n);
    CutAppend(Cut(a, n), b, n);
  }
}
