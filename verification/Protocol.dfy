/** The frame header on the wire: how the client fills it, how the server reads it, and that they agree. The two
    programs define the struct and its conversions separately. */
module Protocol {
  import opened Bits
  import opened ByteOrder
  import opened SlotLayout

  const PROTO_MAGIC: seq<byte> := [0x46, 0x52, 0x41, 0x4D]
  const PROTO_VERSION: u16 := 1
  const FRAME_HEADER_SIZE: nat := 36

  /** A packed struct: its fields' bytes one after the other, no padding. */
  function Packed(magic: seq<byte>, version: seq<byte>, headerLen: seq<byte>, seqNo: seq<byte>, timestamp: seq<byte>,
                  payloadLen: seq<byte>, pixelFormat: seq<byte>, width: seq<byte>, height: seq<byte>): seq<byte>
  {
    magic + version + headerLen + seqNo + timestamp + payloadLen + pixelFormat + width + height
  }

  /** The wire format: big-endian fields in order. */
  function HeaderBytes(m: Meta): (b: seq<byte>)
    ensures |b| == FRAME_HEADER_SIZE
  {
    Packed(PROTO_MAGIC, Be(PROTO_VERSION, 2), Be(FRAME_HEADER_SIZE, 2), Be(m.seqNo, 8), Be(m.timestamp, 8),
           Be(m.len, 4), Be(m.pixelFormat, 4), Be(m.width, 2), Be(m.height, 2))
  }

  /** Every field fits its width on the wire. */
  predicate InRange(m: Meta) {
    && m.seqNo < 0x1_0000_0000_0000_0000 && m.timestamp < 0x1_0000_0000_0000_0000
    && m.pixelFormat < 0x1_0000_0000 && m.len < 0x1_0000_0000 && m.width < 0x1_0000 && m.height < 0x1_0000
  }

  // ---- Client ----

  /** The client's packed struct; fields hold what the program stores, that is, converted words. */
  class FrameHeader {
    var magic: seq<byte>
    var version: u16
    var headerLen: u16
    var seqNo: u64
    var timestamp: u64
    var payloadLen: u32
    var pixelFormat: u32
    var width: u16
    var height: u16

    constructor () {
      magic := [0, 0, 0, 0];
    }

    /** The struct's bytes on a little-endian host. */
    function Memory(): seq<byte>
      reads this
    {
      Packed(magic, Le(version, 2), Le(headerLen, 2), Le(seqNo, 8), Le(timestamp, 8),
             Le(payloadLen, 4), Le(pixelFormat, 4), Le(width, 2), Le(height, 2))
    }

    /** initFrameHeader: afterwards the struct's memory is the wire format. */
    method Init(seqNo: u64, timestamp: u64, payloadLen: u32, pixelFormat: u32, width: u16, height: u16)
      modifies this
      ensures Memory() == HeaderBytes(Meta(seqNo, timestamp, pixelFormat, width, height, payloadLen))
    {
      hide Le, Be, Packed, Htons, Htonl, Hton64, Htonll, Memory, HeaderBytes;
      magic := PROTO_MAGIC;
      version := Htons(PROTO_VERSION);
      headerLen := Htons(FRAME_HEADER_SIZE);
      this.seqNo := Hton64(seqNo);
      this.timestamp := Hton64(timestamp);
      this.payloadLen := Htonl(payloadLen);
      this.pixelFormat := Htonl(pixelFormat);
      this.width := Htons(width);
      this.height := Htons(height);
      MemoryIsWire(Meta(seqNo, timestamp, pixelFormat, width, height, payloadLen));
    }

    /** If every field stores its big-endian value, the struct's memory is the wire format. */
    lemma MemoryIsWire(m: Meta)
      requires magic == PROTO_MAGIC
      requires Le(version, 2) == Be(PROTO_VERSION, 2) && Le(headerLen, 2) == Be(FRAME_HEADER_SIZE, 2)
      requires Le(seqNo, 8) == Be(m.seqNo, 8) && Le(timestamp, 8) == Be(m.timestamp, 8)
      requires Le(payloadLen, 4) == Be(m.len, 4) && Le(pixelFormat, 4) == Be(m.pixelFormat, 4)
      requires Le(width, 2) == Be(m.width, 2) && Le(height, 2) == Be(m.height, 2)
      ensures Memory() == HeaderBytes(m)
    {
      hide Le, Be, Packed;
    }
  }

  /** Host to network conversions of the C library; what they store is the big-endian value. */
  function Htons(x: u16): (y: u16)
    ensures Le(y, 2) == Be(x, 2)
  {
    FieldWidths();
    SwapInMemory(x, 2);
    Swap(x, 2)
  }

  function Htonl(x: u32): (y: u32)
    ensures Le(y, 4) == Be(x, 4)
  {
    FieldWidths();
    SwapInMemory(x, 4);
    Swap(x, 4)
  }

  function Hton64(x: u64): (y: u64)
    ensures y == Htonll(x) && Le(y, 8) == Be(x, 8)
  {
    HtonllInvolution(x);
    Htonll(x)
  }

  lemma FieldWidths()
    ensures Pow256(2) == 0x1_0000 && Pow256(4) == 0x1_0000_0000 && Pow256(8) == 0x1_0000_0000_0000_0000
  {
  }

  // ---- Server ----

  const SERVER_MAGIC: seq<byte> := [0x46, 0x52, 0x41, 0x4D]
  const SERVER_VERSION: u16 := 1
  const SERVER_MAX_PAYLOAD: nat := 16 * 1024 * 1024

  datatype Check = BadMagic | BadVersion | TooLarge | Accepted

  /** The server's ntohl of the payload_len field it read into its own struct. */
  function PayloadLen(b: seq<byte>): nat
    requires |b| == FRAME_HEADER_SIZE
  {
    Swap(FromLe(b[24..28]), 4)
  }

  /** The three tests the server applies to a header, in its order. header_len is not looked at. */
  function CheckHeader(b: seq<byte>): Check
    requires |b| == FRAME_HEADER_SIZE
  {
    if b[..4] != SERVER_MAGIC then BadMagic
    else if Swap(FromLe(b[4..6]), 2) != SERVER_VERSION then BadVersion
    else if PayloadLen(b) > SERVER_MAX_PAYLOAD then TooLarge
    else Accepted
  }

  /** The 64-bit word in eight bytes of memory. */
  function Word64(b: seq<byte>): u64
    requires |b| == 8
  {
    FromLeBound(b);
    FieldWidths();
    FromLe(b)
  }

  /** The fields as the server converts them. */
  function DecodeHeader(b: seq<byte>): Meta
    requires |b| == FRAME_HEADER_SIZE
  {
    Meta(Htonll(Word64(b[8..16])), Htonll(Word64(b[16..24])), Swap(FromLe(b[28..32]), 4),
         Swap(FromLe(b[32..34]), 2), Swap(FromLe(b[34..36]), 2), PayloadLen(b))
  }

  /** The number in some bytes, most significant first. */
  function Number(b: seq<byte>): nat {
    if b == [] then 0 else 256 * Number(b[..|b| - 1]) + b[|b| - 1]
  }

  lemma {:induction false} SwapIsNumber(b: seq<byte>)
    ensures Swap(FromLe(b), |b|) == Number(b)
  {
    LeFromLe(b);
    ReversedIsNumber(b);
  }

  lemma {:induction false} ReversedIsNumber(b: seq<byte>)
    ensures FromLe(Reverse(b)) == Number(b)
  {
    if b != [] {
      var n := |b| - 1;
      ReversedIsNumber(b[..n]);
      assert Reverse(b) == [b[n]] + Reverse(b[..n]);
      assert ([b[n]] + Reverse(b[..n]))[1..] == Reverse(b[..n]);
    }
  }

  /** The checks in terms of the header's bytes: "FRAM", version 1, and a payload of at most 16 MiB. */
  lemma ChecksByByte(b: seq<byte>)
    requires |b| == FRAME_HEADER_SIZE
    ensures CheckHeader(b) ==
      if b[..4] != [0x46, 0x52, 0x41, 0x4D] then BadMagic
      else if b[4..6] != [0, 1] then BadVersion
      else if Number(b[24..28]) > 16_777_216 then TooLarge
      else Accepted
  {
    SwapIsNumber(b[4..6]);
    SwapIsNumber(b[24..28]);
    VersionOne(b[4..6]);
    hide Swap, FromLe, Number;
  }

  lemma VersionOne(b: seq<byte>)
    requires |b| == 2
    ensures Number(b) == 1 <==> b == [0, 1]
  {
    assert b[..1][..0] == [] && b[..1][0] == b[0];
    assert Number(b[..1]) == b[0] as int;
    assert Number(b) == 256 * b[0] as int + b[1] as int;
  }

  /** The client's header starts with "FRAM", version 1 and length 36. */
  lemma WireStart(m: Meta)
    ensures HeaderBytes(m)[..8] == [0x46, 0x52, 0x41, 0x4D, 0, 1, 0, 36]
  {
    FieldsOf(m);
    assert Be(1, 2) == [0, 1] && Be(36, 2) == [0, 36];
    hide Be, Packed;
    var b := HeaderBytes(m);
    assert b[..8] == b[..4] + b[4..6] + b[6..8];
  }

  lemma PackedParts(a: seq<byte>, b: seq<byte>, c: seq<byte>, d: seq<byte>, e: seq<byte>,
                    f: seq<byte>, g: seq<byte>, h: seq<byte>, i: seq<byte>)
    requires |a| == 4 && |b| == 2 && |c| == 2 && |d| == 8 && |e| == 8 && |f| == 4 && |g| == 4 && |h| == 2 && |i| == 2
    ensures var p := Packed(a, b, c, d, e, f, g, h, i);
      && |p| == FRAME_HEADER_SIZE
      && p[..4] == a && p[4..6] == b && p[6..8] == c && p[8..16] == d && p[16..24] == e
      && p[24..28] == f && p[28..32] == g && p[32..34] == h && p[34..36] == i
  {
  }

  lemma FieldsOf(m: Meta)
    ensures var b := HeaderBytes(m);
      && b[..4] == PROTO_MAGIC && b[4..6] == Be(PROTO_VERSION, 2) && b[6..8] == Be(FRAME_HEADER_SIZE, 2)
      && b[8..16] == Be(m.seqNo, 8) && b[16..24] == Be(m.timestamp, 8) && b[24..28] == Be(m.len, 4)
      && b[28..32] == Be(m.pixelFormat, 4) && b[32..34] == Be(m.width, 2) && b[34..36] == Be(m.height, 2)
  {
    PackedParts(PROTO_MAGIC, Be(PROTO_VERSION, 2), Be(FRAME_HEADER_SIZE, 2), Be(m.seqNo, 8), Be(m.timestamp, 8),
                Be(m.len, 4), Be(m.pixelFormat, 4), Be(m.width, 2), Be(m.height, 2));
    hide Be, Packed;
  }

  lemma Word64Swaps(b: seq<byte>)
    requires |b| == 8
    ensures Htonll(Word64(b)) == Swap(FromLe(b), 8)
  {
    HtonllIsFullReversal(Word64(b));
  }

  /** For all field values the server's decoding inverts the client's encoding, and the header passes its tests. */
  lemma ServerReadsClientHeader(m: Meta)
    requires InRange(m)
    ensures DecodeHeader(HeaderBytes(m)) == m
    ensures CheckHeader(HeaderBytes(m)) == if m.len > SERVER_MAX_PAYLOAD then TooLarge else Accepted
  {
    var b := HeaderBytes(m);
    FieldWidths();
    FieldsOf(m);
    SwapReadsBe(PROTO_VERSION, 2);
    Word64Swaps(b[8..16]);
    Word64Swaps(b[16..24]);
    SwapReadsBe(m.seqNo, 8);
    SwapReadsBe(m.timestamp, 8);
    SwapReadsBe(m.len, 4);
    SwapReadsBe(m.pixelFormat, 4);
    SwapReadsBe(m.width, 2);
    SwapReadsBe(m.height, 2);
  }

  /** Whatever header the server accepts, encoding the fields it decoded gives back the same bytes, except for the
      header_len field it never checks. */
  lemma AcceptedHeaderReencodes(b: seq<byte>)
    requires |b| == FRAME_HEADER_SIZE && CheckHeader(b) == Accepted
    ensures var e := HeaderBytes(DecodeHeader(b)); e[..6] == b[..6] && e[8..] == b[8..]
  {
    var m := DecodeHeader(b);
    DecodedFields(b);
    FieldsOf(m);
    hide Le, Be, Swap, FromLe, HeaderBytes, Htonll, Word64, Packed, DecodeHeader, PayloadLen;
    BeOfSwap(b[4..6]);
    SameParts(HeaderBytes(m), b);
  }

  /** Each decoded field, converted back, is the field's bytes. */
  lemma DecodedFields(b: seq<byte>)
    requires |b| == FRAME_HEADER_SIZE
    ensures var m := DecodeHeader(b);
      && Be(m.seqNo, 8) == b[8..16] && Be(m.timestamp, 8) == b[16..24] && Be(m.len, 4) == b[24..28]
      && Be(m.pixelFormat, 4) == b[28..32] && Be(m.width, 2) == b[32..34] && Be(m.height, 2) == b[34..36]
  {
    Word64Swaps(b[8..16]);
    Word64Swaps(b[16..24]);
    hide Le, Be, Swap, FromLe, Htonll, Word64;
    BeOfSwap(b[8..16]);
    BeOfSwap(b[16..24]);
    BeOfSwap(b[24..28]);
    BeOfSwap(b[28..32]);
    BeOfSwap(b[32..34]);
    BeOfSwap(b[34..36]);
  }

  lemma SameParts(e: seq<byte>, b: seq<byte>)
    requires |e| == |b| == FRAME_HEADER_SIZE && e[..4] == b[..4] && e[4..6] == b[4..6]
    requires e[8..16] == b[8..16] && e[16..24] == b[16..24] && e[24..28] == b[24..28] && e[28..32] == b[28..32]
    requires e[32..34] == b[32..34] && e[34..36] == b[34..36]
    ensures e[..6] == b[..6] && e[8..] == b[8..]
  {
    SevenParts(e);
    SevenParts(b);
  }

  lemma SevenParts(b: seq<byte>)
    requires |b| == FRAME_HEADER_SIZE
    ensures b[..6] == b[..4] + b[4..6]
    ensures b[8..] == b[8..16] + b[16..24] + b[24..28] + b[28..32] + b[32..34] + b[34..36]
  {
  }

  // ---- FourCC names ----

  /** The character buffer the shift-and-mask statements fill. */
  function FourCc(x: u32): seq<nat> {
    [And(Shr(x, 0), 0xFF), And(Shr(x, 8), 0xFF), And(Shr(x, 16), 0xFF), And(Shr(x, 24), 0xFF)]
  }

  lemma ByteOf(x: nat, k: nat, p: nat)
    requires p == Pow2(k)
    ensures And(Shr(x, k), 0xFF) == (x / p) % 256
  {
    Pow2Values();
    ShrIsDiv(x, k);
    AndMask(Shr(x, k), 8);
    LowIsMod(Shr(x, k), 8);
  }

  /** The buffer holds the word's four bytes in memory order. */
  lemma FourCcIsMemory(x: u32)
    ensures FourCc(x) == Le(x, 4)
  {
    Pow2Values();
    hide And, Shr, Le, Pow2;
    assert Pow2(0) == 1 by { Pow2Zero(); }
    ByteOf(x, 0, 1);
    ByteOf(x, 8, 0x100);
    ByteOf(x, 16, 0x1_0000);
    ByteOf(x, 24, 0x100_0000);
    LeFour(x);
  }

  lemma Pow2Zero()
    ensures Pow2(0) == 1
  {
  }

  /** Different codes give different names. */
  lemma FourCcInjective(x: u32, y: u32)
    requires FourCc(x) == FourCc(y)
    ensures x == y
  {
    FourCcIsMemory(x);
    FourCcIsMemory(y);
    FieldWidths();
    FromLeLe(x, 4);
    FromLeLe(y, 4);
  }

  lemma LeFour(x: u32)
    ensures Le(x, 4) == [x % 256, (x / 0x100) % 256, (x / 0x1_0000) % 256, (x / 0x100_0000) % 256]
  {
    var x1, x2, x3 := x / 0x100, x / 0x1_0000, x / 0x100_0000;
    DivSteps(x);
    LeUnfold(x3, 1);
    LeUnfold(x2, 2);
    LeUnfold(x1, 3);
    LeUnfold(x, 4);
    hide Le;
    assert Le(x3 / 256, 0) == [];
  }

  lemma LeUnfold(x: nat, n: nat)
    requires n > 0
    ensures Le(x, n) == [x % 256] + Le(x / 256, n - 1)
  {
  }

  lemma DivSteps(x: u32)
    ensures x / 0x100 / 256 == x / 0x1_0000 && x / 0x1_0000 / 256 == x / 0x100_0000
  {
  }
}
