/** Frames and the byte layout of the queue's slots in one flat memory region. */
module SlotLayout {
  import opened Bits
  import opened ByteOrder

  /** What one call of push is given: metadata and the payload bytes. */
  datatype Frame = Frame(seqNo: u64, timestamp: u64, pixelFormat: u32, width: u16, height: u16, payload: seq<byte>)

  /** The metadata pop reads back from a slot header. */
  datatype Meta = Meta(seqNo: nat, timestamp: nat, pixelFormat: nat, width: nat, height: nat, len: nat)

  const SLOT_HEADER_SIZE: nat := 28

  /** The largest payload of the program's queue: 4 MiB. */
  const MAX_FRAME_SIZE: nat := 4 * 1024 * 1024

  function MetaOf(f: Frame): Meta {
    Meta(f.seqNo, f.timestamp, f.pixelFormat, f.width, f.height, |f.payload|)
  }

  /** The packed slot header as it lies in memory. */
  function SlotHeader(f: Frame): (b: seq<byte>)
    ensures |b| == SLOT_HEADER_SIZE
  {
    Le(f.seqNo, 8) + Le(f.timestamp, 8) + Le(f.pixelFormat, 4) + Le(f.width, 2) + Le(f.height, 2) + Le(|f.payload|, 4)
  }

  /** All bytes push stores for a frame: header, then payload. */
  function Image(f: Frame): (b: seq<byte>)
    ensures |b| == SLOT_HEADER_SIZE + |f.payload|
  {
    SlotHeader(f) + f.payload
  }

  function ReadHeader(b: seq<byte>): Meta
    requires |b| == SLOT_HEADER_SIZE
  {
    Meta(FromLe(b[..8]), FromLe(b[8..16]), FromLe(b[16..20]), FromLe(b[20..22]), FromLe(b[22..24]), FromLe(b[24..28]))
  }

  /** The header of a stored frame reads back as that frame's metadata. */
  lemma HeaderReadsBack(f: Frame)
    requires |f.payload| < 0x1_0000_0000
    ensures ReadHeader(SlotHeader(f)) == MetaOf(f)
  {
    var b := SlotHeader(f);
    assert b[..8] == Le(f.seqNo, 8);
    assert b[8..16] == Le(f.timestamp, 8);
    assert b[16..20] == Le(f.pixelFormat, 4);
    assert b[20..22] == Le(f.width, 2);
    assert b[22..24] == Le(f.height, 2);
    assert b[24..28] == Le(|f.payload|, 4);
    assert Pow256(2) == 0x1_0000 && Pow256(4) == 0x1_0000_0000 && Pow256(8) == 0x1_0000_0000_0000_0000;
    FromLeLe(f.seqNo, 8);
    FromLeLe(f.timestamp, 8);
    FromLeLe(f.pixelFormat, 4);
    FromLeLe(f.width, 2);
    FromLeLe(f.height, 2);
    FromLeLe(|f.payload|, 4);
  }

  /** Header plus largest payload, rounded up with `& ~63`; sizes are 64-bit words. */
  function CalcStride(maxFrameSize: nat): nat {
    And((SLOT_HEADER_SIZE + maxFrameSize + 63) % 0x1_0000_0000_0000_0000, 0x1_0000_0000_0000_0000 - 64)
  }

  lemma StrideValue(maxFrameSize: nat)
    requires SLOT_HEADER_SIZE + maxFrameSize + 63 < 0x1_0000_0000_0000_0000
    ensures CalcStride(maxFrameSize) == 64 * ((SLOT_HEADER_SIZE + maxFrameSize + 63) / 64)
  {
    var a := SLOT_HEADER_SIZE + maxFrameSize + 63;
    Pow2Values();
    AndAlign(a, 64, 6);
    LowIsMod(a, 6);
    hide And, Low, Pow2;
    assert a % 0x1_0000_0000_0000_0000 == a;
    assert a == 64 * (a / 64) + a % 64;
  }

  /** A slot is large enough for a header and a largest frame exactly if the sum does not wrap around. */
  lemma StrideCoversIff(maxFrameSize: u64)
    ensures CalcStride(maxFrameSize) >= SLOT_HEADER_SIZE + maxFrameSize
            <==> SLOT_HEADER_SIZE + maxFrameSize + 63 < 0x1_0000_0000_0000_0000
  {
    var sum := SLOT_HEADER_SIZE + maxFrameSize + 63;
    if sum < 0x1_0000_0000_0000_0000 {
      StrideIsLeastMultiple(maxFrameSize);
    } else {
      var a := sum - 0x1_0000_0000_0000_0000;
      assert sum % 0x1_0000_0000_0000_0000 == a;
      Pow2Values();
      AndAlign(a, 64, 6);
    }
  }

  /** The mask computes the least multiple of the cache line that fits a header and a largest frame. */
  lemma StrideIsLeastMultiple(maxFrameSize: nat)
    requires SLOT_HEADER_SIZE + maxFrameSize + 63 < 0x1_0000_0000_0000_0000
    ensures CalcStride(maxFrameSize) % 64 == 0
    ensures CalcStride(maxFrameSize) >= SLOT_HEADER_SIZE + maxFrameSize
    ensures forall m: nat :: m % 64 == 0 && m >= SLOT_HEADER_SIZE + maxFrameSize ==> CalcStride(maxFrameSize) <= m
  {
    StrideValue(maxFrameSize);
  }

  /** A region with b stored at offset off: what a memcpy leaves behind. */
  function Overwrite(region: seq<byte>, off: nat, b: seq<byte>): (r: seq<byte>)
    requires off + |b| <= |region|
    ensures |r| == |region|
    ensures r[off..off + |b|] == b
    ensures forall x :: 0 <= x < |region| && !(off <= x < off + |b|) ==> r[x] == region[x]
  {
    region[..off] + b + region[off + |b|..]
  }

  lemma OverwriteTwice(region: seq<byte>, off: nat, a: seq<byte>, b: seq<byte>)
    requires off + |a| + |b| <= |region|
    ensures Overwrite(Overwrite(region, off, a), off + |a|, b) == Overwrite(region, off, a + b)
  {
  }

  function SlotStart(i: nat, stride: nat): nat { i * stride }

  /** Slot i of the region starts with the bytes img. */
  predicate Stored(region: seq<byte>, stride: nat, i: nat, img: seq<byte>) {
    && |img| <= stride
    && SlotStart(i, stride) + stride <= |region|
    && region[SlotStart(i, stride)..SlotStart(i, stride) + |img|] == img
  }

  /** Storing the next byte of an image. */
  lemma StoredOneMore(region: seq<byte>, stride: nat, i: nat, img: seq<byte>, k: nat)
    requires k < |img| <= stride && Stored(region, stride, i, img[..k])
    ensures Stored(region[SlotStart(i, stride) + k := img[k]], stride, i, img[..k + 1])
  {
    var start := SlotStart(i, stride);
    hide SlotStart;
    var r := region[start + k := img[k]];
    assert r[start..start + k + 1] == region[start..start + k] + [img[k]];
    assert img[..k + 1] == img[..k] + [img[k]];
  }

  lemma StoredByte(region: seq<byte>, stride: nat, i: nat, f: Frame, k: nat)
    requires Stored(region, stride, i, Image(f)) && k < |f.payload|
    ensures SlotStart(i, stride) + SLOT_HEADER_SIZE + k < |region|
    ensures region[SlotStart(i, stride) + SLOT_HEADER_SIZE + k] == f.payload[k]
  {
    var start := SlotStart(i, stride);
    assert region[start..start + |Image(f)|][SLOT_HEADER_SIZE + k] == Image(f)[SLOT_HEADER_SIZE + k];
  }

  /** Different slots do not overlap, and every slot lies inside the mapped region. */
  lemma SlotsDisjoint(i: nat, k: nat, stride: nat, capacity: nat)
    requires i < k < capacity
    ensures SlotStart(i, stride) + stride <= SlotStart(k, stride)
    ensures SlotStart(k, stride) + stride <= stride * capacity
  {
    MulAtLeast(k - i, stride);
    MulAtLeast(capacity - k, stride);
    assert SlotStart(k, stride) == SlotStart(i, stride) + (k - i) * stride;
    assert stride * capacity == SlotStart(k, stride) + (capacity - k) * stride;
  }

  lemma SlotInside(i: nat, stride: nat, capacity: nat)
    requires i < capacity
    ensures SlotStart(i, stride) + stride <= stride * capacity
  {
    MulAtLeast(capacity - i, stride);
    assert stride * capacity == SlotStart(i, stride) + (capacity - i) * stride;
  }

  /** Only the slot that starts at off differs. */
  ghost predicate SameOutside(region: seq<byte>, region': seq<byte>, off: nat, stride: nat) {
    && |region'| == |region|
    && forall x :: 0 <= x < |region| && !(off <= x < off + stride) ==> region'[x] == region[x]
  }

  /** A change confined to slot k leaves what any other slot stores unchanged. */
  lemma StoredElsewhere(region: seq<byte>, region': seq<byte>, stride: nat, i: nat, k: nat, img: seq<byte>)
    requires i != k && Stored(region, stride, i, img)
    requires SameOutside(region, region', SlotStart(k, stride), stride)
    ensures Stored(region', stride, i, img)
  {
    if i < k {
      SlotsDisjoint(i, k, stride, k + 1);
    } else {
      SlotsDisjoint(k, i, stride, i + 1);
    }
  }
}
