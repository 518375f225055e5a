/** Words in memory: little-endian and big-endian byte sequences and the host/network conversions. */
module ByteOrder {
  import opened Bits

  type byte = x: int | 0 <= x < 256
  type u16 = x: int | 0 <= x < 0x1_0000
  type u32 = x: int | 0 <= x < 0x1_0000_0000
  type u64 = x: int | 0 <= x < 0x1_0000_0000_0000_0000

  function Pow256(n: nat): (p: nat)
    ensures p > 0
  {
    if n == 0 then 1 else 256 * Pow256(n - 1)
  }

  /** The n low-order bytes of x as a little-endian host stores them. */
  function Le(x: nat, n: nat): (b: seq<byte>)
    ensures |b| == n
  {
    if n == 0 then [] else [x % 256] + Le(x / 256, n - 1)
  }

  /** The word a little-endian host reads from memory. */
  function FromLe(b: seq<byte>): nat {
    if b == [] then 0 else b[0] + 256 * FromLe(b[1..])
  }

  /** The n low-order bytes of x, most significant first: network byte order. */
  function Be(x: nat, n: nat): (b: seq<byte>)
    ensures |b| == n
  {
    if n == 0 then [] else Be(x / 256, n - 1) + [x % 256]
  }

  function Reverse<T>(s: seq<T>): (r: seq<T>)
    ensures |r| == |s|
    ensures forall i :: 0 <= i < |s| ==> r[i] == s[|s| - 1 - i]
  {
    if s == [] then [] else Reverse(s[1..]) + [s[0]]
  }

  /** htons (n = 2) and htonl (n = 4) on a little-endian host, and their inverses ntohs and ntohl. */
  function Swap(x: nat, n: nat): nat { FromLe(Reverse(Le(x, n))) }

  /** The 64-bit conversion the program builds from two 32-bit ones. */
  function Htonll(v: u64): nat {
    Or(Shl(Swap(And(v, 0xFFFF_FFFF), 4), 32), Swap(Shr(v, 32), 4))
  }

  lemma {:induction false} FromLeBound(b: seq<byte>)
    ensures FromLe(b) < Pow256(|b|)
  {
    if b != [] { FromLeBound(b[1..]); }
  }

  lemma {:induction false} FromLeLe(x: nat, n: nat)
    requires x < Pow256(n)
    ensures FromLe(Le(x, n)) == x
  {
    if n > 0 {
      FromLeLe(x / 256, n - 1);
      assert Le(x, n)[1..] == Le(x / 256, n - 1);
    }
  }

  lemma {:induction false} LeFromLe(b: seq<byte>)
    ensures Le(FromLe(b), |b|) == b
  {
    if b != [] {
      LeFromLe(b[1..]);
      assert b == [b[0]] + b[1..];
    }
  }

  lemma {:induction false} ReverseLe(x: nat, n: nat)
    ensures Reverse(Le(x, n)) == Be(x, n)
  {
    if n > 0 {
      ReverseLe(x / 256, n - 1);
      assert Le(x, n)[1..] == Le(x / 256, n - 1);
    }
  }

  lemma {:induction false} FromLeConcat(a: seq<byte>, b: seq<byte>)
    ensures FromLe(a + b) == FromLe(a) + Pow256(|a|) * FromLe(b)
  {
    if a == [] {
      assert a + b == b;
    } else {
      FromLeConcat(a[1..], b);
      assert (a + b)[1..] == a[1..] + b;
      assert Pow256(|a|) * FromLe(b) == 256 * (Pow256(|a| - 1) * FromLe(b));
    }
  }

  lemma ReverseTwice<T>(s: seq<T>)
    ensures Reverse(Reverse(s)) == s
  {
  }

  lemma ReverseConcat<T>(a: seq<T>, b: seq<T>)
    ensures Reverse(a + b) == Reverse(b) + Reverse(a)
  {
  }

  /** What the swapped word looks like in memory: the original value, most significant byte first. */
  lemma SwapInMemory(x: nat, n: nat)
    ensures Le(Swap(x, n), n) == Be(x, n)
    ensures Swap(x, n) < Pow256(n)
  {
    LeFromLe(Reverse(Le(x, n)));
    FromLeBound(Reverse(Le(x, n)));
    ReverseLe(x, n);
  }

  /** Swapping twice is the identity on n-byte words. */
  lemma SwapTwice(x: nat, n: nat)
    requires x < Pow256(n)
    ensures Swap(Swap(x, n), n) == x
  {
    SwapInMemory(x, n);
    ReverseLe(x, n);
    ReverseTwice(Le(x, n));
    FromLeLe(x, n);
  }

  /** Reading a network-order field back: the host conversion recovers the value that was stored. */
  lemma SwapReadsBe(x: nat, n: nat)
    requires x < Pow256(n)
    ensures Swap(FromLe(Be(x, n)), n) == x
  {
    SwapInMemory(x, n);
    FromLeBound(Be(x, n));
    LeFromLe(Be(x, n));
    FromLeLe(Swap(x, n), n);
    SwapTwice(x, n);
  }

  /** Storing the host conversion of a field read from memory restores that memory. */
  lemma BeOfSwap(b: seq<byte>)
    ensures Be(Swap(FromLe(b), |b|), |b|) == b
  {
    var n := |b|;
    LeFromLe(b);
    FromLeBound(b);
    SwapTwice(FromLe(b), n);
    SwapInMemory(Swap(FromLe(b), n), n);
  }

  /** The two-halves construction equals one full reversal of the eight bytes. */
  lemma HtonllIsFullReversal(v: u64)
    ensures Htonll(v) == Swap(v, 8)
  {
    var m := Le(v, 8);
    var lo, hi := m[..4], m[4..];
    assert m == lo + hi;
    FromLeLe(v, 8);
    FromLeConcat(lo, hi);
    FromLeBound(lo);
    Pow2Values();
    assert Pow256(4) == Pow2(32);
    DivModUnique(v, Pow2(32), FromLe(hi), FromLe(lo));
    AndMask(v, 32);
    LowIsMod(v, 32);
    ShrIsDiv(v, 32);
    assert And(v, 0xFFFF_FFFF) == FromLe(lo) && Shr(v, 32) == FromLe(hi);
    LeFromLe(lo);
    LeFromLe(hi);
    FromLeBound(Reverse(hi));
    OrDisjoint(FromLe(Reverse(lo)), FromLe(Reverse(hi)), 32);
    ReverseConcat(lo, hi);
    FromLeConcat(Reverse(hi), Reverse(lo));
  }

  /** htonll is its own inverse (the program's ntohll is the same function) and stores v big-endian. */
  lemma HtonllInvolution(v: u64)
    ensures Htonll(v) < 0x1_0000_0000_0000_0000
    ensures Htonll(Htonll(v)) == v
    ensures Le(Htonll(v), 8) == Be(v, 8)
  {
    assert Pow256(8) == 0x1_0000_0000_0000_0000;
    HtonllIsFullReversal(v);
    SwapInMemory(v, 8);
    HtonllIsFullReversal(Htonll(v));
    SwapTwice(v, 8);
  }
}
