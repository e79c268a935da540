/** The sbrk heap as raw bytes, and the block headers that the allocator embeds in it.

    Layout of alloc_info_node_t for the i386 ABI (32-bit pointers and size_t):
    is_freed at offset 0, allocation_start_ptr at 4, size_of_allocation (long long)
    at 8, next at 16, prev at 20; 24 bytes in all.  Numbers are little-endian.
  */
module ByteHeap {

  const META: int := 24

  type byte = x: int | 0 <= x < 256
  type u32 = x: int | 0 <= x < 0x1_0000_0000
  type i64 = x: int | -0x8000_0000_0000_0000 <= x < 0x8000_0000_0000_0000

  datatype Header = Header(isFreed: bool, start: u32, size: i64, next: u32, prev: u32)

  // ---- numbers in bytes -----------------------------------------------------------

  function DecodeU32(b0: byte, b1: byte, b2: byte, b3: byte): u32 {
    b0 + 0x100 * b1 + 0x1_0000 * b2 + 0x100_0000 * b3
  }

  function ByteOf(v: u32, k: nat): byte
    requires k < 4
  {
    if k == 0 then v % 0x100
    else if k == 1 then v / 0x100 % 0x100
    else if k == 2 then v / 0x100 / 0x100 % 0x100
    else v / 0x100 / 0x100 / 0x100
  }

  lemma DecodeEncodeU32(v: u32)
    ensures DecodeU32(ByteOf(v, 0), ByteOf(v, 1), ByteOf(v, 2), ByteOf(v, 3)) == v
  {
    var q := v / 0x100;
    assert v == 0x100 * q + ByteOf(v, 0);
    assert q == 0x100 * (q / 0x100) + ByteOf(v, 1);
    assert q / 0x100 == 0x100 * (q / 0x100 / 0x100) + ByteOf(v, 2);
  }

  // A long long is two words; the upper one carries the sign.
  function DecodeI64(lo: u32, hi: u32): i64 {
    lo + 0x1_0000_0000 * (if hi < 0x8000_0000 then hi else hi - 0x1_0000_0000)
  }

  function LowWord(v: i64): u32 { v % 0x1_0000_0000 }

  function HighWord(v: i64): u32 { v / 0x1_0000_0000 % 0x1_0000_0000 }

  lemma DecodeEncodeI64(v: i64)
    ensures DecodeI64(LowWord(v), HighWord(v)) == v
  {
  }

  // ---- headers in bytes ---------------------------------------------------------------

  // Memory is the bytes from address 0 up to the current break.
  type Memory = seq<byte>

  function WordAt(m: Memory, a: nat): u32
    requires a + 4 <= |m|
  {
    DecodeU32(m[a], m[a + 1], m[a + 2], m[a + 3])
  }

  function HeaderAt(m: Memory, a: nat): Header
    requires a + META <= |m|
  {
    Header(m[a] != 0, WordAt(m, a + 4), DecodeI64(WordAt(m, a + 8), WordAt(m, a + 12)),
           WordAt(m, a + 16), WordAt(m, a + 20))
  }

  /** Where the fields of a header are, byte by byte, least significant byte first; the size is in two's
      complement. */
  lemma HeaderInBytes(m: Memory, a: nat, b: seq<int>)
    requires a + 24 <= |m| && b == m[a..a + 24]
    ensures HeaderAt(m, a).isFreed <==> b[0] != 0
    ensures HeaderAt(m, a).start == b[4] + 256 * b[5] + 65536 * b[6] + 16777216 * b[7]
    ensures var lo: int := b[8] + 256 * b[9] + 65536 * b[10] + 16777216 * b[11];
            var hi: int := b[12] + 256 * b[13] + 65536 * b[14] + 16777216 * b[15];
            HeaderAt(m, a).size == lo + 0x1_0000_0000 * (if b[15] < 128 then hi else hi - 0x1_0000_0000)
    ensures HeaderAt(m, a).next == b[16] + 256 * b[17] + 65536 * b[18] + 16777216 * b[19]
    ensures HeaderAt(m, a).prev == b[20] + 256 * b[21] + 65536 * b[22] + 16777216 * b[23]
  {
  }

  function PutWord(m: Memory, a: nat, v: u32): (m': Memory)
    requires a + 4 <= |m|
    ensures |m'| == |m| && WordAt(m', a) == v
    ensures forall i :: 0 <= i < |m| && !(a <= i < a + 4) ==> m'[i] == m[i]
  {
    DecodeEncodeU32(v);
    m[a := ByteOf(v, 0)][a + 1 := ByteOf(v, 1)][a + 2 := ByteOf(v, 2)][a + 3 := ByteOf(v, 3)]
  }

  // One field of the header at `a` given a new value, the other bytes left alone.
  function PutFreed(m: Memory, a: nat, v: bool): (m': Memory)
    requires a + META <= |m|
    ensures |m'| == |m| && HeaderAt(m', a) == HeaderAt(m, a).(isFreed := v)
    ensures forall i :: 0 <= i < |m| && i != a ==> m'[i] == m[i]
  {
    m[a := if v then 1 else 0]
  }

  function PutStart(m: Memory, a: nat, v: u32): (m': Memory)
    requires a + META <= |m|
    ensures |m'| == |m| && HeaderAt(m', a) == HeaderAt(m, a).(start := v)
    ensures forall i :: 0 <= i < |m| && !(a <= i < a + META) ==> m'[i] == m[i]
  {
    PutWord(m, a + 4, v)
  }

  function PutSize(m: Memory, a: nat, v: i64): (m': Memory)
    requires a + META <= |m|
    ensures |m'| == |m| && HeaderAt(m', a) == HeaderAt(m, a).(size := v)
    ensures forall i :: 0 <= i < |m| && !(a <= i < a + META) ==> m'[i] == m[i]
  {
    DecodeEncodeI64(v);
    PutWord(PutWord(m, a + 8, LowWord(v)), a + 12, HighWord(v))
  }

  function PutNext(m: Memory, a: nat, v: u32): (m': Memory)
    requires a + META <= |m|
    ensures |m'| == |m| && HeaderAt(m', a) == HeaderAt(m, a).(next := v)
    ensures forall i :: 0 <= i < |m| && !(a <= i < a + META) ==> m'[i] == m[i]
  {
    PutWord(m, a + 16, v)
  }

  function PutPrev(m: Memory, a: nat, v: u32): (m': Memory)
    requires a + META <= |m|
    ensures |m'| == |m| && HeaderAt(m', a) == HeaderAt(m, a).(prev := v)
    ensures forall i :: 0 <= i < |m| && !(a <= i < a + META) ==> m'[i] == m[i]
  {
    PutWord(m, a + 20, v)
  }

  // ---- the typed view of the headers ----------------------------------------------------

  // The bytes of a header determine it.
  lemma SameHeader(m: Memory, m': Memory, a: nat)
    requires a + META <= |m| <= |m'|
    requires forall i :: a <= i < a + META ==> m'[i] == m[i]
    ensures HeaderAt(m', a) == HeaderAt(m, a)
  {
  }

  // Two headers do not overlap.
  predicate Apart(a: nat, b: nat) {
    a + META <= b || b + META <= a
  }

  ghost predicate OutsideHeaders(hdr: map<nat, Header>, i: int) {
    forall a :: a in hdr ==> !(a <= i < a + META)
  }

  // Decoding the bytes at the addresses of the view gives exactly the view.
  ghost predicate Embedded(m: Memory, base: nat, hdr: map<nat, Header>) {
    && (forall a :: a in hdr ==> base <= a && a + META <= |m|)
    && (forall a {:trigger HeaderAt(m, a)} :: a in hdr ==> HeaderAt(m, a) == hdr[a])
    && (forall a, b {:trigger Apart(a, b)} :: a in hdr && b in hdr && a != b ==> Apart(a, b))
  }

  // A store into one header leaves the other headers alone.
  lemma StoreKeepsEmbedded(m: Memory, m': Memory, base: nat, hdr: map<nat, Header>, a: nat, h: Header)
    requires Embedded(m, base, hdr) && a in hdr
    requires |m'| == |m| && forall i :: 0 <= i < |m| && !(a <= i < a + META) ==> m'[i] == m[i]
    requires HeaderAt(m', a) == h
    ensures Embedded(m', base, hdr[a := h])
  {
    forall b | b in hdr && b != a
      ensures HeaderAt(m', b) == hdr[b]
    {
      assert Apart(a, b);
      SameHeader(m, m', b);
    }
  }

  // So does a store outside all headers, or more memory.
  lemma OutsideKeepsEmbedded(m: Memory, m': Memory, base: nat, hdr: map<nat, Header>)
    requires Embedded(m, base, hdr) && |m| <= |m'|
    requires forall i :: 0 <= i < |m| && !OutsideHeaders(hdr, i) ==> m'[i] == m[i]
    ensures Embedded(m', base, hdr)
  {
    forall b | b in hdr
      ensures HeaderAt(m', b) == hdr[b]
    {
      forall i | b <= i < b + META ensures m'[i] == m[i] {
        assert !OutsideHeaders(hdr, i);
      }
      SameHeader(m, m', b);
    }
  }

  lemma FreshWord(m: Memory, a: int)
    ensures 0 <= a <= |m| - 4 && (forall i :: a <= i < a + 4 ==> m[i] == 0) ==> WordAt(m, a) == 0
  {
  }

  // One more byte copied by memcpy between two places that do not overlap.
  lemma CopyStep(m0: Memory, m: Memory, dst: nat, src: nat, k: nat)
    requires |m| == |m0| && dst + k < |m| && src + k < |m| && (src + k < dst || dst + k < src)
    requires m[dst..dst + k] == m0[src..src + k]
    requires forall a :: 0 <= a < |m| && !(dst <= a < dst + k) ==> m[a] == m0[a]
    ensures m[dst + k := m[src + k]][dst..dst + (k + 1)] == m0[src..src + (k + 1)]
  {
    var m1 := m[dst + k := m[src + k]];
    assert m1[dst..dst + k] == m[dst..dst + k];
    assert m1[dst..dst + (k + 1)] == m1[dst..dst + k] + [m1[dst + k]];
    assert m0[src..src + (k + 1)] == m0[src..src + k] + [m0[src + k]];
  }

  // A header written and then restored leaves the memory as it was when is_freed is the only
  // field touched: a header in use holds the byte 0 there.
  lemma SameAgain(m: Memory, m': Memory, base: nat, hdr: map<nat, Header>, p: nat)
    requires Embedded(m, base, hdr) && Embedded(m', base, hdr) && p in hdr && !hdr[p].isFreed
    requires |m'| == |m| && forall i :: 0 <= i < |m| && i != p ==> m'[i] == m[i]
    ensures m' == m
  {
    assert HeaderAt(m, p) == hdr[p] == HeaderAt(m', p);
    assert m[p] == 0 == m'[p];
  }
}
