/** The allocator: a class over the byte heap.  Every list operation works on headers stored
    in memory; the ghost field `blocks` is the sequence those headers represent. */
module CoalescingAllocator {
  import opened Common
  import opened ByteHeap
  import opened Blocks
  import opened BlockLemmas
  import opened Ring

  const MAX_SIZE: nat := 100000000

  // Pointers handed to the program; sbrk reports failure with (void*)-1.
  const NULL: int := 0
  const FAILED: int := -1

  // ---- what the four calls do to the list, and what they return --------------------------

  function RoundUp(size: nat): (r: nat)
    ensures r % 4 == 0 && size <= r < size + 4
  {
    if size % 4 != 0 then size + (4 - size % 4) else size
  }

  ghost predicate Room(bs: seq<Block>, brk: nat, limit: nat, req: nat, grant: bool) {
    grant && brk + Shortage(bs, req) <= limit
  }

  // A recycled payload that happens to start with the word -1.
  ghost predicate StartsWithMinusOne(m: Memory, bs: seq<Block>, k: nat) {
    k < |bs| && bs[k].Payload() + 4 <= |m| && WordAt(m, bs[k].Payload()) == 0xFFFF_FFFF
  }

  datatype Outcome = Outcome(bs: seq<Block>, ptr: int)

  // A recycled block whose payload starts with -1 is taken for a failure of sbrk.
  ghost function AfterMalloc(m: Memory, bs: seq<Block>, base: nat, size: nat, limit: nat, grant: bool): Outcome
    requires Inv(bs, base, |m|)
  {
    if size == 0 || size > MAX_SIZE then Outcome(bs, NULL) else
    var req := RoundUp(size);
    var room := Room(bs, |m|, limit, req, grant);
    AllocateKeeps(bs, base, |m|, req, room);
    var served := Allocate(bs, base, req, room);
    Outcome(served.bs, if served.at.None? || StartsWithMinusOne(m, bs, served.at.value) then NULL
                       else served.bs[served.at.value].Payload())
  }

  lemma AfterMallocKeeps(m: Memory, bs: seq<Block>, base: nat, size: nat, limit: nat, grant: bool)
    requires Inv(bs, base, |m|)
    ensures Keeps(bs, AfterMalloc(m, bs, base, size, limit, grant).bs, -1)
  {
    if 0 < size <= MAX_SIZE {
      var req := RoundUp(size);
      AllocateKeeps(bs, base, |m|, req, Room(bs, |m|, limit, req, grant));
    }
  }

  // The block behind a pointer that malloc returns: in use, big enough, little waste, and
  // at an address where no block was in use before.
  lemma AfterMallocBlock(m: Memory, bs: seq<Block>, base: nat, size: nat, limit: nat, grant: bool)
      returns (k: nat)
    requires Inv(bs, base, |m|)
    ensures var out := AfterMalloc(m, bs, base, size, limit, grant);
            out.ptr == NULL ||
              (&& PointsTo(out.bs, k, out.ptr) && !out.bs[k].free
               && RoundUp(size) <= out.bs[k].size < RoundUp(size) + META + REMAIN
               && forall c :: c in bs && !c.free ==> c.addr != out.bs[k].addr)
  {
    k := 0;
    if 0 < size <= MAX_SIZE {
      var req := RoundUp(size);
      var room := Room(bs, |m|, limit, req, grant);
      AllocateKeeps(bs, base, |m|, req, room);
      var served := Allocate(bs, base, req, room);
      if served.at.Some? {
        k := served.at.value;
      }
    }
  }

  // The block i in use asked to hold `size` bytes.
  ghost function AfterRealloc(m: Memory, bs: seq<Block>, base: nat, i: nat, size: nat, limit: nat, grant: bool): Outcome
    requires Inv(bs, base, |m|) && i < |bs| && !bs[i].free
  {
    if size == 0 || size > MAX_SIZE then Outcome(bs, NULL) else
    var req := RoundUp(size);
    var here := bs[i].Payload();
    if bs[i].size >= req then
      Outcome(Trim(bs, i, req), here)
    else if CanAbsorb(bs, i, req) then
      Outcome(Trim(Merge(bs, i), i, req), here)
    else if i == |bs| - 1 then
      if grant && |m| + (req - bs[i].size) <= limit then Outcome(Grow(bs, req), here) else Outcome(bs, FAILED)
    else
      var moved := AfterMalloc(m, bs, base, req, limit, grant);
      if moved.ptr == NULL then moved else Outcome(ReleaseAt(moved.bs, bs[i].addr), moved.ptr)
  }

  lemma AfterReallocRounds(m: Memory, bs: seq<Block>, base: nat, i: nat, size: nat, limit: nat, grant: bool)
    requires Inv(bs, base, |m|) && i < |bs| && !bs[i].free && 0 < size <= MAX_SIZE
    ensures RoundUp(size) <= MAX_SIZE
    ensures AfterRealloc(m, bs, base, i, size, limit, grant)
            == AfterRealloc(m, bs, base, i, RoundUp(size), limit, grant)
  {
    assert RoundUp(RoundUp(size)) == RoundUp(size);
  }

  predicate CanAbsorb(bs: seq<Block>, i: nat, req: nat)
    requires i < |bs|
  {
    i + 1 < |bs| && bs[i + 1].free && bs[i].size + META + bs[i + 1].size >= req
  }

  // A block in use gives back what it does not need, if that is worth a block.
  function Trim(bs: seq<Block>, i: nat, req: nat): seq<Block>
    requires i < |bs| && req <= bs[i].size
  {
    if Worthwhile(bs[i].size, req) then Split(bs, i, req) else bs
  }

  function ReleaseAt(bs: seq<Block>, a: nat): seq<Block> {
    var j := IndexOf(bs, a);
    if j == |bs| then bs else Release(bs, j)
  }

  lemma TrimKeeps(bs: seq<Block>, base: nat, brk: nat, i: nat, req: nat)
    requires Inv(bs, base, brk) && i < |bs| && !bs[i].free
    requires 0 < req <= bs[i].size && req % 4 == 0
    ensures var ts := Trim(bs, i, req);
            && Inv(ts, base, brk) && Keeps(bs, ts, bs[i].addr)
            && i < |ts| && ts[i].addr == bs[i].addr && !ts[i].free
            && req <= ts[i].size < req + META + REMAIN
  {
    if Worthwhile(bs[i].size, req) {
      SplitKeeps(bs, base, brk, i, req);
    }
  }

  // The three strategies that leave a block where it is.
  lemma StaysInPlace(bs: seq<Block>, base: nat, brk: nat, i: nat, req: nat)
    requires Inv(bs, base, brk) && i < |bs| && !bs[i].free && 0 < req && req % 4 == 0
    ensures bs[i].size >= req ==> KeptAt(bs, Trim(bs, i, req), base, brk, i, req)
    ensures bs[i].size < req && CanAbsorb(bs, i, req) ==>
              KeptAt(bs, Trim(Merge(bs, i), i, req), base, brk, i, req)
    ensures bs[i].size < req && i == |bs| - 1 ==>
              KeptAt(bs, Grow(bs, req), base, brk + (req - bs[i].size), i, req)
  {
    if bs[i].size >= req {
      TrimKeeps(bs, base, brk, i, req);
    } else if CanAbsorb(bs, i, req) {
      AbsorbKeeps(bs, base, brk, i);
      MergeAt(bs, i);
      TrimKeeps(Merge(bs, i), base, brk, i, req);
    } else if i == |bs| - 1 {
      GrowKeeps(bs, base, brk, req);
    }
  }

  // The new list still has block i, in use, with at least `req` bytes and little waste, and
  // every other block in use.
  ghost predicate KeptAt(bs: seq<Block>, bs': seq<Block>, base: nat, brk: nat, i: nat, req: nat)
    requires i < |bs|
  {
    && Inv(bs', base, brk) && Keeps(bs, bs', bs[i].addr)
    && i < |bs'| && bs'[i].addr == bs[i].addr && !bs'[i].free
    && req <= bs'[i].size < req + META + REMAIN
  }

  // n bytes found at p in m are at p' in m'.
  ghost predicate HoldsCopy(m: Memory, m': Memory, p: int, p': int, n: nat) {
    && 0 < p && p + n <= |m| && 0 < p' && p' + n <= |m'|
    && m'[p'..p' + n] == m[p..p + n]
  }

  lemma TiledIndexOf(bs: seq<Block>, base: nat, brk: nat, j: nat)
    requires Tiled(bs, base, brk) && j < |bs|
    ensures IndexOf(bs, bs[j].addr) == j
  {
    forall i | 0 <= i < j ensures bs[i].addr != bs[j].addr {
      Before(bs, base, brk, i, j);
    }
    IndexOfFinds(bs, bs[j].addr, j);
  }

  function Min(a: nat, b: nat): nat {
    if a < b then a else b
  }

  // A strategy that keeps block i where it is keeps its bytes, up to the smaller size.
  lemma InPlaceKept(m: Memory, hdr: map<nat, Header>, bs: seq<Block>, i: nat,
                    m': Memory, hdr': map<nat, Header>, bs': seq<Block>, base: nat, req: nat)
    requires Untouched(m, hdr, m', hdr') && 0 < base
    requires Linked(hdr, bs) && Tiled(bs, base, |m|) && i < |bs|
    requires Linked(hdr', bs') && KeptAt(bs, bs', base, |m'|, i, req)
    ensures Undisturbed(m, bs, m', bs', bs[i].addr)
    ensures HoldsCopy(m, m', bs[i].Payload(), bs[i].Payload(), Min(bs[i].size, req))
  {
    UntouchedUndisturbed(m, hdr, bs, m', hdr', bs', base, bs[i].addr);
    var p := bs[i].Payload();
    Within(bs', base, |m'|, i);
    PayloadKept(m, hdr, bs, i, m', hdr', bs', i, base, p, p + Min(bs[i].size, req));
  }

  ghost predicate UndisturbedButTwo(m: Memory, bs: seq<Block>, m': Memory, bs': seq<Block>, a: nat, b: nat) {
    |m| <= |m'| &&
    forall c :: c in bs && !c.free && c.addr != a && c.addr != b ==>
      c in bs' && c.End() <= |m| && m'[c.Payload()..c.End()] == m[c.Payload()..c.End()]
  }

  lemma TwoAddresses(bs: seq<Block>, base: nat, brk: nat, j: nat, k: nat)
    requires Tiled(bs, base, brk) && j < |bs| && k < |bs| && j != k
    ensures bs[j].addr != bs[k].addr && bs[k].End() <= brk && bs[j].End() <= brk
  {
    if j < k { Before(bs, base, brk, j, k); } else { Before(bs, base, brk, k, j); }
    Within(bs, base, brk, j);
    Within(bs, base, brk, k);
  }

  // Block j copied into block k and then freed: the copy stays, and so do all other blocks.
  lemma CopyFreeUndisturbed(m: Memory, bs: seq<Block>, m2: Memory, m3: Memory, bs3: seq<Block>,
                            j: nat, k: nat, p: int, ptr: int)
    requires PointsTo(bs, j, p) && PointsTo(bs, k, ptr) && bs[j].addr != bs[k].addr
    requires !bs[k].free && bs[j].size <= bs[k].size
    requires bs[k].End() <= |m| == |m2| && bs[j].End() <= |m|
    requires m2[ptr..ptr + bs[j].size] == m[p..p + bs[j].size]
    requires Undisturbed(m, bs, m2, bs, bs[k].addr) && Undisturbed(m2, bs, m3, bs3, p - META)
    ensures HoldsCopy(m, m3, p, ptr, bs[j].size)
    ensures UndisturbedButTwo(m, bs, m3, bs3, bs[j].addr, bs[k].addr)
  {
    assert m2[ptr..ptr + bs[j].size] == m2[ptr..bs[k].End()][..bs[j].size];
    assert m3[ptr..ptr + bs[j].size] == m3[ptr..bs[k].End()][..bs[j].size];
  }

  // malloc, copy and free in a row: the old block's bytes are in the new block, and every
  // block but the old one is undisturbed.
  lemma MoveUndisturbed(m: Memory, bs: seq<Block>, m1: Memory, bs1: seq<Block>, m3: Memory, bs3: seq<Block>,
                        mint: nat, b: Block, p: int, ptr: int)
    requires Undisturbed(m, bs, m1, bs1, -1) && UndisturbedButTwo(m1, bs1, m3, bs3, b.addr, mint)
    requires forall c :: c in bs && !c.free ==> c.addr != mint
    requires b in bs && !b.free && p == b.Payload() && HoldsCopy(m1, m3, p, ptr, b.size)
    ensures Undisturbed(m, bs, m3, bs3, b.addr)
    ensures HoldsCopy(m, m3, p, ptr, b.size)
  {
    assert m1[p..p + b.size] == m1[b.Payload()..b.End()];
  }

  ghost predicate PointsTo(bs: seq<Block>, i: nat, p: int) {
    i < |bs| && bs[i].Payload() == p
  }

  // What finding a block in the list, or at its free end, makes of the request.
  lemma Recycled(m: Memory, bs: seq<Block>, base: nat, req: nat, limit: nat, grant: bool, bs': seq<Block>, ptr: int)
      returns (k: nat)
    requires Inv(bs, base, |m|) && bs != [] && 0 < req <= MAX_SIZE && req % 4 == 0
    requires FirstFit(bs, req).Some? ==>
               bs' == Place(bs, FirstFit(bs, req).value, req) && ptr == bs[FirstFit(bs, req).value].Payload()
    requires FirstFit(bs, req).None? ==>
               bs[|bs| - 1].free &&
               if grant && |m| + Shortage(bs, req) <= limit
               then ptr == bs[|bs| - 1].Payload() && bs' == Grow(bs, req)
               else ptr == FAILED && bs' == bs
    ensures ptr != FAILED ==>
              k < |bs| && k < |bs'| && bs[k].addr == bs'[k].addr && ptr == bs[k].Payload() && ptr + 4 <= |m|
    ensures AfterMalloc(m, bs, base, req, limit, grant)
            == Outcome(bs', if ptr == FAILED || WordAt(m, ptr) == 0xFFFF_FFFF then NULL else ptr)
  {
    k := if FirstFit(bs, req).Some? then FirstFit(bs, req).value else |bs| - 1;
    Within(bs, base, |m|, k);
    if FirstFit(bs, req).Some? {
      PlaceKeeps(bs, base, |m|, k, req);
    }
  }

  // The first word of a block that keeps its place is not written by the list operations.
  lemma FirstWordKept(m: Memory, hdr: map<nat, Header>, bs: seq<Block>,
                      m': Memory, hdr': map<nat, Header>, bs': seq<Block>, base: nat, k: nat)
    requires Untouched(m, hdr, m', hdr')
    requires Linked(hdr, bs) && Inv(bs, base, |m|) && k < |bs|
    requires Linked(hdr', bs') && Inv(bs', base, |m'|) && k < |bs'| && bs'[k].addr == bs[k].addr
    ensures bs[k].Payload() + 4 <= |m|
    ensures WordAt(m', bs[k].Payload()) == WordAt(m, bs[k].Payload())
  {
    var p := bs[k].Payload();
    PayloadKept(m, hdr, bs, k, m', hdr', bs', k, base, p, p + 4);
    assert forall i :: p <= i < p + 4 ==> m'[i] == m'[p..p + 4][i - p] == m[p..p + 4][i - p] == m[i];
  }

  class Allocator {
    const base: nat    // where the break started
    const limit: nat   // where the address space of the heap ends
    var mem: Memory

    var firstAlloc: bool
    var head: u32
    var numFreeBlocks: int
    var numFreeBytes: int
    var numAllocatedBlocks: int
    var numAllocatedBytes: int
    var numMetaDataBlocks: int

    ghost var hdr: map<nat, Header>
    ghost var blocks: seq<Block>

    // ---- invariants ---------------------------------------------------------------------

    ghost predicate Stored()
      reads this`mem, this`hdr
    {
      0 < base <= |mem| <= limit < 0x1_0000_0000 && Embedded(mem, base, hdr)
    }

    // The headers form one ring, in address order, of blocks that tile the heap.
    ghost predicate Shape()
      reads this`mem, this`hdr, this`blocks, this`head, this`firstAlloc
    {
      && Stored()
      && Linked(hdr, blocks) && Tiled(blocks, base, |mem|) && Sized(blocks)
      && (firstAlloc <==> blocks == [])
      && (!firstAlloc ==> head == base)
    }

    // The incremental statistics agree with a recount of the list.
    ghost predicate Counted()
      reads this
    {
      && Recount(blocks) == Stats(numAllocatedBlocks, numAllocatedBytes, numFreeBlocks, numFreeBytes)
      && numMetaDataBlocks == numAllocatedBlocks
    }

    ghost predicate Valid()
      reads this
    {
      Shape() && Counted() && NoAdjacentFree(blocks)
    }

    constructor (start: nat, end: nat)
      requires 0 < start <= end < 0x1_0000_0000
      ensures Valid() && blocks == [] && base == |mem| == start && limit == end
    {
      base, limit := start, end;
      mem := seq(start, _ => 0);
      firstAlloc, head := true, 0;
      numFreeBlocks, numFreeBytes, numAllocatedBlocks, numAllocatedBytes, numMetaDataBlocks := 0, 0, 0, 0, 0;
      hdr, blocks := map[], [];
    }

    // ---- memory -------------------------------------------------------------------------

    method Sbrk(increment: nat, grant: bool) returns (p: int)
      requires Stored()
      modifies this`mem
      ensures Stored()
      ensures p == if grant && old(|mem|) + increment <= limit then old(|mem|) else FAILED
      ensures if p == FAILED then mem == old(mem)
              else |mem| == |old(mem)| + increment && Untouched(old(mem), hdr, mem, hdr)
                   && forall i :: |old(mem)| <= i < |mem| ==> mem[i] == 0
    {
      if grant && |mem| + increment <= limit {
        p := |mem|;
        mem := mem + seq(increment, _ => 0);
        OutsideKeepsEmbedded(old(mem), mem, base, hdr);
      } else {
        p := FAILED;
      }
    }

    // The test *(int*)p == -1.  On the failure value of sbrk it stands for the comparison
    // with that value; on any other pointer it reads the word stored there.
    method LooksFailed(p: int) returns (failed: bool)
      requires p == FAILED || 0 <= p <= |mem| - 4
      ensures failed == (p == FAILED || WordAt(mem, p) == 0xFFFF_FFFF)
      ensures failed && p != FAILED ==> exists i :: p <= i < p + 4 && mem[i] != 0
    {
      FreshWord(mem, p);
      failed := p == FAILED || WordAt(mem, p) == 0xFFFF_FFFF;
    }

    method Load(a: nat) returns (h: Header)
      requires Stored() && a in hdr
      ensures h == hdr[a]
    {
      h := HeaderAt(mem, a);
    }

    method StoreFreed(a: nat, v: bool)
      requires Stored() && a in hdr
      modifies this`mem, this`hdr
      ensures Stored() && |mem| == |old(mem)|
      ensures hdr == old(hdr)[a := old(hdr)[a].(isFreed := v)]
      ensures forall i :: 0 <= i < |mem| && i != a ==> mem[i] == old(mem)[i]
    {
      ghost var h := HeaderAt(mem, a);
      mem := PutFreed(mem, a, v);
      hdr := hdr[a := h.(isFreed := v)];
      StoreKeepsEmbedded(old(mem), mem, base, old(hdr), a, hdr[a]);
    }

    method StoreStart(a: nat, v: u32)
      requires Stored() && a in hdr
      modifies this`mem, this`hdr
      ensures Stored() && |mem| == |old(mem)|
      ensures hdr == old(hdr)[a := old(hdr)[a].(start := v)]
      ensures forall i :: 0 <= i < |mem| && !(a <= i < a + META) ==> mem[i] == old(mem)[i]
    {
      ghost var h := HeaderAt(mem, a);
      mem := PutStart(mem, a, v);
      hdr := hdr[a := h.(start := v)];
      StoreKeepsEmbedded(old(mem), mem, base, old(hdr), a, hdr[a]);
    }

    method StoreSize(a: nat, v: i64)
      requires Stored() && a in hdr
      modifies this`mem, this`hdr
      ensures Stored() && |mem| == |old(mem)|
      ensures hdr == old(hdr)[a := old(hdr)[a].(size := v)]
      ensures forall i :: 0 <= i < |mem| && !(a <= i < a + META) ==> mem[i] == old(mem)[i]
    {
      ghost var h := HeaderAt(mem, a);
      mem := PutSize(mem, a, v);
      hdr := hdr[a := h.(size := v)];
      StoreKeepsEmbedded(old(mem), mem, base, old(hdr), a, hdr[a]);
    }

    method StoreNext(a: nat, v: u32)
      requires Stored() && a in hdr
      modifies this`mem, this`hdr
      ensures Stored() && |mem| == |old(mem)|
      ensures hdr == old(hdr)[a := old(hdr)[a].(next := v)]
      ensures forall i :: 0 <= i < |mem| && !(a <= i < a + META) ==> mem[i] == old(mem)[i]
    {
      ghost var h := HeaderAt(mem, a);
      mem := PutNext(mem, a, v);
      hdr := hdr[a := h.(next := v)];
      StoreKeepsEmbedded(old(mem), mem, base, old(hdr), a, hdr[a]);
    }

    method StorePrev(a: nat, v: u32)
      requires Stored() && a in hdr
      modifies this`mem, this`hdr
      ensures Stored() && |mem| == |old(mem)|
      ensures hdr == old(hdr)[a := old(hdr)[a].(prev := v)]
      ensures forall i :: 0 <= i < |mem| && !(a <= i < a + META) ==> mem[i] == old(mem)[i]
    {
      ghost var h := HeaderAt(mem, a);
      mem := PutPrev(mem, a, v);
      hdr := hdr[a := h.(prev := v)];
      StoreKeepsEmbedded(old(mem), mem, base, old(hdr), a, hdr[a]);
    }

    // Starts to treat the bytes at `a` as a header, whatever they hold.
    ghost method Overlay(a: nat)
      requires Stored() && base <= a && a + META <= |mem|
      requires forall b :: b in hdr ==> Apart(a, b)
      modifies this`hdr
      ensures Stored()
      ensures hdr == old(hdr)[a := HeaderAt(mem, a)]
    {
      hdr := hdr[a := HeaderAt(mem, a)];
    }

    ghost method Forget(a: nat)
      requires Stored()
      modifies this`hdr
      ensures Stored()
      ensures hdr == old(hdr) - {a}
    {
      hdr := hdr - {a};
    }

    // ---- list operations ------------------------------------------------------------------

    // Common to the operations on headers: nothing but headers is written.
    method SetFree(p: u32)
      requires Stored() && p in hdr
      modifies this`mem, this`hdr, this`numFreeBlocks, this`numFreeBytes
      ensures Stored() && |mem| == |old(mem)|
      ensures hdr == old(hdr)[p := old(hdr)[p].(isFreed := true)]
      ensures forall i :: 0 <= i < |mem| && i != p ==> mem[i] == old(mem)[i]
      ensures numFreeBlocks == old(numFreeBlocks) + if old(hdr)[p].isFreed then 0 else 1
      ensures numFreeBytes == old(numFreeBytes) + if old(hdr)[p].isFreed then 0 else old(hdr)[p].size
    {
      var h := Load(p);
      if h.isFreed {
        return;
      } else {
        StoreFreed(p, true);
        numFreeBlocks := numFreeBlocks + 1;
        h := Load(p);
        numFreeBytes := numFreeBytes + h.size;
      }
    }

    method SetUsed(p: u32)
      requires Stored() && p in hdr
      modifies this`mem, this`hdr, this`numFreeBlocks, this`numFreeBytes
      ensures Stored() && |mem| == |old(mem)|
      ensures hdr == old(hdr)[p := old(hdr)[p].(isFreed := false)]
      ensures forall i :: 0 <= i < |mem| && i != p ==> mem[i] == old(mem)[i]
      ensures numFreeBlocks == old(numFreeBlocks) - if old(hdr)[p].isFreed then 1 else 0
      ensures numFreeBytes == old(numFreeBytes) - if old(hdr)[p].isFreed then old(hdr)[p].size else 0
    {
      var h := Load(p);
      if !h.isFreed {
        return;
      } else {
        StoreFreed(p, false);
        numFreeBlocks := numFreeBlocks - 1;
        h := Load(p);
        numFreeBytes := numFreeBytes - h.size;
      }
    }

    // The stores of connect: p1 takes over the room and the successor of p2.
    method TakeOver(p1: u32, p2: u32)
      requires Stored() && p1 in hdr && p2 in hdr && p1 != p2
      requires hdr[p2].next in hdr && hdr[p2].next != p2
      requires 0 <= hdr[p1].size <= |mem| && 0 <= hdr[p2].size <= |mem|
      modifies this`mem, this`hdr
      ensures Stored() && |mem| == |old(mem)|
      ensures hdr == Connected(old(hdr), p1, p2, old(hdr)[p1].size + META + old(hdr)[p2].size)
      ensures Untouched(old(mem), old(hdr), mem, hdr)
      ensures hdr.Keys == old(hdr).Keys - {p2}
    {
      var h1 := Load(p1);
      var h2 := Load(p2);
      StoreSize(p1, h1.size + (h2.size + META));
      StoreNext(p1, h2.next);
      StorePrev(h2.next, p1);
      Forget(p2);
    }

    // Two neighbours become one block.
    method Join(p1: u32, p2: u32, ghost i: nat)
      requires Shape()
      requires i + 1 < |blocks| && p1 == blocks[i].addr && p2 == blocks[i + 1].addr
      modifies this`mem, this`hdr, this`blocks
      ensures Shape() && |mem| == |old(mem)|
      ensures blocks == Merge(old(blocks), i)
      ensures hdr.Keys == old(hdr).Keys - {p2}
      ensures Untouched(old(mem), old(hdr), mem, hdr)
    {
      PairFacts(hdr, blocks, base, |mem|, i);
      MergeTiles(blocks, base, |mem|, i);
      TakeOver(p1, p2);
      blocks := Merge(blocks, i);
    }

    // The bookkeeping of connect; joining a block in use to its neighbour counts nothing.
    method CountConnect(free1: bool, free2: bool, size2: int)
      modifies this`numFreeBlocks, this`numFreeBytes,
               this`numAllocatedBlocks, this`numAllocatedBytes, this`numMetaDataBlocks
      ensures var one := if free2 then 1 else 0;
        && numFreeBlocks == old(numFreeBlocks) - one
        && numAllocatedBlocks == old(numAllocatedBlocks) - one
        && numMetaDataBlocks == old(numMetaDataBlocks) - one
        && numAllocatedBytes == old(numAllocatedBytes) + one * META
        && numFreeBytes == old(numFreeBytes) + if !free2 then 0 else if free1 then META else -size2
    {
      if free1 {
        if free2 {
          numFreeBlocks := numFreeBlocks - 1;
          numAllocatedBlocks := numAllocatedBlocks - 1;
          numAllocatedBytes := numAllocatedBytes + META;
          numFreeBytes := numFreeBytes + META;
          numMetaDataBlocks := numMetaDataBlocks - 1;
        }
      } else {
        if free2 {
          numFreeBlocks := numFreeBlocks - 1;
          numAllocatedBlocks := numAllocatedBlocks - 1;
          numAllocatedBytes := numAllocatedBytes + META;
          numFreeBytes := numFreeBytes - size2;
          numMetaDataBlocks := numMetaDataBlocks - 1;
        }
      }
    }

    // The free block p2 right after p1 becomes part of p1.
    method Connect(p1: u32, p2: u32, ghost i: nat)
      requires Shape() && Counted()
      requires i + 1 < |blocks| && p1 == blocks[i].addr && p2 == blocks[i + 1].addr
      requires blocks[i + 1].free
      modifies this`mem, this`hdr, this`blocks, this`numFreeBlocks, this`numFreeBytes,
               this`numAllocatedBlocks, this`numAllocatedBytes, this`numMetaDataBlocks
      ensures Shape() && Counted() && |mem| == |old(mem)|
      ensures blocks == Merge(old(blocks), i)
      ensures hdr.Keys == old(hdr).Keys - {p2}
      ensures Untouched(old(mem), old(hdr), mem, hdr)
    {
      HeaderFacts(hdr, blocks, i);
      HeaderFacts(hdr, blocks, i + 1);
      var h1 := Load(p1);
      var h2 := Load(p2);
      MergeCounts(blocks, i);
      Join(p1, p2, i);
      CountConnect(h1.isFreed, h2.isFreed, h2.size);
    }

    // setFree and setUsed on a block of the list.
    method MarkFree(p: u32, ghost i: nat)
      requires Shape() && Counted() && i < |blocks| && p == blocks[i].addr
      modifies this`mem, this`hdr, this`blocks, this`numFreeBlocks, this`numFreeBytes
      ensures Shape() && Counted() && |mem| == |old(mem)|
      ensures blocks == old(blocks)[i := old(blocks)[i].(free := true)]
      ensures hdr.Keys == old(hdr).Keys && Untouched(old(mem), old(hdr), mem, hdr)
    {
      ghost var b := blocks[i].(free := true);
      HeaderFacts(hdr, blocks, i);
      RemarkLinks(hdr, blocks, base, |mem|, i, true);
      MarkCounts(blocks, i, b);
      SetFree(p);
      blocks := blocks[i := b];
    }

    method MarkUsed(p: u32, ghost i: nat)
      requires Shape() && Counted() && i < |blocks| && p == blocks[i].addr
      modifies this`mem, this`hdr, this`blocks, this`numFreeBlocks, this`numFreeBytes
      ensures Shape() && Counted() && |mem| == |old(mem)|
      ensures blocks == old(blocks)[i := old(blocks)[i].(free := false)]
      ensures hdr.Keys == old(hdr).Keys && Untouched(old(mem), old(hdr), mem, hdr)
    {
      ghost var b := blocks[i].(free := false);
      HeaderFacts(hdr, blocks, i);
      RemarkLinks(hdr, blocks, base, |mem|, i, false);
      MarkCounts(blocks, i, b);
      SetUsed(p);
      blocks := blocks[i := b];
    }

    // The free block p1 merges with its free neighbours; never across the ends of the list.
    method CheckIfFreeAndConnect(p1: u32, ghost i: nat)
      requires Shape() && Counted() && i < |blocks| && p1 == blocks[i].addr
      requires blocks[i].free && FreeApartBut(blocks, i)
      modifies this`mem, this`hdr, this`blocks, this`numFreeBlocks, this`numFreeBytes,
               this`numAllocatedBlocks, this`numAllocatedBytes, this`numMetaDataBlocks
      ensures Valid() && |mem| == |old(mem)|
      ensures blocks == Coalesce(old(blocks), i)
      ensures hdr.Keys <= old(hdr).Keys && Untouched(old(mem), old(hdr), mem, hdr)
    {
      NeighbourFacts(hdr, blocks, base, |mem|, i);
      CoalesceKeeps(blocks, base, |mem|, i);
      var node := Load(p1);
      var up, down := node.next, node.prev;
      var upNode := Load(up);
      var downNode := Load(down);
      if p1 == head {
        if up != head && upNode.isFreed {
          Connect(p1, up, i);
        }
      } else {
        if down != p1 && downNode.isFreed && node.isFreed {
          ghost var m1, h1 := mem, hdr;
          if i + 1 < |blocks| { MergeOrder(blocks, i); }
          Connect(down, p1, i - 1);
          ghost var m2, h2 := mem, hdr;
          if up != head && upNode.isFreed {
            Connect(down, up, i - 1);
            UntouchedTrans(m1, h1, m2, h2, mem, hdr);
          }
        } else if up != head && upNode.isFreed && node.isFreed {
          Connect(p1, up, i);
        }
      }
    }

    // A new header at p for a free block of `size` bytes; its links are not set yet.
    method NewFree(p: u32, size: nat)
      requires Stored() && base <= p && p + META + size <= |mem|
      requires p !in hdr && forall a :: a in hdr ==> Apart(p, a)
      modifies this`mem, this`hdr, this`numFreeBlocks, this`numFreeBytes
      ensures Stored() && |mem| == |old(mem)| && hdr.Keys == old(hdr).Keys + {p as nat}
      ensures hdr[p].isFreed && hdr[p].start == p + META && hdr[p].size == size
      ensures forall a :: a in old(hdr) ==> hdr[a] == old(hdr)[a]
      ensures numFreeBlocks == old(numFreeBlocks) + 1 && numFreeBytes == old(numFreeBytes) + size
      ensures forall i :: 0 <= i < |mem| && !(p <= i < p + META) ==> mem[i] == old(mem)[i]
    {
      Overlay(p);
      StoreStart(p, p + META);
      StoreSize(p, size);
      StoreFreed(p, false);
      SetFree(p);
    }

    // The node p linked in between p1 and its successor.
    method LinkAfter(p1: u32, p: u32)
      requires Stored() && p1 in hdr && p in hdr && p1 != p
      requires hdr[p1].next in hdr && hdr[p1].next != p
      modifies this`mem, this`hdr
      ensures Stored() && |mem| == |old(mem)|
      ensures Inserted(old(hdr), hdr, p1, p)
      ensures hdr[p] == old(hdr)[p].(next := old(hdr)[p1].next, prev := p1)
      ensures Untouched(old(mem), old(hdr), mem, hdr)
    {
      var node := Load(p1);
      StoreNext(p, node.next);
      StorePrev(p, p1);
      StorePrev(node.next, p);
      StoreNext(p1, p);
    }

    // The stores of split: a free node inside the payload of p1, right after p1 in the ring.
    method Carve(p1: u32, req: u32) returns (p: u32)
      requires Stored() && p1 in hdr && hdr[p1].next in hdr
      requires hdr[p1].start == p1 + META && req + META < hdr[p1].size
      requires p1 + META + hdr[p1].size <= |mem|
      requires forall a :: a in hdr ==> a + META <= p1 + META || p1 + META + hdr[p1].size <= a
      modifies this`mem, this`hdr, this`numFreeBlocks, this`numFreeBytes
      ensures Stored() && |mem| == |old(mem)|
      ensures p == p1 + META + req && p !in old(hdr)
      ensures var size := old(hdr)[p1].size - req - META;
        && Inserted(old(hdr)[p1 := old(hdr)[p1].(size := req)], hdr, p1, p)
        && hdr[p].isFreed && hdr[p].start == p + META && hdr[p].size == size
        && numFreeBlocks == old(numFreeBlocks) + 1 && numFreeBytes == old(numFreeBytes) + size
      ensures Untouched(old(mem), old(hdr), mem, hdr)
    {
      var node := Load(p1);
      p := node.start + req;
      NewFree(p, node.size - req - META);
      StoreSize(p1, req);
      LinkAfter(p1, p);
    }

    // The list side of split, for a block in use.
    method CutBlock(p1: u32, req: u32, ghost i: nat) returns (p: u32)
      requires Shape() && NoAdjacentFree(blocks) && i < |blocks| && p1 == blocks[i].addr
      requires !blocks[i].free && 0 < req && req % 4 == 0 && req + META < blocks[i].size
      modifies this`mem, this`hdr, this`blocks, this`numFreeBlocks, this`numFreeBytes
      ensures Shape() && |mem| == |old(mem)|
      ensures blocks == Cut(old(blocks), i, req) && p == blocks[i + 1].addr
      ensures numFreeBlocks == old(numFreeBlocks) + 1
      ensures numFreeBytes == old(numFreeBytes) + blocks[i + 1].size
      ensures hdr.Keys == old(hdr).Keys + {p as nat} && Untouched(old(mem), old(hdr), mem, hdr)
    {
      HeaderFacts(hdr, blocks, i);
      NeighbourFacts(hdr, blocks, base, |mem|, i);
      HeadersOutside(hdr, blocks, base, |mem|, i);
      Within(blocks, base, |mem|, i);
      CutTiles(blocks, base, |mem|, i, req);
      p := Carve(p1, req);
      CutLinks(old(hdr), hdr, blocks, base, |mem|, i, req, p);
      blocks := Cut(blocks, i, req);
    }

    method CutCounted(p1: u32, req: u32, ghost i: nat) returns (p: u32)
      requires Valid() && i < |blocks| && p1 == blocks[i].addr
      requires !blocks[i].free && 0 < req && req % 4 == 0 && req + META < blocks[i].size
      modifies this`mem, this`hdr, this`blocks, this`numFreeBlocks, this`numFreeBytes,
               this`numAllocatedBlocks, this`numAllocatedBytes, this`numMetaDataBlocks
      ensures Shape() && Counted() && |mem| == |old(mem)|
      ensures blocks == Cut(old(blocks), i, req) && p == blocks[i + 1].addr
      ensures hdr.Keys == old(hdr).Keys + {p as nat} && Untouched(old(mem), old(hdr), mem, hdr)
    {
      CutCounts(blocks, i, req);
      numMetaDataBlocks := numMetaDataBlocks + 1;
      numAllocatedBlocks := numAllocatedBlocks + 1;
      numAllocatedBytes := numAllocatedBytes - META;
      p := CutBlock(p1, req, i);
    }

    method SplitUsed(p1: u32, req: u32, ghost i: nat)
      requires Valid() && i < |blocks| && p1 == blocks[i].addr
      requires !blocks[i].free && 0 < req && req % 4 == 0 && req + META < blocks[i].size
      modifies this`mem, this`hdr, this`blocks, this`numFreeBlocks, this`numFreeBytes,
               this`numAllocatedBlocks, this`numAllocatedBytes, this`numMetaDataBlocks
      ensures Valid() && |mem| == |old(mem)|
      ensures blocks == Blocks.Split(old(blocks), i, req)
      ensures Untouched(old(mem), old(hdr), mem, hdr)
    {
      CutAt(blocks, i, req);
      CutApart(blocks, i, req);
      var p := CutCounted(p1, req, i);
      ghost var m1, h1 := mem, hdr;
      CheckIfFreeAndConnect(p, i + 1);
      HeaderFacts(hdr, blocks, i + 1);
      UntouchedTrans(old(mem), old(hdr), m1, h1, mem, hdr);
    }

    // Block p1 keeps `req` bytes, in use; the rest becomes a free block that merges upwards.
    method Split(p1: u32, req: u32, ghost i: nat)
      requires Valid() && i < |blocks| && p1 == blocks[i].addr
      requires 0 < req && req % 4 == 0 && req + META < blocks[i].size
      modifies this`mem, this`hdr, this`blocks, this`numFreeBlocks, this`numFreeBytes,
               this`numAllocatedBlocks, this`numAllocatedBytes, this`numMetaDataBlocks
      ensures Valid() && |mem| == |old(mem)|
      ensures blocks == Blocks.Split(old(blocks), i, req)
      ensures Untouched(old(mem), old(hdr), mem, hdr)
    {
      ghost var bs := blocks;
      HeaderFacts(hdr, blocks, i);
      var node := Load(p1);
      if node.isFreed {
        MarkTiles(blocks, base, |mem|, i, false);
        MarkUsed(p1, i);
      }
      assert Cut(blocks, i, req) == Cut(bs, i, req);
      ghost var m1, h1 := mem, hdr;
      SplitUsed(p1, req, i);
      UntouchedTrans(old(mem), old(hdr), m1, h1, mem, hdr);
    }

    // A block put to use with a new size.
    method UseWith(p: u32, size: u32)
      requires Stored() && p in hdr
      modifies this`mem, this`hdr, this`numFreeBlocks, this`numFreeBytes
      ensures Stored() && |mem| == |old(mem)|
      ensures hdr == old(hdr)[p := old(hdr)[p].(isFreed := false, size := size)]
      ensures Untouched(old(mem), old(hdr), mem, hdr)
      ensures numFreeBlocks == old(numFreeBlocks) - if old(hdr)[p].isFreed then 1 else 0
      ensures numFreeBytes == old(numFreeBytes) - if old(hdr)[p].isFreed then old(hdr)[p].size else 0
    {
      SetUsed(p);
      StoreSize(p, size);
    }

    // The stores that stretch the last block to a grown break.
    method StretchNode(p: u32, req: u32, ghost oldBreak: nat)
      requires Stored() && blocks != [] && p == blocks[|blocks| - 1].addr
      requires Linked(hdr, blocks) && Inv(blocks, base, oldBreak)
      requires !firstAlloc && head == base && req % 4 == 0
      requires blocks[|blocks| - 1].size <= req && |mem| == oldBreak + (req - blocks[|blocks| - 1].size)
      modifies this`mem, this`hdr, this`blocks, this`numFreeBlocks, this`numFreeBytes
      ensures Shape() && NoAdjacentFree(blocks) && |mem| == |old(mem)| && blocks == Grow(old(blocks), req)
      ensures Untouched(old(mem), old(hdr), mem, hdr) && hdr.Keys == old(hdr).Keys
      ensures var last := old(blocks)[|old(blocks)| - 1];
        && numFreeBlocks == old(numFreeBlocks) - (if last.free then 1 else 0)
        && numFreeBytes == old(numFreeBytes) - (if last.free then last.size else 0)
    {
      HeaderFacts(hdr, blocks, |blocks| - 1);
      GrowLinks(hdr, blocks, base, oldBreak, req);
      GrowKeeps(blocks, base, oldBreak, req);
      UseWith(p, req);
      blocks := Grow(blocks, req);
    }

    method Stretch(p: u32, req: u32, ghost oldBreak: nat)
      requires Stored() && blocks != [] && p == blocks[|blocks| - 1].addr
      requires Linked(hdr, blocks) && Inv(blocks, base, oldBreak) && Counted()
      requires !firstAlloc && head == base && req % 4 == 0
      requires blocks[|blocks| - 1].size <= req && |mem| == oldBreak + (req - blocks[|blocks| - 1].size)
      modifies this`mem, this`hdr, this`blocks, this`numFreeBlocks, this`numFreeBytes, this`numAllocatedBytes
      ensures Valid() && |mem| == |old(mem)| && blocks == Grow(old(blocks), req)
      ensures Untouched(old(mem), old(hdr), mem, hdr) && hdr.Keys == old(hdr).Keys
    {
      GrowCounts(blocks, req);
      HeaderFacts(hdr, blocks, |blocks| - 1);
      var node := Load(p);
      numAllocatedBytes := numAllocatedBytes + (req - node.size);
      StretchNode(p, req, oldBreak);
    }

    // Serves `req` bytes from the last block, moving the break when it is too small.
    method Wilderness(req: u32, grant: bool) returns (ptr: int)
      requires Valid() && blocks != [] && req % 4 == 0 && req != blocks[|blocks| - 1].size
      modifies this`mem, this`hdr, this`blocks, this`numFreeBlocks, this`numFreeBytes, this`numAllocatedBytes
      ensures Valid()
      ensures var last := old(blocks)[|old(blocks)| - 1];
        if req < last.size then
          ptr == last.Payload() && blocks == old(blocks) && mem == old(mem) && hdr == old(hdr)
        else if grant && |old(mem)| + (req - last.size) <= limit then
          && ptr == last.Payload() && blocks == Grow(old(blocks), req)
          && |mem| == |old(mem)| + (req - last.size) && Untouched(old(mem), old(hdr), mem, hdr)
        else
          ptr == FAILED && blocks == old(blocks) && mem == old(mem) && hdr == old(hdr)
    {
      TailFacts(hdr, blocks, base, |mem|);
      var first := Load(head);
      var w := first.prev;
      var node := Load(w);
      if req < node.size {
        return node.start;
      }
      var offset := req - node.size;
      var newBreak := GrowBreak(offset, grant);
      if newBreak == FAILED {
        return newBreak;
      }
      ghost var m1 := mem;
      Stretch(w, req, |old(mem)|);
      UntouchedTrans(old(mem), old(hdr), m1, old(hdr), mem, hdr);
      return node.start;
    }

    // The first block of all: the heap is one header and its payload.
    method FirstAllocation(req: u32, grant: bool) returns (ptr: int)
      requires Valid() && firstAlloc && 0 < req && req % 4 == 0
      modifies this
      ensures Valid()
      ensures if grant && |old(mem)| + (req + META) <= limit then
          && ptr == base + META && blocks == [Block(base, req, false)]
          && |mem| == |old(mem)| + req + META && Untouched(old(mem), old(hdr), mem, hdr)
        else
          ptr == NULL && blocks == [] && mem == old(mem) && hdr == old(hdr)
    {
      EmptyRing(hdr, blocks);
      firstAlloc := false;
      var newBreak := GrowBreak(req + META, grant);
      if newBreak == FAILED {
        firstAlloc := true;
        return NULL;
      }
      head := newBreak;
      numAllocatedBlocks, numAllocatedBytes := 1, req;
      numFreeBytes := 0;
      numMetaDataBlocks := 1;
      StartRing(newBreak, req);
      blocks := [Block(base, req, false)];
      OneNode(hdr, blocks[0]);
      CountOne(blocks[0]);
      var node := Load(head);
      return node.start;
    }

    // sbrk together with the test of its result.
    method GrowBreak(increment: nat, grant: bool) returns (p: int)
      requires Stored() && 4 <= increment
      modifies this`mem
      ensures Stored()
      ensures p == if grant && |old(mem)| + increment <= limit then |old(mem)| else FAILED
      ensures if p == FAILED then mem == old(mem)
              else |mem| == |old(mem)| + increment && Untouched(old(mem), hdr, mem, hdr)
                   && forall i :: |old(mem)| <= i < |mem| ==> mem[i] == 0
    {
      p := Sbrk(increment, grant);
      var failed := LooksFailed(p);
      if failed {
        p := FAILED;
      }
    }

    // The stores of the first allocation; is_freed is not written, fresh memory is zero.
    method StartRing(p: u32, req: u32)
      requires Stored() && base == p && p + META + req == |mem| && mem[p] == 0
      requires forall a :: a !in hdr
      modifies this`mem, this`hdr
      ensures Stored() && |mem| == |old(mem)|
      ensures hdr == map[p as nat := Header(false, p + META, req, p, p)]
      ensures forall i :: 0 <= i < p ==> mem[i] == old(mem)[i]
    {
      Overlay(p);
      StoreSize(p, req);
      StoreStart(p, p + META);
      StoreNext(p, p);
      StorePrev(p, p);
    }

    // A new header at p for a block in use, linked in front of the head.
    method NewUsed(p: u32, size: nat)
      requires Stored() && base <= p && p + META + size <= |mem|
      requires p !in hdr && forall a :: a in hdr ==> Apart(p, a)
      modifies this`mem, this`hdr
      ensures Stored() && |mem| == |old(mem)| && hdr.Keys == old(hdr).Keys + {p as nat}
      ensures !hdr[p].isFreed && hdr[p].start == p + META && hdr[p].size == size
      ensures forall a :: a in old(hdr) ==> hdr[a] == old(hdr)[a]
      ensures forall i :: 0 <= i < |mem| && !(p <= i < p + META) ==> mem[i] == old(mem)[i]
    {
      Overlay(p);
      StoreFreed(p, false);
      StoreSize(p, size);
      StoreStart(p, p + META);
    }

    method LinkBeforeHead(p: u32)
      requires Stored() && head in hdr && p in hdr && p != head
      requires hdr[head].prev in hdr && hdr[head].prev != p && hdr[hdr[head].prev].next == head
      modifies this`mem, this`hdr
      ensures Stored() && |mem| == |old(mem)|
      ensures Inserted(old(hdr), hdr, old(hdr)[head].prev, p)
      ensures hdr[p] == old(hdr)[p].(next := head, prev := old(hdr)[head].prev)
      ensures Untouched(old(mem), old(hdr), mem, hdr)
    {
      var first := Load(head);
      StoreNext(first.prev, p);
      first := Load(head);
      StorePrev(p, first.prev);
      StorePrev(head, p);
      StoreNext(p, head);
    }

    method InsertLast(p: u32, size: nat)
      requires Stored() && base <= p && p + META + size <= |mem|
      requires forall a :: a in hdr ==> a + META <= p
      requires head in hdr && hdr[head].prev in hdr && hdr[hdr[head].prev].next == head
      modifies this`mem, this`hdr
      ensures Stored() && |mem| == |old(mem)| && p !in old(hdr)
      ensures Inserted(old(hdr), hdr, old(hdr)[head].prev, p)
      ensures !hdr[p].isFreed && hdr[p].start == p + META && hdr[p].size == size
      ensures Untouched(old(mem), old(hdr), mem, hdr)
    {
      NewUsed(p, size);
      LinkBeforeHead(p);
    }

    // The room between the old break and the new one becomes the last block, in use.
    method AppendNode(p: u32, req: u32)
      requires Stored() && Linked(hdr, blocks) && Inv(blocks, base, p) && blocks != []
      requires !firstAlloc && head == base && |mem| == p + META + req
      requires 0 < req && req % 4 == 0
      modifies this`mem, this`hdr, this`blocks
      ensures Shape() && NoAdjacentFree(blocks) && |mem| == |old(mem)|
      ensures blocks == old(blocks) + [Block(p, req, false)]
      ensures Untouched(old(mem), old(hdr), mem, hdr)
    {
      BelowBreak(hdr, blocks, base, p);
      TailFacts(hdr, blocks, base, p);
      AppendKeeps(blocks, base, p, Block(p, req, false));
      InsertLast(p, req);
      AppendLinks(old(hdr), hdr, blocks, base, p, req);
      blocks := blocks + [Block(p, req, false)];
    }

    method Append(p: u32, req: u32)
      requires Stored() && Linked(hdr, blocks) && Inv(blocks, base, p) && blocks != [] && Counted()
      requires !firstAlloc && head == base && |mem| == p + META + req
      requires 0 < req && req % 4 == 0
      modifies this`mem, this`hdr, this`blocks,
               this`numAllocatedBlocks, this`numAllocatedBytes, this`numMetaDataBlocks
      ensures Valid() && |mem| == |old(mem)|
      ensures blocks == old(blocks) + [Block(p, req, false)]
      ensures Untouched(old(mem), old(hdr), mem, hdr)
    {
      AppendCounts(blocks, Block(p, req, false));
      numAllocatedBlocks := numAllocatedBlocks + 1;
      numAllocatedBytes := numAllocatedBytes + req;
      numMetaDataBlocks := numMetaDataBlocks + 1;
      AppendNode(p, req);
    }

    // The free block p serves `req` bytes, whole or split.
    method UseBlock(p: u32, req: u32, ghost i: nat) returns (ptr: int)
      requires Valid() && i < |blocks| && p == blocks[i].addr && Fits(blocks[i], req)
      requires 0 < req && req % 4 == 0
      modifies this`mem, this`hdr, this`blocks, this`numFreeBlocks, this`numFreeBytes,
               this`numAllocatedBlocks, this`numAllocatedBytes, this`numMetaDataBlocks
      ensures Valid() && Untouched(old(mem), old(hdr), mem, hdr)
      ensures blocks == Place(old(blocks), i, req) && ptr == old(blocks)[i].Payload()
    {
      HeaderFacts(hdr, blocks, i);
      var node := Load(p);
      if node.size - req - META < REMAIN {
        MarkTiles(blocks, base, |mem|, i, false);
        MarkUsed(p, i);
        return node.start;
      } else {
        Split(p, req, i);
        return node.start;
      }
    }

    // First fit over the list, then the wilderness block; NULL when neither applies.
    method FindFreeAllocationAddress(req: u32, grant: bool) returns (ptr: int)
      requires Valid() && !firstAlloc && 0 < req && req % 4 == 0
      modifies this`mem, this`hdr, this`blocks, this`numFreeBlocks, this`numFreeBytes,
               this`numAllocatedBlocks, this`numAllocatedBytes, this`numMetaDataBlocks
      ensures Valid() && Untouched(old(mem), old(hdr), mem, hdr)
      ensures FirstFit(old(blocks), req).Some? ==>
                var i := FirstFit(old(blocks), req).value;
                blocks == Place(old(blocks), i, req) && ptr == old(blocks)[i].Payload()
      ensures FirstFit(old(blocks), req).None? && !old(blocks)[|old(blocks)| - 1].free ==>
                ptr == NULL && blocks == old(blocks) && mem == old(mem) && hdr == old(hdr)
      ensures FirstFit(old(blocks), req).None? && old(blocks)[|old(blocks)| - 1].free ==>
                if grant && |old(mem)| + Shortage(old(blocks), req) <= limit
                then ptr == old(blocks)[|old(blocks)| - 1].Payload() && blocks == Grow(old(blocks), req)
                else ptr == FAILED && blocks == old(blocks) && mem == old(mem)
    {
      ghost var i := 0;
      var cursor := head;
      while true
        invariant i < |blocks| && cursor == blocks[i].addr
        invariant forall j :: 0 <= j < i ==> !Fits(blocks[j], req)
        invariant blocks == old(blocks) && mem == old(mem) && hdr == old(hdr) && Valid()
        decreases |blocks| - i
      {
        NeighbourFacts(hdr, blocks, base, |mem|, i);
        HeaderFacts(hdr, blocks, i);
        var node := Load(cursor);
        if node.size >= req && node.isFreed {
          assert Fits(blocks[i], req) && FirstFit(blocks, req) == Some(i);
          ptr := UseBlock(cursor, req, i);
          return ptr;
        }
        cursor := node.next;
        if cursor == head {
          break;
        }
        i := i + 1;
      }
      assert forall j :: 0 <= j < |blocks| ==> !Fits(blocks[j], req);
      TailFacts(hdr, blocks, base, |mem|);
      var first := Load(head);
      var last := Load(first.prev);
      if last.next == head && last.isFreed {
        assert !Fits(blocks[|blocks| - 1], req);
        ptr := Wilderness(req, grant);
        return ptr;
      }
      return NULL;
    }

    // ---- the calls of the program ------------------------------------------------------------

    // A block already in the list, unless its payload starts with -1.
    method Recycle(req: u32, grant: bool) returns (ptr: int, decided: bool)
      requires Valid() && !firstAlloc && 0 < req <= MAX_SIZE && req % 4 == 0
      modifies this`mem, this`hdr, this`blocks, this`numFreeBlocks, this`numFreeBytes,
               this`numAllocatedBlocks, this`numAllocatedBytes, this`numMetaDataBlocks
      ensures Valid() && Untouched(old(mem), old(hdr), mem, hdr)
      ensures decided == (FirstFit(old(blocks), req).Some? || old(blocks)[|old(blocks)| - 1].free)
      ensures decided ==> Outcome(blocks, ptr) == AfterMalloc(old(mem), old(blocks), base, req, limit, grant)
      ensures !decided ==> blocks == old(blocks) && mem == old(mem) && hdr == old(hdr)
    {
      ptr := FindFreeAllocationAddress(req, grant);
      if ptr == NULL {
        return NULL, false;
      }
      ghost var k := Recycled(old(mem), old(blocks), base, req, limit, grant, blocks, ptr);
      if ptr != FAILED {
        FirstWordKept(old(mem), old(hdr), old(blocks), mem, hdr, blocks, base, k);
      }
      var failed := LooksFailed(ptr);
      if failed {
        return NULL, true;
      }
      return ptr, true;
    }

    // A new block at the break.
    method Extend(req: u32, grant: bool) returns (ptr: int)
      requires Valid() && !firstAlloc && 0 < req <= MAX_SIZE && req % 4 == 0
      requires FirstFit(blocks, req).None? && !blocks[|blocks| - 1].free
      modifies this`mem, this`hdr, this`blocks,
               this`numAllocatedBlocks, this`numAllocatedBytes, this`numMetaDataBlocks
      ensures Valid() && Untouched(old(mem), old(hdr), mem, hdr)
      ensures Outcome(blocks, ptr) == AfterMalloc(old(mem), old(blocks), base, req, limit, grant)
    {
      var newBreak := GrowBreak(req + META, grant);
      if newBreak == FAILED {
        return NULL;
      }
      ghost var m1 := mem;
      Append(newBreak, req);
      UntouchedTrans(old(mem), old(hdr), m1, old(hdr), mem, hdr);
      HeaderFacts(hdr, blocks, |blocks| - 1);
      var node := Load(newBreak);
      return node.start;
    }

    method MallocRounded(req: u32, grant: bool) returns (ptr: int)
      requires Valid() && 0 < req <= MAX_SIZE && req % 4 == 0
      modifies this
      ensures Valid() && Untouched(old(mem), old(hdr), mem, hdr)
      ensures Outcome(blocks, ptr) == AfterMalloc(old(mem), old(blocks), base, req, limit, grant)
    {
      if firstAlloc {
        ptr := FirstAllocation(req, grant);
        return ptr;
      }
      var decided;
      ptr, decided := Recycle(req, grant);
      if decided {
        return ptr;
      }
      ptr := Extend(req, grant);
    }

    method MallocAny(size: u32, grant: bool) returns (ptr: int)
      requires Valid()
      modifies this
      ensures Valid() && Untouched(old(mem), old(hdr), mem, hdr)
      ensures Outcome(blocks, ptr) == AfterMalloc(old(mem), old(blocks), base, size, limit, grant)
    {
      if size > MAX_SIZE || size == 0 {
        return NULL;
      }
      var req: u32 := size;
      if req % 4 != 0 {
        req := req + (4 - req % 4);
      }
      ptr := MallocRounded(req, grant);
    }

    method Malloc(size: u32, grant: bool) returns (ptr: int)
      requires Valid()
      modifies this
      ensures Valid() && Untouched(old(mem), old(hdr), mem, hdr)
      ensures Outcome(blocks, ptr) == AfterMalloc(old(mem), old(blocks), base, size, limit, grant)
      ensures Undisturbed(old(mem), old(blocks), mem, blocks, -1)
    {
      ptr := MallocAny(size, grant);
      AfterMallocKeeps(old(mem), old(blocks), base, size, limit, grant);
      UntouchedUndisturbed(old(mem), old(hdr), old(blocks), mem, hdr, blocks, base, -1);
    }

    // ---- free ----------------------------------------------------------------------------------

    method FreeBlock(p: u32, ghost i: nat)
      requires Valid() && i < |blocks| && p == blocks[i].addr && !blocks[i].free
      modifies this`mem, this`hdr, this`blocks, this`numFreeBlocks, this`numFreeBytes,
               this`numAllocatedBlocks, this`numAllocatedBytes, this`numMetaDataBlocks
      ensures Valid() && |mem| == |old(mem)| && blocks == Release(old(blocks), i)
      ensures Untouched(old(mem), old(hdr), mem, hdr)
    {
      MarkTiles(blocks, base, |mem|, i, true);
      MarkFree(p, i);
      ghost var m1, h1 := mem, hdr;
      CheckIfFreeAndConnect(p, i);
      UntouchedTrans(old(mem), old(hdr), m1, h1, mem, hdr);
    }

    method Free(p: int, ghost i: nat)
      requires Valid() && (p == NULL || PointsTo(blocks, i, p))
      modifies this
      ensures Valid() && |mem| == |old(mem)|
      ensures blocks == if p == NULL || old(blocks)[i].free then old(blocks) else Release(old(blocks), i)
      ensures Undisturbed(old(mem), old(blocks), mem, blocks, p - META)
      ensures Untouched(old(mem), old(hdr), mem, hdr)
    {
      UntouchedUndisturbed(mem, hdr, blocks, mem, hdr, blocks, base, p - META);
      if p == NULL {
        return;
      }
      HeaderFacts(hdr, blocks, i);
      Within(blocks, base, |mem|, i);
      var info: u32 := p - META;
      var node := Load(info);
      if node.isFreed {
        return;
      } else {
        ReleaseKeeps(blocks, base, |mem|, i);
        FreeBlock(info, i);
        UntouchedUndisturbed(old(mem), old(hdr), old(blocks), mem, hdr, blocks, base, p - META);
      }
    }

    // ---- payload bytes ------------------------------------------------------------------------

    // One byte inside a payload: no header and no other payload changes.
    method StoreByte(a: nat, v: byte, ghost i: nat)
      requires Valid() && i < |blocks| && blocks[i].Payload() <= a < blocks[i].End()
      modifies this`mem
      ensures Valid() && a < |old(mem)| && mem == old(mem)[a := v]
    {
      HeadersOutside(hdr, blocks, base, |mem|, i);
      Within(blocks, base, |mem|, i);
      mem := mem[a := v];
      OutsideKeepsEmbedded(old(mem), mem, base, hdr);
    }

    method ZeroBytes(dst: nat, n: nat, ghost i: nat)
      requires Valid() && i < |blocks| && dst == blocks[i].Payload() && n <= blocks[i].size
      modifies this`mem
      ensures Valid() && |mem| == |old(mem)|
      ensures dst + n <= |mem| && forall a :: dst <= a < dst + n ==> mem[a] == 0
      ensures Undisturbed(old(mem), blocks, mem, blocks, blocks[i].addr)
    {
      Within(blocks, base, |mem|, i);
      for k := 0 to n
        invariant Valid() && |mem| == |old(mem)|
        invariant forall a :: 0 <= a < |mem| ==> mem[a] == if dst <= a < dst + k then 0 else old(mem)[a]
      {
        StoreByte(dst + k, 0, i);
      }
      OtherPayloads(blocks, base, old(mem), mem, i);
    }

    method CopyBytes(dst: nat, src: nat, n: nat, ghost i: nat)
      requires Valid() && i < |blocks| && dst == blocks[i].Payload() && n <= blocks[i].size
      requires dst + n <= |mem| && src + n <= |mem| && (src + n <= dst || dst + n <= src)
      modifies this`mem
      ensures Valid() && |mem| == |old(mem)|
      ensures mem[dst..dst + n] == old(mem)[src..src + n]
      ensures Undisturbed(old(mem), blocks, mem, blocks, blocks[i].addr)
    {
      for k := 0 to n
        invariant Valid() && |mem| == |old(mem)|
        invariant mem[dst..dst + k] == old(mem)[src..src + k]
        invariant forall a :: 0 <= a < |mem| && !(dst <= a < dst + k) ==> mem[a] == old(mem)[a]
      {
        CopyStep(old(mem), mem, dst, src, k);
        StoreByte(dst + k, mem[src + k], i);
      }
      OtherPayloads(blocks, base, old(mem), mem, i);
    }

    // ---- calloc --------------------------------------------------------------------------------

    // The product of the two arguments is a 32-bit size_t and wraps around.
    method Calloc(num: u32, size: u32, grant: bool) returns (ptr: int)
      requires Valid()
      modifies this
      ensures Valid()
      ensures var total := (num * size) % 0x1_0000_0000;
        && Outcome(blocks, ptr) == AfterMalloc(old(mem), old(blocks), base, total, limit, grant)
        && (ptr != NULL ==> 0 < ptr && ptr + total <= |mem| && forall a :: ptr <= a < ptr + total ==> mem[a] == 0)
      ensures Undisturbed(old(mem), old(blocks), mem, blocks, -1)
    {
      var total: u32 := (num * size) % 0x1_0000_0000;
      ptr := ClearedMalloc(total, grant);
    }

    // memset of the first n payload bytes, through the header before the pointer.
    method Clear(ptr: int, n: nat, ghost k: nat)
      requires Valid() && PointsTo(blocks, k, ptr) && n <= blocks[k].size
      modifies this`mem
      ensures Valid() && |mem| == |old(mem)|
      ensures 0 < ptr && ptr + n <= |mem| && forall a :: ptr <= a < ptr + n ==> mem[a] == 0
      ensures Undisturbed(old(mem), blocks, mem, blocks, blocks[k].addr)
    {
      HeaderFacts(hdr, blocks, k);
      var node := Load(ptr - META);
      ZeroBytes(node.start, n, k);
    }

    method ClearedMalloc(total: u32, grant: bool) returns (ptr: int)
      requires Valid()
      modifies this
      ensures Valid()
      ensures Outcome(blocks, ptr) == AfterMalloc(old(mem), old(blocks), base, total, limit, grant)
      ensures ptr != NULL ==>
        0 < ptr && ptr + total <= |mem| && forall a :: ptr <= a < ptr + total ==> mem[a] == 0
      ensures Undisturbed(old(mem), old(blocks), mem, blocks, -1)
    {
      ghost var k := AfterMallocBlock(mem, blocks, base, total, limit, grant);
      ptr := Malloc(total, grant);
      if ptr == NULL {
        return NULL;
      }
      ghost var m1 := mem;
      Clear(ptr, total, k);
      UndisturbedThrough(old(mem), old(blocks), m1, mem, blocks, blocks[k].addr);
    }

    // ---- realloc -------------------------------------------------------------------------------

    method TrimBlock(p: u32, req: u32, ghost i: nat)
      requires Valid() && i < |blocks| && p == blocks[i].addr && !blocks[i].free
      requires 0 < req <= blocks[i].size && req % 4 == 0
      modifies this`mem, this`hdr, this`blocks, this`numFreeBlocks, this`numFreeBytes,
               this`numAllocatedBlocks, this`numAllocatedBytes, this`numMetaDataBlocks
      ensures Valid() && |mem| == |old(mem)| && blocks == Trim(old(blocks), i, req)
      ensures Untouched(old(mem), old(hdr), mem, hdr)
    {
      HeaderFacts(hdr, blocks, i);
      var node := Load(p);
      if node.size - req - META >= REMAIN {
        Split(p, req, i);
      }
    }

    method Absorb(p: u32, req: u32, ghost i: nat)
      requires Valid() && i < |blocks| && p == blocks[i].addr && !blocks[i].free
      requires 0 < req && req % 4 == 0 && CanAbsorb(blocks, i, req)
      modifies this`mem, this`hdr, this`blocks, this`numFreeBlocks, this`numFreeBytes,
               this`numAllocatedBlocks, this`numAllocatedBytes, this`numMetaDataBlocks
      ensures Valid() && |mem| == |old(mem)| && blocks == Trim(Merge(old(blocks), i), i, req)
      ensures Untouched(old(mem), old(hdr), mem, hdr)
    {
      AbsorbKeeps(blocks, base, |mem|, i);
      MergeAt(blocks, i);
      NeighbourFacts(hdr, blocks, base, |mem|, i);
      var node := Load(p);
      Connect(p, node.next, i);
      ghost var m1, h1 := mem, hdr;
      TrimBlock(p, req, i);
      UntouchedTrans(old(mem), old(hdr), m1, h1, mem, hdr);
    }

    // The last block grows with the break.  Its header is marked free and used again without
    // the counters noticing; the counting setFree in between finds it free already.
    method GrowLast(p: u32, req: u32, grant: bool) returns (ptr: int)
      requires Valid() && blocks != [] && p == blocks[|blocks| - 1].addr && !blocks[|blocks| - 1].free
      requires req % 4 == 0 && blocks[|blocks| - 1].size < req
      modifies this`mem, this`hdr, this`blocks, this`numFreeBlocks, this`numFreeBytes, this`numAllocatedBytes
      ensures Valid() && Untouched(old(mem), old(hdr), mem, hdr)
      ensures var last := old(blocks)[|old(blocks)| - 1];
        if grant && |old(mem)| + (req - last.size) <= limit then
          ptr == last.Payload() && blocks == Grow(old(blocks), req) && |mem| == |old(mem)| + (req - last.size)
        else
          ptr == FAILED && blocks == old(blocks) && mem == old(mem)
    {
      TailFacts(hdr, blocks, base, |mem|);
      ghost var m0, h0 := mem, hdr;
      StoreFreed(p, true);
      SetFree(p);
      StoreFreed(p, false);
      assert hdr == h0;
      SameAgain(m0, mem, base, h0, p);
      ptr := Wilderness(req, grant);
    }

    // The copying half of a move: block k takes the payload of block j.
    method CopyPayload(ptr: int, p: int, ghost k: nat, ghost j: nat)
      requires Valid() && PointsTo(blocks, k, ptr) && PointsTo(blocks, j, p) && j != k
      requires blocks[j].size <= blocks[k].size
      modifies this`mem
      ensures Valid() && |mem| == |old(mem)|
      ensures blocks[k].End() <= |mem| && blocks[j].End() <= |mem|
      ensures mem[ptr..ptr + blocks[j].size] == old(mem)[p..p + blocks[j].size]
      ensures Undisturbed(old(mem), blocks, mem, blocks, blocks[k].addr)
    {
      HeaderFacts(hdr, blocks, k);
      HeaderFacts(hdr, blocks, j);
      Within(blocks, base, |mem|, k);
      Within(blocks, base, |mem|, j);
      if j < k { Before(blocks, base, |mem|, j, k); } else { Before(blocks, base, |mem|, k, j); }
      var to := Load(ptr - META);
      var from := Load(p - META);
      CopyBytes(to.start, from.start, from.size, k);
    }

    // The copy and the free that end a move.
    method CopyAndFree(ptr: int, p: int, ghost k: nat, ghost j: nat)
      requires Valid() && PointsTo(blocks, k, ptr) && PointsTo(blocks, j, p) && j != k
      requires !blocks[j].free && !blocks[k].free && blocks[j].size <= blocks[k].size
      modifies this
      ensures Valid() && |mem| == |old(mem)| && blocks == Release(old(blocks), j)
      ensures HoldsCopy(old(mem), mem, p, ptr, old(blocks)[j].size)
      ensures UndisturbedButTwo(old(mem), old(blocks), mem, blocks, old(blocks)[j].addr, old(blocks)[k].addr)
    {
      TwoAddresses(blocks, base, |mem|, j, k);
      ghost var bs := blocks;
      CopyPayload(ptr, p, k, j);
      ghost var m2 := mem;
      assert Undisturbed(old(mem), bs, m2, bs, bs[k].addr);
      assert m2[ptr..ptr + bs[j].size] == old(mem)[p..p + bs[j].size];
      Free(p, j);
      assert Undisturbed(m2, bs, mem, blocks, p - META);
      CopyFreeUndisturbed(old(mem), bs, m2, mem, blocks, j, k, p, ptr);
    }

    // The rest of a move, once malloc has turned (m, bs) into the present state.
    method MoveInto(ptr: int, p: int, ghost k: nat, ghost b: Block, ghost m: Memory, ghost bs: seq<Block>)
      requires Valid() && PointsTo(blocks, k, ptr) && !blocks[k].free
      requires b in bs && !b.free && p == b.Payload() && b.size <= blocks[k].size
      requires Undisturbed(m, bs, mem, blocks, -1)
      requires forall c :: c in bs && !c.free ==> c.addr != blocks[k].addr
      modifies this
      ensures Valid() && blocks == ReleaseAt(old(blocks), b.addr)
      ensures Undisturbed(m, bs, mem, blocks, b.addr)
      ensures HoldsCopy(m, mem, p, ptr, b.size)
    {
      ghost var m1, bs1 := mem, blocks;
      assert b in bs1;
      ghost var j :| 0 <= j < |bs1| && bs1[j] == b;
      TiledIndexOf(bs1, base, |mem|, j);
      CopyAndFree(ptr, p, k, j);
      assert UndisturbedButTwo(m1, bs1, mem, blocks, b.addr, bs1[k].addr);
      MoveUndisturbed(m, bs, m1, bs1, mem, blocks, bs1[k].addr, b, p, ptr);
    }

    method Move(p: int, req: u32, grant: bool, ghost i: nat) returns (ptr: int)
      requires Valid() && PointsTo(blocks, i, p) && !blocks[i].free && blocks[i].size < req
      requires 0 < req <= MAX_SIZE && req % 4 == 0
      modifies this
      ensures Valid()
      ensures var out := AfterMalloc(old(mem), old(blocks), base, req, limit, grant);
        && ptr == out.ptr
        && blocks == if ptr == NULL then out.bs else ReleaseAt(out.bs, old(blocks)[i].addr)
      ensures Undisturbed(old(mem), old(blocks), mem, blocks, old(blocks)[i].addr)
      ensures ptr != NULL ==> HoldsCopy(old(mem), mem, p, ptr, old(blocks)[i].size)
      ensures ptr == NULL ==> Undisturbed(old(mem), old(blocks), mem, blocks, -1)
    {
      ghost var b := blocks[i];
      ghost var k := AfterMallocBlock(mem, blocks, base, req, limit, grant);
      ptr := Malloc(req, grant);
      if ptr == NULL {
        return NULL;
      }
      MoveInto(ptr, p, k, b, old(mem), old(blocks));
    }

    // The strategies that do not move the block; `here` is false when none applies.
    method ReallocInPlace(p: u32, req: u32, grant: bool, ghost i: nat) returns (ptr: int, here: bool)
      requires Valid() && i < |blocks| && p == blocks[i].addr && !blocks[i].free
      requires 0 < req <= MAX_SIZE && req % 4 == 0
      modifies this
      ensures Valid() && Untouched(old(mem), old(hdr), mem, hdr)
      ensures here == (old(blocks)[i].size >= req || i + 1 == |old(blocks)| ||
                       (old(blocks)[i + 1].free && old(blocks)[i].size + 24 + old(blocks)[i + 1].size >= req))
      ensures here ==> Outcome(blocks, ptr) == AfterRealloc(old(mem), old(blocks), base, i, req, limit, grant)
      ensures here && ptr == FAILED ==> mem == old(mem)
      ensures here && ptr != FAILED ==>
                KeptAt(old(blocks), blocks, base, |mem|, i, req) && ptr == old(blocks)[i].Payload()
      ensures !here ==> blocks == old(blocks) && mem == old(mem) && hdr == old(hdr)
    {
      StaysInPlace(blocks, base, |mem|, i, req);
      HeaderFacts(hdr, blocks, i);
      NeighbourFacts(hdr, blocks, base, |mem|, i);
      var node := Load(p);
      if node.size >= req {
        TrimBlock(p, req, i);
        return node.start, true;
      } else {
        var up := node.next;
        var upNode := Load(up);
        HeaderFacts(hdr, blocks, Succ(blocks, i));
        if up != head && upNode.isFreed && node.size + upNode.size + META >= req {
          Absorb(p, req, i);
          return node.start, true;
        }
      }
      TailFacts(hdr, blocks, base, |mem|);
      TiledDistinct(blocks, base, |mem|);
      SameAddr(blocks, i, |blocks| - 1);
      var first := Load(head);
      if first.prev == p {
        ptr := GrowLast(p, req, grant);
        return ptr, true;
      }
      return NULL, false;
    }

    method ReallocHere(p: int, req: u32, grant: bool, ghost i: nat) returns (ptr: int, here: bool)
      requires Valid() && PointsTo(blocks, i, p) && !blocks[i].free
      requires 0 < req <= MAX_SIZE && req % 4 == 0
      modifies this
      ensures Valid()
      ensures here == (old(blocks)[i].size >= req || i + 1 == |old(blocks)| ||
                       (old(blocks)[i + 1].free && old(blocks)[i].size + 24 + old(blocks)[i + 1].size >= req))
      ensures here ==> Outcome(blocks, ptr) == AfterRealloc(old(mem), old(blocks), base, i, req, limit, grant)
      ensures Undisturbed(old(mem), old(blocks), mem, blocks, p - META)
      ensures here && ptr != FAILED ==> HoldsCopy(old(mem), mem, p, ptr, Min(old(blocks)[i].size, req))
      ensures here && (ptr == NULL || ptr == FAILED) ==> Undisturbed(old(mem), old(blocks), mem, blocks, -1)
      ensures !here ==> blocks == old(blocks) && mem == old(mem) && hdr == old(hdr)
    {
      Within(blocks, base, |mem|, i);
      UntouchedUndisturbed(mem, hdr, blocks, mem, hdr, blocks, base, -1);
      UntouchedUndisturbed(mem, hdr, blocks, mem, hdr, blocks, base, p - META);
      ptr, here := ReallocInPlace(p - META, req, grant, i);
      if here && ptr != FAILED {
        InPlaceKept(old(mem), old(hdr), old(blocks), i, mem, hdr, blocks, base, req);
      }
    }

    method ReallocRounded(p: int, req: u32, grant: bool, ghost i: nat) returns (ptr: int)
      requires Valid() && PointsTo(blocks, i, p) && !blocks[i].free
      requires 0 < req <= MAX_SIZE && req % 4 == 0
      modifies this
      ensures Valid()
      ensures Outcome(blocks, ptr) == AfterRealloc(old(mem), old(blocks), base, i, req, limit, grant)
      ensures Undisturbed(old(mem), old(blocks), mem, blocks, p - META)
      ensures if ptr == NULL || ptr == FAILED then Undisturbed(old(mem), old(blocks), mem, blocks, -1)
              else HoldsCopy(old(mem), mem, p, ptr, Min(old(blocks)[i].size, req))
    {
      var here;
      ptr, here := ReallocHere(p, req, grant, i);
      if here {
        return ptr;
      }
      ptr := Move(p, req, grant, i);
    }

    // oldp is NULL or points to block i, which is in use.
    method Realloc(oldp: int, size: u32, grant: bool, ghost i: nat) returns (ptr: int)
      requires Valid() && (oldp == NULL || (PointsTo(blocks, i, oldp) && !blocks[i].free))
      modifies this
      ensures Valid()
      ensures Outcome(blocks, ptr) ==
              if oldp == NULL then AfterMalloc(old(mem), old(blocks), base, size, limit, grant)
              else AfterRealloc(old(mem), old(blocks), base, i, size, limit, grant)
      ensures Undisturbed(old(mem), old(blocks), mem, blocks, oldp - META)
      ensures if oldp == NULL || ptr == NULL || ptr == FAILED then Undisturbed(old(mem), old(blocks), mem, blocks, -1)
              else HoldsCopy(old(mem), mem, oldp, ptr, Min(old(blocks)[i].size, RoundUp(size)))
    {
      if oldp == NULL {
        ptr := Malloc(size, grant);
        return ptr;
      }
      if size == 0 || size > MAX_SIZE {
        UntouchedUndisturbed(mem, hdr, blocks, mem, hdr, blocks, base, oldp - META);
        UntouchedUndisturbed(mem, hdr, blocks, mem, hdr, blocks, base, -1);
        return NULL;
      }
      var req: u32 := size;
      if req % 4 != 0 {
        req := req + (4 - req % 4);
      }
      assert req == RoundUp(size);
      AfterReallocRounds(mem, blocks, base, i, size, limit, grant);
      ptr := ReallocRounded(oldp, req, grant, i);
    }
  }
}
