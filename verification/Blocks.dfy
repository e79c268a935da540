/** What the allocator's list means: the sequence of blocks in address order, and what
    malloc, free and realloc do to it.  Nothing here mentions pointers. */
module Blocks {
  import opened Common
  import opened ByteHeap

  const REMAIN: int := 128

  datatype Block = Block(addr: nat, size: nat, free: bool) {
    function Payload(): nat { addr + META }
    function End(): nat { addr + META + size }
  }

  // ---- the invariant ------------------------------------------------------------------

  // The blocks tile [base, brk): each header sits where the previous block ends.
  ghost predicate Tiled(bs: seq<Block>, base: nat, brk: nat) {
    && (bs == [] ==> base == brk)
    && (bs != [] ==> bs[0].addr == base && bs[|bs| - 1].End() == brk)
    && forall i, j :: 0 <= i && j == i + 1 < |bs| ==> bs[j].addr == bs[i].End()
  }

  ghost predicate Sized(bs: seq<Block>) {
    forall i :: 0 <= i < |bs| ==> 0 < bs[i].size && bs[i].size % 4 == 0
  }

  ghost predicate NoAdjacentFree(bs: seq<Block>) {
    forall i, j :: 0 <= i && j == i + 1 < |bs| ==> !(bs[i].free && bs[j].free)
  }

  ghost predicate Inv(bs: seq<Block>, base: nat, brk: nat) {
    Tiled(bs, base, brk) && Sized(bs) && NoAdjacentFree(bs)
  }

  lemma {:induction false} Before(bs: seq<Block>, base: nat, brk: nat, i: nat, j: nat)
    requires Tiled(bs, base, brk) && i < j < |bs|
    ensures bs[i].End() <= bs[j].addr
    decreases j
  {
    assert bs[j].addr == bs[j - 1].End();
    if i < j - 1 {
      Before(bs, base, brk, i, j - 1);
    }
  }

  lemma Within(bs: seq<Block>, base: nat, brk: nat, i: nat)
    requires Tiled(bs, base, brk) && i < |bs|
    ensures base <= bs[i].addr && bs[i].End() <= brk
  {
    if 0 < i { Before(bs, base, brk, 0, i); }
    if i < |bs| - 1 { Before(bs, base, brk, i, |bs| - 1); }
  }

  // ---- the statistics -------------------------------------------------------------------

  datatype Stats = Stats(blocks: int, bytes: int, freeBlocks: int, freeBytes: int) {
    function Plus(other: Stats): Stats {
      Stats(blocks + other.blocks, bytes + other.bytes,
            freeBlocks + other.freeBlocks, freeBytes + other.freeBytes)
    }
  }

  function StatsOf(b: Block): Stats {
    if b.free then Stats(1, b.size, 1, b.size) else Stats(1, b.size, 0, 0)
  }

  function Recount(bs: seq<Block>): Stats {
    if bs == [] then Stats(0, 0, 0, 0) else StatsOf(bs[0]).Plus(Recount(bs[1..]))
  }

  lemma {:induction false} RecountConcat(xs: seq<Block>, ys: seq<Block>)
    ensures Recount(xs + ys) == Recount(xs).Plus(Recount(ys))
  {
    if xs == [] {
      assert xs + ys == ys;
    } else {
      assert (xs + ys)[0] == xs[0] && (xs + ys)[1..] == xs[1..] + ys;
      RecountConcat(xs[1..], ys);
    }
  }

  lemma RecountAround(xs: seq<Block>, mid: seq<Block>, ys: seq<Block>)
    ensures Recount(xs + mid + ys) == Recount(xs).Plus(Recount(mid)).Plus(Recount(ys))
  {
    RecountConcat(xs + mid, ys);
    RecountConcat(xs, mid);
  }

  // What one more block at the end adds to each counter.
  lemma RecountOneMore(bs: seq<Block>, b: Block)
    ensures Recount([]) == Stats(0, 0, 0, 0)
    ensures var n, n' := Recount(bs), Recount(bs + [b]);
            && n'.blocks == n.blocks + 1 && n'.bytes == n.bytes + b.size
            && n'.freeBlocks == (if b.free then n.freeBlocks + 1 else n.freeBlocks)
            && n'.freeBytes == (if b.free then n.freeBytes + b.size else n.freeBytes)
  {
    RecountConcat(bs, [b]);
    assert [b][1..] == [];
  }

  // The two size counters account for every byte between the heap base and the break.
  lemma {:induction false} BytesAccount(bs: seq<Block>, base: nat, brk: nat)
    requires Tiled(bs, base, brk)
    ensures Recount(bs).blocks == |bs|
    ensures Recount(bs).bytes + META * |bs| == brk - base
  {
    if bs != [] {
      var rest := bs[1..];
      assert Tiled(rest, bs[0].End(), brk) by {
        assert rest != [] ==> rest[0] == bs[1] && bs[1].addr == bs[0].End();
      }
      BytesAccount(rest, bs[0].End(), brk);
    }
  }

  lemma {:induction false} FreeIsPart(bs: seq<Block>)
    ensures 0 <= Recount(bs).freeBlocks <= Recount(bs).blocks
    ensures 0 <= Recount(bs).freeBytes <= Recount(bs).bytes
  {
    if bs != [] {
      FreeIsPart(bs[1..]);
    }
  }

  // ---- the operations ---------------------------------------------------------------------

  // Joins block i with its successor.
  function Merge(bs: seq<Block>, i: nat): seq<Block>
    requires i + 1 < |bs|
  {
    bs[..i] + [bs[i].(size := bs[i].size + META + bs[i + 1].size)] + bs[i + 2..]
  }

  // Joins the free block i with its free neighbours; the ends of the list have one neighbour.
  function Coalesce(bs: seq<Block>, i: nat): seq<Block>
    requires i < |bs|
  {
    var withNext := if i + 1 < |bs| && bs[i + 1].free then Merge(bs, i) else bs;
    if 0 < i && bs[i - 1].free then Merge(withNext, i - 1) else withNext
  }

  // Cuts block i down to `req` bytes in use; the rest becomes a free block.
  function Cut(bs: seq<Block>, i: nat, req: nat): seq<Block>
    requires i < |bs| && req + META <= bs[i].size
  {
    bs[..i] + [Block(bs[i].addr, req, false),
               Block(bs[i].addr + META + req, bs[i].size - req - META, true)] + bs[i + 1..]
  }

  function Split(bs: seq<Block>, i: nat, req: nat): seq<Block>
    requires i < |bs| && req + META <= bs[i].size
  {
    Coalesce(Cut(bs, i, req), i + 1)
  }

  predicate Worthwhile(size: nat, req: nat) {
    size - req - META >= REMAIN
  }

  // Block i serves `req` bytes: whole, or split when the rest is big enough.
  function Place(bs: seq<Block>, i: nat, req: nat): seq<Block>
    requires i < |bs| && req <= bs[i].size
  {
    if Worthwhile(bs[i].size, req) then Split(bs, i, req) else bs[i := bs[i].(free := false)]
  }

  // The last block takes over the room up to a new break.
  function Grow(bs: seq<Block>, req: nat): seq<Block>
    requires bs != []
  {
    bs[..|bs| - 1] + [bs[|bs| - 1].(size := req, free := false)]
  }

  predicate Fits(b: Block, req: nat) {
    b.free && req <= b.size
  }

  // The lowest-addressed free block that is large enough.
  function FirstFit(bs: seq<Block>, req: nat): (r: Option<nat>)
    ensures r.Some? ==> r.value < |bs| && Fits(bs[r.value], req)
                        && forall j :: 0 <= j < r.value ==> !Fits(bs[j], req)
    ensures r.None? ==> forall j :: 0 <= j < |bs| ==> !Fits(bs[j], req)
  {
    if bs == [] then None
    else if Fits(bs[0], req) then Some(0)
    else match FirstFit(bs[1..], req)
      case None => None
      case Some(k) => Some(k + 1)
  }

  // The new list and the index of the block that serves the request, if any.
  // `room` answers whether the break can be moved that far.
  datatype Served = Served(bs: seq<Block>, at: Option<nat>)

  // What the break has to grow by when no free block fits.
  function Shortage(bs: seq<Block>, req: nat): int {
    if bs != [] && bs[|bs| - 1].free then req - bs[|bs| - 1].size else req + META
  }

  function Allocate(bs: seq<Block>, base: nat, req: nat, room: bool): Served {
    match FirstFit(bs, req)
    case Some(i) => Served(Place(bs, i, req), Some(i))
    case None =>
      if !room then Served(bs, None)
      else if bs != [] && bs[|bs| - 1].free then Served(Grow(bs, req), Some(|bs| - 1))
      else Served(bs + [Block(if bs == [] then base else bs[|bs| - 1].End(), req, false)], Some(|bs|))
  }

  function Release(bs: seq<Block>, i: nat): seq<Block>
    requires i < |bs|
  {
    Coalesce(bs[i := bs[i].(free := true)], i)
  }
}
