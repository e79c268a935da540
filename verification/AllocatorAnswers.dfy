/** What malloc, free and realloc answer and what the heap then looks like, spelt out block by block
    and byte by byte. */
module AllocatorAnswers {
  import opened Common
  import opened ByteHeap
  import opened Blocks
  import opened BlockLemmas
  import opened CoalescingAllocator

  // ---- lists in three parts -----------------------------------------------------------------------

  lemma Parts(pre: seq<Block>, mid: seq<Block>, post: seq<Block>)
    ensures (pre + mid + post)[..|pre|] == pre && (pre + mid + post)[|pre| + |mid|..] == post
    ensures forall k :: 0 <= k < |mid| ==> (pre + mid + post)[|pre| + k] == mid[k]
  {
  }

  lemma MergeIn(pre: seq<Block>, b: Block, c: Block, post: seq<Block>)
    ensures Merge(pre + [b, c] + post, |pre|) == pre + [b.(size := b.size + 24 + c.size)] + post
  {
    Parts(pre, [b, c], post);
  }

  lemma CutIn(pre: seq<Block>, b: Block, post: seq<Block>, req: nat)
    requires req + 24 <= b.size
    ensures Cut(pre + [b] + post, |pre|, req)
            == pre + [Block(b.addr, req, false), Block(b.addr + 24 + req, b.size - req - 24, true)] + post
  {
    Parts(pre, [b], post);
  }

  // A block behind one in use, with what follows.
  lemma CoalesceUpIn(pre: seq<Block>, a: Block, b: Block, post: seq<Block>)
    requires !a.free
    ensures Coalesce(pre + [a, b] + post, |pre| + 1) ==
            if post != [] && post[0].free then pre + [a, b.(size := b.size + 24 + post[0].size)] + post[1..]
            else pre + [a, b] + post
  {
    var bs := pre + [a, b] + post;
    Parts(pre, [a, b], post);
    if post != [] {
      assert bs[|pre| + 2] == post[0];
      if post[0].free {
        assert bs == (pre + [a]) + [b, post[0]] + post[1..];
        MergeIn(pre + [a], b, post[0], post[1..]);
        assert (pre + [a]) + [b.(size := b.size + 24 + post[0].size)] + post[1..]
               == pre + [a, b.(size := b.size + 24 + post[0].size)] + post[1..];
      }
    }
  }

  lemma SplitIn(pre: seq<Block>, b: Block, post: seq<Block>, req: nat)
    requires req + 24 <= b.size
    ensures Split(pre + [b] + post, |pre|, req) ==
            if post != [] && post[0].free
            then pre + [Block(b.addr, req, false),
                        Block(b.addr + 24 + req, b.size - req - 24 + 24 + post[0].size, true)] + post[1..]
            else pre + [Block(b.addr, req, false), Block(b.addr + 24 + req, b.size - req - 24, true)] + post
  {
    CutIn(pre, b, post, req);
    CoalesceUpIn(pre, Block(b.addr, req, false), Block(b.addr + 24 + req, b.size - req - 24, true), post);
  }

  // ---- malloc ---------------------------------------------------------------------------------

  lemma PlaceIn(bs: seq<Block>, i: nat, req: nat)
    requires i < |bs| && bs[i].free && 0 < req <= bs[i].size && (i + 1 < |bs| ==> !bs[i + 1].free)
    ensures var b := bs[i];
            Place(bs, i, req) ==
            bs[..i] + (if b.size >= req + 24 + 128
                       then [Block(b.addr, req, false), Block(b.addr + 24 + req, b.size - req - 24, true)]
                       else [Block(b.addr, b.size, false)])
            + bs[i + 1..]
  {
    assert bs == bs[..i] + [bs[i]] + bs[i + 1..];
    if bs[i].size >= req + 24 + 128 {
      SplitIn(bs[..i], bs[i], bs[i + 1..], req);
    }
  }

  lemma MallocRefuses(m: Memory, bs: seq<Block>, base: nat, size: nat, limit: nat, grant: bool)
    requires Inv(bs, base, |m|) && (size == 0 || size > 100_000_000)
    ensures AfterMalloc(m, bs, base, size, limit, grant) == Outcome(bs, 0)
  {
  }

  // A word of four 0xff bytes.
  lemma MinusOneInBytes(m: Memory, a: nat)
    requires a + 4 <= |m|
    ensures WordAt(m, a) == 0xFFFF_FFFF <==> m[a] == m[a + 1] == m[a + 2] == m[a + 3] == 255
  {
  }

  /** The lowest free block that is large enough serves the request.  It is cut when the rest has room
      for a header and 128 bytes; four 0xff bytes at its front make the answer NULL. */
  lemma MallocRecycles(m: Memory, bs: seq<Block>, base: nat, size: nat, req: nat, limit: nat, grant: bool, i: nat)
    requires Inv(bs, base, |m|) && 0 < size <= 100_000_000 && req % 4 == 0 && size <= req < size + 4
    requires i < |bs| && bs[i].free && bs[i].size >= req
    requires forall j :: 0 <= j < i ==> !(bs[j].free && bs[j].size >= req)
    ensures bs[i].addr + 28 <= |m|
    ensures var b, out := bs[i], AfterMalloc(m, bs, base, size, limit, grant);
            && out.bs == bs[..i]
                         + (if b.size >= req + 24 + 128
                            then [Block(b.addr, req, false), Block(b.addr + 24 + req, b.size - req - 24, true)]
                            else [Block(b.addr, b.size, false)])
                         + bs[i + 1..]
            && out.ptr == if m[b.addr + 24] == m[b.addr + 25] == m[b.addr + 26] == m[b.addr + 27] == 255
                          then 0 else b.addr + 24
  {
    FirstIs(bs, req, i);
    RoomForWord(bs, base, |m|, i);
    FirstServes(m, bs, base, size, req, limit, grant, i);
    MinusOneInBytes(m, bs[i].addr + 24);
    assert i + 1 < |bs| ==> !bs[i + 1].free;
    PlaceIn(bs, i, req);
  }

  // A payload has room for a word.
  lemma RoomForWord(bs: seq<Block>, base: nat, brk: nat, i: nat)
    requires Inv(bs, base, brk) && i < |bs|
    ensures bs[i].addr + 28 <= brk
  {
    Within(bs, base, brk, i);
  }

  lemma FirstServes(m: Memory, bs: seq<Block>, base: nat, size: nat, req: nat, limit: nat, grant: bool, i: nat)
    requires Inv(bs, base, |m|) && 0 < size <= 100_000_000 && RoundUp(size) == req
    requires i < |bs| && bs[i].addr + 28 <= |m| && req <= bs[i].size && FirstFit(bs, req) == Some(i)
    ensures AfterMalloc(m, bs, base, size, limit, grant) ==
            Outcome(Place(bs, i, req), if WordAt(m, bs[i].addr + 24) == 0xFFFF_FFFF then 0 else bs[i].addr + 24)
  {
    PlaceKeeps(bs, base, |m|, i, req);
    assert Allocate(bs, base, req, Room(bs, |m|, limit, req, grant)) == Served(Place(bs, i, req), Some(i));
  }

  lemma FirstIs(bs: seq<Block>, req: nat, i: nat)
    requires i < |bs| && bs[i].free && bs[i].size >= req
    requires forall j :: 0 <= j < i ==> !(bs[j].free && bs[j].size >= req)
    ensures FirstFit(bs, req) == Some(i)
  {
    assert Fits(bs[i], req);
  }

  /** With no free block large enough the heap grows: a free last block by what it lacks, else by a new
      block; when the break cannot move nothing changes. */
  lemma MallocExtends(m: Memory, bs: seq<Block>, base: nat, size: nat, req: nat, limit: nat, grant: bool)
    requires Inv(bs, base, |m|) && 0 < size <= 100_000_000 && req % 4 == 0 && size <= req < size + 4
    requires forall j :: 0 <= j < |bs| ==> !(bs[j].free && bs[j].size >= req)
    ensures var n, out := |bs| - 1, AfterMalloc(m, bs, base, size, limit, grant);
            if bs != [] && bs[n].free then
              && bs[n].addr + 28 <= |m|
              && out == if !(grant && |m| + req - bs[n].size <= limit) then Outcome(bs, 0)
                        else Outcome(bs[..n] + [Block(bs[n].addr, req, false)],
                                     var a := bs[n].addr + 24;
                                     if m[a] == m[a + 1] == m[a + 2] == m[a + 3] == 255 then 0 else a)
            else
              out == if !(grant && |m| + 24 + req <= limit) then Outcome(bs, 0)
                     else Outcome(bs + [Block(|m|, req, false)], |m| + 24)
  {
    assert RoundUp(size) == req && FirstFit(bs, req).None?;
    if bs != [] && bs[|bs| - 1].free {
      RoomForWord(bs, base, |m|, |bs| - 1);
      MinusOneInBytes(m, bs[|bs| - 1].addr + 24);
    }
  }

  // ---- free -----------------------------------------------------------------------------------

  /** The freed block and its free neighbours become one free block, from the start of the first of them
      to the end of the last; all other blocks stay. */
  lemma FreeMerges(bs: seq<Block>, base: nat, brk: nat, i: nat)
    requires Inv(bs, base, brk) && i < |bs| && !bs[i].free
    ensures var first := if 0 < i && bs[i - 1].free then i - 1 else i;
            var last := if i + 1 < |bs| && bs[i + 1].free then i + 1 else i;
            && bs[first].addr + 24 <= bs[last].addr + 24 + bs[last].size
            && Release(bs, i) ==
               bs[..first]
               + [Block(bs[first].addr, bs[last].addr + 24 + bs[last].size - (bs[first].addr + 24), true)]
               + bs[last + 1..]
  {
    ReleaseIn(bs, i);
    if i + 1 < |bs| {
      assert bs[i + 1].addr == bs[i].End();
    }
    if 0 < i {
      assert bs[i].addr == bs[i - 1].End();
    }
  }

  lemma ReleaseIn(bs: seq<Block>, i: nat)
    requires i < |bs|
    ensures var up := i + 1 < |bs| && bs[i + 1].free;
            var b := Block(bs[i].addr, bs[i].size + if up then 24 + bs[i + 1].size else 0, true);
            var post := bs[if up then i + 2 else i + 1..];
            Release(bs, i) == if 0 < i && bs[i - 1].free
                              then bs[..i - 1] + [bs[i - 1].(size := bs[i - 1].size + 24 + b.size)] + post
                              else bs[..i] + [b] + post
  {
    var freed := bs[i := bs[i].(free := true)];
    var up := i + 1 < |bs| && bs[i + 1].free;
    var b := Block(bs[i].addr, bs[i].size + if up then 24 + bs[i + 1].size else 0, true);
    var post := bs[if up then i + 2 else i + 1..];
    if up {
      assert freed == bs[..i] + [freed[i], bs[i + 1]] + bs[i + 2..];
      MergeIn(bs[..i], freed[i], bs[i + 1], bs[i + 2..]);
    }
    var withNext := if up then Merge(freed, i) else freed;
    assert withNext == bs[..i] + [b] + post;
    if 0 < i && bs[i - 1].free {
      assert withNext == bs[..i - 1] + [bs[i - 1], b] + post;
      MergeIn(bs[..i - 1], bs[i - 1], b, post);
    }
  }

  // ---- realloc --------------------------------------------------------------------------------

  // Cutting a block in use: what is left of it merges with a free successor.
  lemma TrimCuts(bs: seq<Block>, i: nat, req: nat)
    requires i < |bs| && 0 < req <= bs[i].size
    ensures var b, next := bs[i], i + 1 < |bs| && bs[i + 1].free;
            Trim(bs, i, req) ==
            if b.size < req + 24 + 128 then bs
            else bs[..i] + [Block(b.addr, req, false),
                            Block(b.addr + 24 + req,
                                  b.size - req - 24 + if next then 24 + bs[i + 1].size else 0, true)]
                 + bs[if next then i + 2 else i + 1..]
  {
    var b := bs[i];
    if b.size >= req + 24 + 128 {
      assert bs == bs[..i] + [b] + bs[i + 1..];
      SplitIn(bs[..i], b, bs[i + 1..], req);
    }
  }

  lemma ReallocRefuses(m: Memory, bs: seq<Block>, base: nat, i: nat, size: nat, limit: nat, grant: bool)
    requires Inv(bs, base, |m|) && i < |bs| && !bs[i].free && (size == 0 || size > 100_000_000)
    ensures AfterRealloc(m, bs, base, i, size, limit, grant) == Outcome(bs, 0)
  {
  }

  /** A block that is large enough stays; it gives back what is worth a block. */
  lemma ReallocShrinks(m: Memory, bs: seq<Block>, base: nat, i: nat, size: nat, req: nat, limit: nat, grant: bool)
    requires Inv(bs, base, |m|) && i < |bs| && !bs[i].free
    requires 0 < size <= 100_000_000 && req % 4 == 0 && size <= req < size + 4 && req <= bs[i].size
    ensures var b, next := bs[i], i + 1 < |bs| && bs[i + 1].free;
            AfterRealloc(m, bs, base, i, size, limit, grant) ==
            Outcome(if b.size < req + 24 + 128 then bs
                    else bs[..i] + [Block(b.addr, req, false),
                                    Block(b.addr + 24 + req,
                                          b.size - req - 24 + if next then 24 + bs[i + 1].size else 0, true)]
                         + bs[if next then i + 2 else i + 1..],
                    b.addr + 24)
  {
    assert RoundUp(size) == req;
    TrimCuts(bs, i, req);
  }

  /** A free successor is taken over exactly when the room from this payload to the end of the successor
      is enough, whether the break can move or not.  The block then ends where the successor did, or
      is cut to the request. */
  lemma ReallocAbsorbs(m: Memory, bs: seq<Block>, base: nat, i: nat, size: nat, req: nat, limit: nat, grant: bool)
    requires Inv(bs, base, |m|) && i + 1 < |bs| && !bs[i].free && bs[i + 1].free
    requires 0 < size <= 100_000_000 && req % 4 == 0 && size <= req < size + 4 && bs[i].size < req
    requires bs[i + 1].addr + 24 + bs[i + 1].size - (bs[i].addr + 24) >= req
    ensures var b, all := bs[i], bs[i + 1].addr + 24 + bs[i + 1].size - (bs[i].addr + 24);
            AfterRealloc(m, bs, base, i, size, limit, grant) ==
            Outcome(bs[..i]
                    + (if all < req + 24 + 128 then [Block(b.addr, all, false)]
                       else [Block(b.addr, req, false), Block(b.addr + 24 + req, all - req - 24, true)])
                    + bs[i + 2..],
                    b.addr + 24)
  {
    assert RoundUp(size) == req && bs[i + 1].addr == bs[i].End();
    assert i + 2 < |bs| ==> !bs[i + 2].free;
    AbsorbIn(bs, i, req);
  }

  lemma AbsorbIn(bs: seq<Block>, i: nat, req: nat)
    requires i + 1 < |bs| && 0 < req <= bs[i].size + 24 + bs[i + 1].size
    requires !bs[i].free && (i + 2 < |bs| ==> !bs[i + 2].free)
    ensures var all := bs[i].size + 24 + bs[i + 1].size;
            && |Merge(bs, i)| == |bs| - 1 && Merge(bs, i)[i].size == all
            && Trim(Merge(bs, i), i, req) ==
               bs[..i]
               + (if all < req + 24 + 128 then [Block(bs[i].addr, all, false)]
                  else [Block(bs[i].addr, req, false), Block(bs[i].addr + 24 + req, all - req - 24, true)])
               + bs[i + 2..]
  {
    assert bs == bs[..i] + [bs[i], bs[i + 1]] + bs[i + 2..];
    MergeIn(bs[..i], bs[i], bs[i + 1], bs[i + 2..]);
    TrimIn(bs[..i], bs[i].(size := bs[i].size + 24 + bs[i + 1].size), bs[i + 2..], req);
  }

  lemma TrimIn(pre: seq<Block>, b: Block, post: seq<Block>, req: nat)
    requires 0 < req <= b.size && !b.free && (post != [] ==> !post[0].free)
    ensures |pre + [b] + post| == |pre| + 1 + |post| && (pre + [b] + post)[|pre|] == b
    ensures Trim(pre + [b] + post, |pre|, req) ==
            pre
            + (if b.size < req + 24 + 128 then [Block(b.addr, b.size, false)]
               else [Block(b.addr, req, false), Block(b.addr + 24 + req, b.size - req - 24, true)])
            + post
  {
    Parts(pre, [b], post);
    if b.size >= req + 24 + 128 {
      SplitIn(pre, b, post, req);
    }
  }

  /** A last block that is too small grows to the request, or the answer is -1 and nothing changes. */
  lemma ReallocGrows(m: Memory, bs: seq<Block>, base: nat, size: nat, req: nat, limit: nat, grant: bool)
    requires Inv(bs, base, |m|) && bs != [] && !bs[|bs| - 1].free
    requires 0 < size <= 100_000_000 && req % 4 == 0 && size <= req < size + 4 && bs[|bs| - 1].size < req
    ensures var n := |bs| - 1;
            AfterRealloc(m, bs, base, n, size, limit, grant) ==
            if grant && |m| + req - bs[n].size <= limit
            then Outcome(bs[..n] + [Block(bs[n].addr, req, false)], bs[n].addr + 24)
            else Outcome(bs, -1)
  {
    assert RoundUp(size) == req;
  }

  /** In the remaining case the answer is malloc's, and the old block is freed unless that is NULL. */
  lemma ReallocMoves(m: Memory, bs: seq<Block>, base: nat, i: nat, size: nat, req: nat, limit: nat, grant: bool)
      returns (j: nat)
    requires Inv(bs, base, |m|) && i + 1 < |bs| && !bs[i].free
    requires 0 < size <= 100_000_000 && req % 4 == 0 && size <= req < size + 4 && bs[i].size < req
    requires !(bs[i + 1].free && bs[i + 1].addr + 24 + bs[i + 1].size - (bs[i].addr + 24) >= req)
    ensures var out, got := AfterRealloc(m, bs, base, i, size, limit, grant),
                            AfterMalloc(m, bs, base, size, limit, grant);
            && out.ptr == got.ptr && out.ptr != bs[i].addr + 24
            && j < |got.bs| && got.bs[j] == bs[i]
            && out.bs == if got.ptr == 0 then got.bs else Release(got.bs, j)
  {
    assert RoundUp(size) == RoundUp(req) == req && bs[i + 1].addr == bs[i].End();
    assert AfterMalloc(m, bs, base, req, limit, grant) == AfterMalloc(m, bs, base, size, limit, grant);
    var got := AfterMalloc(m, bs, base, size, limit, grant);
    j := StillThere(m, bs, base, i, size, limit, grant);
    assert ReleaseAt(got.bs, bs[i].addr) == Release(got.bs, j);
  }

  // A block in use is still in the list after malloc, and not what malloc answers.
  lemma StillThere(m: Memory, bs: seq<Block>, base: nat, i: nat, size: nat, limit: nat, grant: bool)
      returns (j: nat)
    requires Inv(bs, base, |m|) && i < |bs| && !bs[i].free && 0 < size <= 100_000_000
    ensures var got := AfterMalloc(m, bs, base, size, limit, grant);
            j < |got.bs| && got.bs[j] == bs[i] && IndexOf(got.bs, bs[i].addr) == j && got.ptr != bs[i].addr + 24
  {
    var got := AfterMalloc(m, bs, base, size, limit, grant);
    var req := RoundUp(size);
    var k := AfterMallocBlock(m, bs, base, size, limit, grant);
    AfterMallocKeeps(m, bs, base, size, limit, grant);
    assert bs[i] in bs && bs[i] in got.bs;
    j :| 0 <= j < |got.bs| && got.bs[j] == bs[i];
    var room := Room(bs, |m|, limit, req, grant);
    AllocateKeeps(bs, base, |m|, req, room);
    TiledIndexOf(got.bs, base, if FirstFit(bs, req).None? && room then |m| + Shortage(bs, req) else |m|, j);
  }

  /** realloc answers with another pointer if and only if the block is too small, not the last one, cannot
      take over a free successor, and malloc serves the request. */
  lemma ReallocMovesIff(m: Memory, bs: seq<Block>, base: nat, i: nat, size: nat, req: nat, limit: nat, grant: bool)
    requires Inv(bs, base, |m|) && 0 < base && i < |bs| && !bs[i].free
    requires 0 < size <= 100_000_000 && req % 4 == 0 && size <= req < size + 4
    ensures AfterRealloc(m, bs, base, i, size, limit, grant).ptr !in {0, -1, bs[i].addr + 24} <==>
              && bs[i].size < req && i + 1 < |bs|
              && !(bs[i + 1].free && bs[i + 1].addr + 24 + bs[i + 1].size - (bs[i].addr + 24) >= req)
              && AfterMalloc(m, bs, base, size, limit, grant).ptr != 0
  {
    if bs[i].size >= req {
      ReallocShrinks(m, bs, base, i, size, req, limit, grant);
    } else if i + 1 == |bs| {
      ReallocGrows(m, bs, base, size, req, limit, grant);
    } else if bs[i + 1].free && bs[i + 1].addr + 24 + bs[i + 1].size - (bs[i].addr + 24) >= req {
      ReallocAbsorbs(m, bs, base, i, size, req, limit, grant);
    } else {
      var j := ReallocMoves(m, bs, base, i, size, req, limit, grant);
    }
  }
}
