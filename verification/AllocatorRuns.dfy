/** What the calls of the allocator promise the program, over one call and over whole runs. */
module AllocatorRuns {
  import opened ByteHeap
  import opened Blocks
  import opened BlockLemmas
  import opened CoalescingAllocator

  // ---- one call -------------------------------------------------------------------------------

  /** malloc returns a block exactly when the size is in range, a free block fits or the break
      can move, and the payload it would recycle does not start with the word -1. */
  lemma MallocSucceedsIff(m: Memory, bs: seq<Block>, base: nat, size: nat, limit: nat, grant: bool)
    requires Inv(bs, base, |m|) && 0 < base
    ensures var req := RoundUp(size);
            AfterMalloc(m, bs, base, size, limit, grant).ptr != NULL <==>
              && 0 < size <= MAX_SIZE
              && Serves(m, bs, req, limit, grant)
  {
    var req := RoundUp(size);
    if 0 < size {
      AllocateKeeps(bs, base, |m|, req, Room(bs, |m|, limit, req, grant));
    }
  }

  // First fit in address order.
  lemma MallocIsFirstFit(m: Memory, bs: seq<Block>, base: nat, size: nat, limit: nat, grant: bool, b: Block)
    requires Inv(bs, base, |m|) && b in bs && Fits(b, RoundUp(size))
    ensures var out := AfterMalloc(m, bs, base, size, limit, grant);
            out.ptr != NULL ==>
              out.ptr <= b.Payload() && exists c :: c in bs && Fits(c, RoundUp(size)) && out.ptr == c.Payload()
  {
    var req := RoundUp(size);
    var j :| 0 <= j < |bs| && bs[j] == b;
    var i := FirstFit(bs, req).value;
    if i < j { Before(bs, base, |m|, i, j); }
    if 0 < size <= MAX_SIZE {
      PlaceKeeps(bs, base, |m|, i, req);
    }
  }

  /** The free block that fits is lost: malloc answers NULL and leaves it marked in use. */
  lemma MinusOneLosesABlock(m: Memory, bs: seq<Block>, base: nat, size: nat, limit: nat, grant: bool)
    requires Inv(bs, base, |m|) && 0 < size <= MAX_SIZE
    requires FirstFit(bs, RoundUp(size)).Some? && StartsWithMinusOne(m, bs, FirstFit(bs, RoundUp(size)).value)
    ensures var out := AfterMalloc(m, bs, base, size, limit, grant);
            var i := FirstFit(bs, RoundUp(size)).value;
            out.ptr == NULL && i < |out.bs| && out.bs[i].addr == bs[i].addr && !out.bs[i].free
  {
    PlaceKeeps(bs, base, |m|, FirstFit(bs, RoundUp(size)).value, RoundUp(size));
  }

  /** calloc asks for the product of its arguments in 32 bits.  The block it gets covers the array
      exactly when the product did not wrap. */
  lemma CallocCoversIff(m: Memory, bs: seq<Block>, base: nat, num: u32, size: u32, limit: nat, grant: bool)
      returns (k: nat)
    requires Inv(bs, base, |m|)
    ensures var out := AfterMalloc(m, bs, base, (num * size) % 0x1_0000_0000, limit, grant);
            out.ptr == NULL ||
              (&& PointsTo(out.bs, k, out.ptr) && !out.bs[k].free
               && (num * size <= out.bs[k].size <==> num * size < 0x1_0000_0000))
  {
    k := AfterMallocBlock(m, bs, base, (num * size) % 0x1_0000_0000, limit, grant);
  }

  /** The failure value of sbrk comes out of realloc exactly when the block is the last one, too
      small, and the break cannot move. */
  lemma ReallocFailsIff(m: Memory, bs: seq<Block>, base: nat, i: nat, size: nat, limit: nat, grant: bool)
    requires Inv(bs, base, |m|) && i < |bs| && !bs[i].free
    ensures AfterRealloc(m, bs, base, i, size, limit, grant).ptr == FAILED <==>
              && 0 < size <= MAX_SIZE && i == |bs| - 1 && bs[i].size < RoundUp(size)
              && !(grant && |m| + (RoundUp(size) - bs[i].size) <= limit)
  {
  }

  // malloc finds a block for a rounded request and does not take it for a failure.
  ghost predicate Serves(m: Memory, bs: seq<Block>, req: nat, limit: nat, grant: bool) {
    var fit := FirstFit(bs, req);
    && (fit.Some? || Room(bs, |m|, limit, req, grant))
    && (fit.Some? ==> !StartsWithMinusOne(m, bs, fit.value))
    && (fit.None? && bs != [] && bs[|bs| - 1].free ==> !StartsWithMinusOne(m, bs, |bs| - 1))
  }

  /** realloc returns a block exactly when the old one is large enough, can take over its free
      successor, is the last one and can grow, or, being neither, malloc would serve the request. */
  lemma ReallocSucceedsIff(m: Memory, bs: seq<Block>, base: nat, i: nat, size: nat, limit: nat, grant: bool)
    requires Inv(bs, base, |m|) && 0 < base && i < |bs| && !bs[i].free
    ensures var out, req := AfterRealloc(m, bs, base, i, size, limit, grant), RoundUp(size);
            out.ptr != NULL && out.ptr != FAILED <==>
              && 0 < size <= MAX_SIZE
              && (|| bs[i].size >= req
                  || (i + 1 < |bs| && bs[i + 1].free
                      && bs[i + 1].addr + 24 + bs[i + 1].size - (bs[i].addr + 24) >= req)
                  || (i == |bs| - 1 && grant && |m| + (req - bs[i].size) <= limit)
                  || (i < |bs| - 1 && Serves(m, bs, req, limit, grant)))
  {
    if 0 < size <= MAX_SIZE {
      Within(bs, base, |m|, i);
      assert i + 1 < |bs| ==> bs[i + 1].addr == bs[i].End();
      MallocSucceedsIff(m, bs, base, RoundUp(size), limit, grant);
    }
  }

  // realloc returns a block big enough with bounded waste, on all of its strategies.
  lemma ReallocBlock(m: Memory, bs: seq<Block>, base: nat, i: nat, size: nat, limit: nat, grant: bool)
      returns (k: nat)
    requires Inv(bs, base, |m|) && i < |bs| && !bs[i].free && 0 < size <= MAX_SIZE
    ensures var out := AfterRealloc(m, bs, base, i, size, limit, grant);
            out.ptr == NULL || out.ptr == FAILED ||
              (&& PointsTo(out.bs, k, out.ptr) && !out.bs[k].free
               && RoundUp(size) <= out.bs[k].size < RoundUp(size) + META + REMAIN)
  {
    var req := RoundUp(size);
    var out := AfterRealloc(m, bs, base, i, size, limit, grant);
    StaysInPlace(bs, base, |m|, i, req);
    k := i;
    if bs[i].size < req && !CanAbsorb(bs, i, req) && i != |bs| - 1 {
      k := MovedBlock(m, bs, base, i, req, limit, grant);
    }
  }

  // After a move, the new block survives the freeing of the old one.
  lemma MovedBlock(m: Memory, bs: seq<Block>, base: nat, i: nat, req: nat, limit: nat, grant: bool)
      returns (k: nat)
    requires Inv(bs, base, |m|) && i < |bs| && !bs[i].free && 0 < req <= MAX_SIZE && req % 4 == 0
    ensures var moved := AfterMalloc(m, bs, base, req, limit, grant);
            var bs' := ReleaseAt(moved.bs, bs[i].addr);
            moved.ptr == NULL ||
              (&& PointsTo(bs', k, moved.ptr) && !bs'[k].free
               && req <= bs'[k].size < req + META + REMAIN)
  {
    var moved := AfterMalloc(m, bs, base, req, limit, grant);
    k := 0;
    if moved.ptr != NULL {
      var room := Room(bs, |m|, limit, req, grant);
      AllocateKeeps(bs, base, |m|, req, room);
      var c := moved.bs[Allocate(bs, base, req, room).at.value];
      var j := IndexOf(moved.bs, bs[i].addr);
      if j == |moved.bs| {
        k :| 0 <= k < |moved.bs| && moved.bs[k] == c;
      } else {
        ReleaseKeeps(moved.bs, base, BreakOf(moved.bs, base), j);
        assert c in ReleaseAt(moved.bs, bs[i].addr);
        k :| 0 <= k < |ReleaseAt(moved.bs, bs[i].addr)| && ReleaseAt(moved.bs, bs[i].addr)[k] == c;
      }
    }
  }

  // ---- whole runs -----------------------------------------------------------------------------

  function BreakOf(bs: seq<Block>, base: nat): nat {
    if bs == [] then base else bs[|bs| - 1].End()
  }

  // One call of the program.  `m` is the memory at the time of the call, whatever the
  // program has stored in its payloads.
  datatype Call =
    | MallocCall(m: Memory, size: nat, grant: bool)
    | CallocCall(m: Memory, num: u32, each: u32, grant: bool)
    | FreeCall(i: nat)
    | ReallocCall(m: Memory, i: nat, size: nat, grant: bool)

  // The program passes only pointers it holds.
  predicate Legal(bs: seq<Block>, brk: nat, c: Call) {
    match c
    case MallocCall(m, _, _) => |m| == brk
    case CallocCall(m, _, _, _) => |m| == brk
    case FreeCall(i) => i < |bs| && !bs[i].free
    case ReallocCall(m, i, _, _) => |m| == brk && i < |bs| && !bs[i].free
  }

  ghost function Apply(bs: seq<Block>, base: nat, limit: nat, c: Call): seq<Block>
    requires Inv(bs, base, BreakOf(bs, base)) && Legal(bs, BreakOf(bs, base), c)
  {
    match c
    case MallocCall(m, size, grant) => AfterMalloc(m, bs, base, size, limit, grant).bs
    case CallocCall(m, num, each, grant) => AfterMalloc(m, bs, base, (num * each) % 0x1_0000_0000, limit, grant).bs
    case FreeCall(i) => Release(bs, i)
    case ReallocCall(m, i, size, grant) => AfterRealloc(m, bs, base, i, size, limit, grant).bs
  }

  // `states` are the lists before, between and after the calls, starting from an empty heap.
  ghost predicate Run(base: nat, limit: nat, calls: seq<Call>, states: seq<seq<Block>>) {
    && |states| == |calls| + 1 && states[0] == []
    && forall k :: 0 <= k < |calls| ==> Step(base, limit, states[k], calls[k], states[k + 1])
  }

  ghost predicate Step(base: nat, limit: nat, bs: seq<Block>, c: Call, bs': seq<Block>) {
    Inv(bs, base, BreakOf(bs, base)) ==>
      Legal(bs, BreakOf(bs, base), c) && bs' == Apply(bs, base, limit, c)
  }

  lemma BreakIs(bs: seq<Block>, base: nat, brk: nat)
    requires Inv(bs, base, brk)
    ensures BreakOf(bs, base) == brk
  {
  }

  lemma MallocStep(m: Memory, bs: seq<Block>, base: nat, size: nat, limit: nat, grant: bool)
    requires Inv(bs, base, |m|) && |m| <= limit
    ensures var bs' := AfterMalloc(m, bs, base, size, limit, grant).bs;
            Inv(bs', base, BreakOf(bs', base)) && BreakOf(bs', base) <= limit
  {
    if 0 < size <= MAX_SIZE {
      var req := RoundUp(size);
      AllocateKeeps(bs, base, |m|, req, Room(bs, |m|, limit, req, grant));
    }
  }

  lemma MovedStep(m: Memory, bs: seq<Block>, base: nat, a: nat, req: nat, limit: nat, grant: bool)
    requires Inv(bs, base, |m|) && |m| <= limit
    ensures var bs' := ReleaseAt(AfterMalloc(m, bs, base, req, limit, grant).bs, a);
            Inv(bs', base, BreakOf(bs', base)) && BreakOf(bs', base) <= limit
  {
    MallocStep(m, bs, base, req, limit, grant);
    var moved := AfterMalloc(m, bs, base, req, limit, grant).bs;
    var j := IndexOf(moved, a);
    if j < |moved| {
      ReleaseKeeps(moved, base, BreakOf(moved, base), j);
      BreakIs(Release(moved, j), base, BreakOf(moved, base));
    }
  }

  lemma ReallocStep(m: Memory, bs: seq<Block>, base: nat, i: nat, size: nat, limit: nat, grant: bool)
    requires Inv(bs, base, |m|) && |m| <= limit && i < |bs| && !bs[i].free
    ensures var bs' := AfterRealloc(m, bs, base, i, size, limit, grant).bs;
            Inv(bs', base, BreakOf(bs', base)) && BreakOf(bs', base) <= limit
  {
    var req := RoundUp(size);
    BreakIs(bs, base, |m|);
    if 0 < size <= MAX_SIZE {
      StaysInPlace(bs, base, |m|, i, req);
      if bs[i].size >= req {
        BreakIs(Trim(bs, i, req), base, |m|);
      } else if CanAbsorb(bs, i, req) {
        BreakIs(Trim(Merge(bs, i), i, req), base, |m|);
      } else if i == |bs| - 1 {
        BreakIs(Grow(bs, req), base, |m| + (req - bs[i].size));
      } else {
        MallocStep(m, bs, base, req, limit, grant);
        MovedStep(m, bs, base, bs[i].addr, req, limit, grant);
      }
    }
  }

  /** In every state of every run the blocks tile the heap, no two neighbours are free, the
      sizes are positive multiples of 4, and the break has not passed its limit. */
  lemma {:induction false} EveryStateIsWellFormed(base: nat, limit: nat, calls: seq<Call>,
                                                   states: seq<seq<Block>>, k: nat)
    requires Run(base, limit, calls, states) && base <= limit && k < |states|
    ensures Inv(states[k], base, BreakOf(states[k], base)) && BreakOf(states[k], base) <= limit
  {
    if 0 < k {
      EveryStateIsWellFormed(base, limit, calls, states, k - 1);
      var bs := states[k - 1];
      assert Step(base, limit, bs, calls[k - 1], states[k - 1 + 1]);
      match calls[k - 1]
      case MallocCall(m, size, grant) => MallocStep(m, bs, base, size, limit, grant);
      case CallocCall(m, num, each, grant) => MallocStep(m, bs, base, (num * each) % 0x1_0000_0000, limit, grant);
      case FreeCall(i) => ReleaseKeeps(bs, base, BreakOf(bs, base), i);
      case ReallocCall(m, i, size, grant) => ReallocStep(m, bs, base, i, size, limit, grant);
    }
  }

  // What a well-formed list means for the program: no byte of memory has two uses.
  lemma PayloadsAreDisjoint(bs: seq<Block>, base: nat, brk: nat, i: nat, j: nat, a: int)
    requires Inv(bs, base, brk) && i < |bs| && j < |bs|
    requires bs[i].Payload() <= a < bs[i].End() && bs[j].addr <= a < bs[j].End()
    ensures i == j && base + META <= a < brk
  {
    Within(bs, base, brk, i);
    if i < j { Before(bs, base, brk, i, j); }
    if j < i { Before(bs, base, brk, j, i); }
  }

  lemma {:induction false} AlignedToBase(bs: seq<Block>, base: nat, brk: nat, i: nat)
    requires Inv(bs, base, brk) && i < |bs|
    ensures (bs[i].addr - base) % 4 == 0 && (bs[i].Payload() - base) % 4 == 0
  {
    if 0 < i {
      AlignedToBase(bs, base, brk, i - 1);
      assert bs[i].addr == bs[i - 1].End();
    }
  }
}
