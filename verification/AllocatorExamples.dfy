/** Short programs on a new heap, most of which do not get what one would expect. */
module AllocatorExamples {
  import opened Common
  import opened ByteHeap
  import opened Blocks
  import opened Ring
  import opened CoalescingAllocator

  // A block of eight bytes, all of them written with 0xff.
  method FilledBlock() returns (a: Allocator, p: int)
    ensures fresh(a) && a.Valid() && a.base == 100 && a.limit == 1000
    ensures a.blocks == [Block(100, 8, false)] && p == 124 && |a.mem| == 132
    ensures forall i :: 124 <= i < 132 ==> a.mem[i] == 255
  {
    a := new Allocator(100, 1000);
    p := a.Malloc(8, true);
    assert |a.mem| == 132 by {
      Within(a.blocks, a.base, |a.mem|, 0);
    }
    var i := 0;
    while i < 8
      invariant 0 <= i <= 8 && a.Valid() && |a.mem| == 132 && a.blocks == [Block(100, 8, false)]
      invariant forall j :: 124 <= j < 124 + i ==> a.mem[j] == 255
    {
      a.StoreByte(p + i, 255, 0);
      i := i + 1;
    }
  }

  // Freeing it leaves those bytes as they are.
  method FreedBlock() returns (a: Allocator)
    ensures fresh(a) && a.Valid() && a.base == 100 && a.limit == 1000 && a.blocks == [Block(100, 8, true)]
    ensures |a.mem| == 132 && WordAt(a.mem, 124) == 0xFFFF_FFFF
  {
    var p;
    a, p := FilledBlock();
    ghost var m, hdr, bs := a.mem, a.hdr, a.blocks;
    a.Free(p, 0);
    assert a.blocks == [Block(100, 8, true)];
    PayloadKept(m, hdr, bs, 0, a.mem, a.hdr, a.blocks, 0, 100, 124, 132);
    assert forall i :: 124 <= i < 132 ==> a.mem[i] == a.mem[124..132][i - 124] == m[124..132][i - 124] == 255;
  }

  /** Asked for eight bytes again, malloc answers NULL, and the only block is lost. */
  method MinusOneExample() returns (a: Allocator, q: int)
    ensures a.Valid() && q == NULL && a.blocks == [Block(100, 8, false)]
  {
    a := FreedBlock();
    assert FirstFit(a.blocks, 8) == Some(0);
    q := a.Malloc(8, true);
  }

  /** 65536 elements of 65537 bytes: calloc returns a block of 65536 bytes. */
  method CallocOverflow() returns (a: Allocator, p: int)
    ensures a.Valid() && p != NULL && PointsTo(a.blocks, 0, p) && a.blocks == [Block(100, 65536, false)]
    ensures a.blocks[0].size < 65536 * 65537
  {
    a := new Allocator(100, 100_000);
    p := a.Calloc(65536, 65537, true);
  }

  /** A small block takes over its free successor, headers included, where the break cannot move. */
  method Absorbs() returns (a: Allocator, p: int, q: int)
    ensures a.Valid() && p == q == 124 && a.blocks == [Block(100, 132, false), Block(256, 8, false)]
  {
    a := ThreeBlocks();
    p := 124;
    a.Free(156, 1);
    assert a.blocks == [Block(100, 8, false), Block(132, 100, true), Block(256, 8, false)];
    q := a.Realloc(p, 120, false, 0);
  }

  method ThreeBlocks() returns (a: Allocator)
    ensures fresh(a) && a.Valid()
    ensures a.blocks == [Block(100, 8, false), Block(132, 100, false), Block(256, 8, false)]
  {
    a := TwoBlocks();
    Within(a.blocks, a.base, |a.mem|, 1);
    var p := a.Malloc(8, true);
  }

  method TwoBlocks() returns (a: Allocator)
    ensures fresh(a) && a.Valid() && a.base == 100 && a.limit == 1000
    ensures a.blocks == [Block(100, 8, false), Block(132, 100, false)]
  {
    a := new Allocator(100, 1000);
    var p := a.Malloc(8, true);
    Within(a.blocks, a.base, |a.mem|, 0);
    p := a.Malloc(100, true);
  }

  /** A block of eight bytes that should become one of a hundred where there is no room: the
      pointer returned is not NULL and not the block's. */
  method ReallocFails() returns (a: Allocator, q: int)
    ensures a.Valid() && q == FAILED && q != NULL && a.blocks == [Block(100, 8, false)]
  {
    a := new Allocator(100, 200);
    var p := a.Malloc(8, true);
    Within(a.blocks, a.base, |a.mem|, 0);
    q := a.Realloc(p, 100, true, 0);
  }
}
