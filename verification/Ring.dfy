/** The headers as one circular doubly linked list: which header map represents which
    sequence of blocks, and what the pointer surgery of the allocator does to it. */
module Ring {
  import opened ByteHeap
  import opened Blocks
  import opened BlockLemmas

  function Succ(bs: seq<Block>, i: nat): nat {
    if i + 1 < |bs| then i + 1 else 0
  }

  function Pred(bs: seq<Block>, i: nat): nat
    requires i < |bs|
  {
    if i == 0 then |bs| - 1 else i - 1
  }

  ghost predicate Describes(h: Header, bs: seq<Block>, i: nat)
    requires i < |bs|
  {
    && h.isFreed == bs[i].free
    && h.start == bs[i].Payload()
    && h.size == bs[i].size
    && h.next == bs[Succ(bs, i)].addr
    && h.prev == bs[Pred(bs, i)].addr
  }

  ghost predicate HasBlock(bs: seq<Block>, a: nat) {
    exists i :: 0 <= i < |bs| && bs[i].addr == a
  }

  // The headers, and only they, are the nodes of one ring in the order of the blocks.
  ghost predicate Linked(hdr: map<nat, Header>, bs: seq<Block>) {
    && (forall i :: 0 <= i < |bs| ==> bs[i].addr in hdr)
    && (forall i {:trigger Describes(hdr[bs[i].addr], bs, i)} ::
          0 <= i < |bs| ==> Describes(hdr[bs[i].addr], bs, i))
    && (forall a {:trigger HasBlock(bs, a)} :: a in hdr ==> HasBlock(bs, a))
  }

  ghost predicate Lower(bs: seq<Block>, i: nat, j: nat)
    requires i < |bs| && j < |bs|
  {
    bs[i].addr < bs[j].addr
  }

  ghost predicate Distinct(bs: seq<Block>) {
    forall i, j {:trigger Lower(bs, i, j)} :: 0 <= i < j < |bs| ==> Lower(bs, i, j)
  }

  lemma TiledDistinct(bs: seq<Block>, base: nat, brk: nat)
    requires Tiled(bs, base, brk)
    ensures Distinct(bs)
  {
    forall i, j | 0 <= i < j < |bs|
      ensures Lower(bs, i, j)
    {
      Before(bs, base, brk, i, j);
    }
  }

  lemma SameAddr(bs: seq<Block>, i: nat, j: nat)
    requires Distinct(bs) && i < |bs| && j < |bs|
    ensures bs[i].addr == bs[j].addr <==> i == j
  {
    assert i < j ==> Lower(bs, i, j);
    assert j < i ==> Lower(bs, j, i);
  }

  // connect(p1, p2): p1 takes over the room and the successor of p2.
  function Connected(hdr: map<nat, Header>, p1: u32, p2: u32, size: i64): map<nat, Header>
    requires p1 in hdr && p2 in hdr && hdr[p2].next in hdr
  {
    var next := hdr[p2].next;
    var h1 := hdr[p1 := hdr[p1].(size := size)];
    var h2 := h1[p1 := h1[p1].(next := next)];
    h2[next := h2[next].(prev := p1)] - {p2}
  }

  lemma ConnectedDescribes(hdr: map<nat, Header>, bs: seq<Block>, i: nat, p1: u32, p2: u32, size: i64, j: nat)
    requires Linked(hdr, bs) && Distinct(bs) && i + 1 < |bs|
    requires p1 == bs[i].addr && p2 == bs[i + 1].addr
    requires size == bs[i].size + META + bs[i + 1].size
    requires j < |bs| - 1
    ensures hdr[p2].next in hdr
    ensures var ms, hdr' := Merge(bs, i), Connected(hdr, p1, p2, size);
            ms[j].addr in hdr' && Describes(hdr'[ms[j].addr], ms, j)
  {
    var ms := Merge(bs, i);
    var k := if j <= i then j else j + 1;
    var n := Succ(bs, i + 1);
    assert Describes(hdr[bs[k].addr], bs, k);
    assert Describes(hdr[p2], bs, i + 1);
    assert hdr[p2].next == bs[n].addr;
    SameAddr(bs, k, i);
    SameAddr(bs, k, i + 1);
    SameAddr(bs, k, n);
    assert ms[j].addr == bs[k].addr;
    assert ms[Succ(ms, j)].addr == bs[if j == i then n else Succ(bs, k)].addr;
    assert ms[Pred(ms, j)].addr == bs[if k == n then i else Pred(bs, k)].addr;
  }

  lemma MergeHasBlock(bs: seq<Block>, i: nat, a: nat)
    requires HasBlock(bs, a) && i + 1 < |bs| && a != bs[i + 1].addr
    ensures HasBlock(Merge(bs, i), a)
  {
    var ms := Merge(bs, i);
    var k :| 0 <= k < |bs| && bs[k].addr == a;
    assert ms[if k <= i then k else k - 1].addr == a;
  }

  lemma ConnectedKeys(hdr: map<nat, Header>, p1: u32, p2: u32, size: i64)
    requires p1 in hdr && p2 in hdr && hdr[p2].next in hdr
    ensures forall a :: a in Connected(hdr, p1, p2, size) ==> a in hdr && a != p2
  {
  }

  lemma ConnectedLinks(hdr: map<nat, Header>, bs: seq<Block>, i: nat, p1: u32, p2: u32, size: i64)
    requires Linked(hdr, bs) && Distinct(bs) && i + 1 < |bs|
    requires p1 == bs[i].addr && p2 == bs[i + 1].addr
    requires size == bs[i].size + META + bs[i + 1].size
    ensures hdr[p2].next in hdr
    ensures Linked(Connected(hdr, p1, p2, size), Merge(bs, i))
  {
    ConnectedDescribes(hdr, bs, i, p1, p2, size, 0);
    var ms, hdr' := Merge(bs, i), Connected(hdr, p1, p2, size);
    forall j | 0 <= j < |ms|
      ensures ms[j].addr in hdr' && Describes(hdr'[ms[j].addr], ms, j)
    {
      ConnectedDescribes(hdr, bs, i, p1, p2, size, j);
    }
    ConnectedKeys(hdr, p1, p2, size);
    forall a | a in hdr'
      ensures HasBlock(ms, a)
    {
      assert HasBlock(bs, a);
      MergeHasBlock(bs, i, a);
    }
  }

  lemma HeaderFacts(hdr: map<nat, Header>, bs: seq<Block>, i: nat)
    requires Linked(hdr, bs) && i < |bs|
    ensures var a := bs[i].addr;
            a in hdr && hdr[a].isFreed == bs[i].free && hdr[a].size == bs[i].size
            && hdr[a].start == bs[i].Payload()
  {
    assert Describes(hdr[bs[i].addr], bs, i);
  }

  // The neighbours of a node, seen from the list.
  lemma NeighbourFacts(hdr: map<nat, Header>, bs: seq<Block>, base: nat, brk: nat, i: nat)
    requires Linked(hdr, bs) && Tiled(bs, base, brk) && i < |bs|
    ensures var a, up, down := bs[i].addr, bs[Succ(bs, i)].addr, bs[Pred(bs, i)].addr;
            && a in hdr && up in hdr && down in hdr
            && hdr[a].isFreed == bs[i].free && hdr[a].next == up && hdr[a].prev == down
            && hdr[up].isFreed == bs[Succ(bs, i)].free && hdr[down].isFreed == bs[Pred(bs, i)].free
            && (a == base <==> i == 0) && (up == base <==> i == |bs| - 1) && (i != 0 ==> down != a)
  {
    TiledDistinct(bs, base, brk);
    HeaderFacts(hdr, bs, i);
    HeaderFacts(hdr, bs, Succ(bs, i));
    HeaderFacts(hdr, bs, Pred(bs, i));
    assert Describes(hdr[bs[i].addr], bs, i);
    SameAddr(bs, 0, i);
    SameAddr(bs, 0, Succ(bs, i));
    SameAddr(bs, i, Pred(bs, i));
  }

  // A node marked free or used.
  lemma RemarkLinks(hdr: map<nat, Header>, bs: seq<Block>, base: nat, brk: nat, i: nat, free: bool)
    requires Linked(hdr, bs) && Tiled(bs, base, brk) && i < |bs| && bs[i].addr in hdr
    ensures var a, bs' := bs[i].addr, bs[i := bs[i].(free := free)];
            Linked(hdr[a := hdr[a].(isFreed := free)], bs') && Tiled(bs', base, brk)
  {
    TiledDistinct(bs, base, brk);
    HeaderFacts(hdr, bs, i);
    ChangedLinks(hdr, bs, i, hdr[bs[i].addr].(isFreed := free), bs[i].(free := free));
    var bs' := bs[i := bs[i].(free := free)];
    forall j, k | 0 <= j && k == j + 1 < |bs'|
      ensures bs'[k].addr == bs'[j].End()
    {
      assert bs[k].addr == bs[j].End();
    }
  }

  // What the headers of two neighbours say, and what connect makes of them.
  lemma PairFacts(hdr: map<nat, Header>, bs: seq<Block>, base: nat, brk: nat, i: nat)
    requires Linked(hdr, bs) && Tiled(bs, base, brk) && i + 1 < |bs| && brk < 0x1_0000_0000
    ensures var p1, p2 := bs[i].addr, bs[i + 1].addr;
            && p1 in hdr && p2 in hdr && p1 < p2 < brk
            && hdr[p1].isFreed == bs[i].free && hdr[p1].size == bs[i].size <= brk
            && hdr[p2].isFreed == bs[i + 1].free && hdr[p2].size == bs[i + 1].size <= brk
            && hdr[p2].next in hdr && hdr[p2].next != p2
            && Linked(Connected(hdr, p1, p2, hdr[p1].size + META + hdr[p2].size), Merge(bs, i))
  {
    TiledDistinct(bs, base, brk);
    Within(bs, base, brk, i);
    Within(bs, base, brk, i + 1);
    assert bs[i + 1].addr == bs[i].End();
    assert Describes(hdr[bs[i].addr], bs, i) && Describes(hdr[bs[i + 1].addr], bs, i + 1);
    SameAddr(bs, i + 1, Succ(bs, i + 1));
    ConnectedLinks(hdr, bs, i, bs[i].addr, bs[i + 1].addr, bs[i].size + META + bs[i + 1].size);
  }

  // One header changed without relinking: its block changes with it.
  lemma ChangedLinks(hdr: map<nat, Header>, bs: seq<Block>, i: nat, h: Header, b: Block)
    requires Linked(hdr, bs) && Distinct(bs) && i < |bs| && b.addr == bs[i].addr
    requires h == hdr[b.addr].(isFreed := h.isFreed, size := h.size)
    requires h.isFreed == b.free && h.size == b.size
    ensures Linked(hdr[b.addr := h], bs[i := b])
  {
    var hdr', bs' := hdr[b.addr := h], bs[i := b];
    forall j | 0 <= j < |bs'|
      ensures Describes(hdr'[bs'[j].addr], bs', j)
    {
      assert Describes(hdr[bs[j].addr], bs, j);
      SameAddr(bs, i, j);
    }
    forall a | a in hdr'
      ensures HasBlock(bs', a)
    {
      assert HasBlock(bs, a);
      var k :| 0 <= k < |bs| && bs[k].addr == a;
      assert bs'[k].addr == a;
    }
  }

  // The node p put right after p1, in whatever order the four pointers are written.
  ghost predicate Inserted(hdr: map<nat, Header>, hdr': map<nat, Header>, p1: nat, p: u32) {
    && p1 in hdr && p1 != p && p in hdr' && hdr[p1].next != p
    && (forall a :: a in hdr' <==> a in hdr || a == p)
    && hdr'[p].prev == p1 && hdr'[p].next == hdr[p1].next
    && (forall a :: a in hdr && a != p ==>
          hdr'[a] == hdr[a].(next := if a == p1 then p else hdr[a].next,
                             prev := if a == hdr[p1].next then p else hdr[a].prev))
  }

  function InsertAfter(bs: seq<Block>, i: nat, b: Block): seq<Block>
    requires i < |bs|
  {
    bs[..i + 1] + [b] + bs[i + 1..]
  }

  lemma InsertedDescribes(hdr: map<nat, Header>, hdr': map<nat, Header>, bs: seq<Block>, i: nat, b: Block, j: nat)
    requires Linked(hdr, bs) && Distinct(bs) && i < |bs|
    requires b.addr < 0x1_0000_0000 && b.addr !in hdr && Inserted(hdr, hdr', bs[i].addr, b.addr)
    requires hdr'[b.addr].isFreed == b.free && hdr'[b.addr].start == b.Payload() && hdr'[b.addr].size == b.size
    requires j <= |bs|
    ensures var bs' := InsertAfter(bs, i, b);
            bs'[j].addr in hdr' && Describes(hdr'[bs'[j].addr], bs', j)
  {
    var bs' := InsertAfter(bs, i, b);
    var n := Succ(bs, i);
    assert Describes(hdr[bs[i].addr], bs, i);
    assert hdr[bs[i].addr].next == bs[n].addr;
    if j != i + 1 {
      var k := if j <= i then j else j - 1;
      assert bs'[j] == bs[k];
      assert Describes(hdr[bs[k].addr], bs, k);
      SameAddr(bs, k, i);
      SameAddr(bs, k, n);
      assert bs'[Succ(bs', j)].addr == if k == i then b.addr else bs[Succ(bs, k)].addr;
      assert bs'[Pred(bs', j)].addr == if k == n then b.addr else bs[Pred(bs, k)].addr;
    } else {
      assert bs'[Succ(bs', j)].addr == bs[n].addr;
    }
  }

  lemma InsertHasBlock(bs: seq<Block>, i: nat, b: Block, a: nat)
    requires i < |bs| && (a == b.addr || HasBlock(bs, a))
    ensures HasBlock(InsertAfter(bs, i, b), a)
  {
    var bs' := InsertAfter(bs, i, b);
    if a == b.addr {
      assert bs'[i + 1].addr == a;
    } else {
      var k :| 0 <= k < |bs| && bs[k].addr == a;
      assert bs'[if k <= i then k else k + 1].addr == a;
    }
  }

  lemma InsertedLinks(hdr: map<nat, Header>, hdr': map<nat, Header>, bs: seq<Block>, i: nat, b: Block)
    requires Linked(hdr, bs) && Distinct(bs) && i < |bs|
    requires b.addr < 0x1_0000_0000 && b.addr !in hdr && Inserted(hdr, hdr', bs[i].addr, b.addr)
    requires hdr'[b.addr].isFreed == b.free && hdr'[b.addr].start == b.Payload() && hdr'[b.addr].size == b.size
    ensures Linked(hdr', InsertAfter(bs, i, b))
  {
    var bs' := InsertAfter(bs, i, b);
    forall j | 0 <= j < |bs'|
      ensures bs'[j].addr in hdr' && Describes(hdr'[bs'[j].addr], bs', j)
    {
      InsertedDescribes(hdr, hdr', bs, i, b, j);
    }
    forall a | a in hdr'
      ensures HasBlock(bs', a)
    {
      assert a == b.addr || HasBlock(bs, a);
      InsertHasBlock(bs, i, b, a);
    }
  }

  lemma InsertAtEnd(bs: seq<Block>, b: Block)
    requires bs != []
    ensures InsertAfter(bs, |bs| - 1, b) == bs + [b]
  {
  }

  // What carving a node out of block i makes of the list.
  lemma CutLinks(hdr: map<nat, Header>, hdr': map<nat, Header>, bs: seq<Block>, base: nat, brk: nat,
                 i: nat, req: u32, p: u32)
    requires Linked(hdr, bs) && Tiled(bs, base, brk) && i < |bs|
    requires !bs[i].free && req + META <= bs[i].size && p == bs[i].Payload() + req && p !in hdr
    requires bs[i].addr in hdr
    requires Inserted(hdr[bs[i].addr := hdr[bs[i].addr].(size := req)], hdr', bs[i].addr, p)
    requires hdr'[p].isFreed && hdr'[p].start == p + META && hdr'[p].size == bs[i].size - req - META
    ensures Linked(hdr', Cut(bs, i, req))
  {
    TiledDistinct(bs, base, brk);
    HeaderFacts(hdr, bs, i);
    var used := bs[i].(size := req);
    var rest := Block(p, bs[i].size - req - META, true);
    var bs1 := bs[i := used];
    var hdr1 := hdr[bs[i].addr := hdr[bs[i].addr].(size := req)];
    ChangedLinks(hdr, bs, i, hdr1[bs[i].addr], used);
    DistinctChanged(bs, i, used);
    InsertedLinks(hdr1, hdr', bs1, i, rest);
    assert InsertAfter(bs1, i, rest) == Cut(bs, i, req);
  }

  lemma DistinctChanged(bs: seq<Block>, i: nat, b: Block)
    requires Distinct(bs) && i < |bs| && b.addr == bs[i].addr
    ensures Distinct(bs[i := b])
  {
    var bs' := bs[i := b];
    forall j, k | 0 <= j < k < |bs'|
      ensures Lower(bs', j, k)
    {
      assert Lower(bs, j, k);
    }
  }

  // The last node stretched to `req` bytes and put to use.
  lemma GrowLinks(hdr: map<nat, Header>, bs: seq<Block>, base: nat, brk: nat, req: u32)
    requires Linked(hdr, bs) && Tiled(bs, base, brk) && bs != [] && bs[|bs| - 1].addr in hdr
    ensures var a := bs[|bs| - 1].addr;
            Linked(hdr[a := hdr[a].(isFreed := false, size := req)], Grow(bs, req))
  {
    TiledDistinct(bs, base, brk);
    var last := |bs| - 1;
    var b := bs[last].(size := req, free := false);
    var h := hdr[b.addr].(isFreed := false, size := req);
    ChangedLinks(hdr, bs, last, h, b);
    assert bs[last := b] == Grow(bs, req);
  }

  lemma EmptyRing(hdr: map<nat, Header>, bs: seq<Block>)
    requires Linked(hdr, bs) && bs == []
    ensures forall a :: a !in hdr
  {
    forall a ensures a !in hdr {
      assert a in hdr ==> HasBlock(bs, a);
    }
  }

  // The head's predecessor is the last block.
  lemma TailFacts(hdr: map<nat, Header>, bs: seq<Block>, base: nat, brk: nat)
    requires Linked(hdr, bs) && Tiled(bs, base, brk) && bs != []
    ensures var last := bs[|bs| - 1];
            && base in hdr && hdr[base].prev == last.addr && last.addr in hdr
            && hdr[last.addr].size == last.size && hdr[last.addr].start == last.Payload()
            && hdr[last.addr].isFreed == last.free && hdr[last.addr].next == base
            && last.End() == brk
  {
    assert Describes(hdr[bs[0].addr], bs, 0);
    assert Describes(hdr[bs[|bs| - 1].addr], bs, |bs| - 1);
  }

  // One block alone is a ring of one node.
  lemma OneNode(hdr: map<nat, Header>, b: Block)
    requires b.addr in hdr && forall a :: a in hdr ==> a == b.addr
    requires var h := hdr[b.addr];
             h.isFreed == b.free && h.start == b.Payload() && h.size == b.size && h.next == h.prev == b.addr
    ensures Linked(hdr, [b])
  {
    assert Describes(hdr[b.addr], [b], 0);
    assert [b][0].addr == b.addr;
  }

  // ---- which bytes the list may touch ------------------------------------------------------

  // No header reaches into the payload of a block.
  lemma HeadersOutside(hdr: map<nat, Header>, bs: seq<Block>, base: nat, brk: nat, i: nat)
    requires Linked(hdr, bs) && Tiled(bs, base, brk) && i < |bs|
    ensures forall a :: a in hdr ==> a + META <= bs[i].Payload() || bs[i].End() <= a
  {
    forall a | a in hdr
      ensures a + META <= bs[i].Payload() || bs[i].End() <= a
    {
      assert HasBlock(bs, a);
      var k :| 0 <= k < |bs| && bs[k].addr == a;
      if k < i { Before(bs, base, brk, k, i); }
      if i < k { Before(bs, base, brk, i, k); }
    }
  }

  // From (m, hdr) to (m', hdr') only bytes of headers, old or new, have changed.
  ghost predicate Untouched(m: Memory, hdr: map<nat, Header>, m': Memory, hdr': map<nat, Header>) {
    && |m| <= |m'|
    && forall i :: 0 <= i < |m| && OutsideHeaders(hdr, i) && OutsideHeaders(hdr', i) ==> m'[i] == m[i]
  }

  lemma UntouchedTrans(m: Memory, hdr: map<nat, Header>, m1: Memory, hdr1: map<nat, Header>,
                       m2: Memory, hdr2: map<nat, Header>)
    requires Untouched(m, hdr, m1, hdr1) && Untouched(m1, hdr1, m2, hdr2)
    requires forall a :: a in hdr1 ==> a in hdr || a in hdr2
    ensures Untouched(m, hdr, m2, hdr2)
  {
    forall i | 0 <= i < |m| && OutsideHeaders(hdr, i) && OutsideHeaders(hdr2, i)
      ensures m2[i] == m[i]
    {
      assert OutsideHeaders(hdr1, i);
    }
  }

  // So bytes inside a payload of the old list and of the new one are the same.
  lemma PayloadKept(m: Memory, hdr: map<nat, Header>, bs: seq<Block>, i: nat,
                    m': Memory, hdr': map<nat, Header>, bs': seq<Block>, i': nat,
                    base: nat, lo: nat, hi: nat)
    requires Untouched(m, hdr, m', hdr')
    requires Linked(hdr, bs) && Tiled(bs, base, |m|) && i < |bs|
    requires Linked(hdr', bs') && Tiled(bs', base, |m'|) && i' < |bs'|
    requires bs[i].Payload() <= lo <= hi <= bs[i].End()
    requires bs'[i'].Payload() <= lo <= hi <= bs'[i'].End()
    ensures hi <= |m| && m'[lo..hi] == m[lo..hi]
  {
    HeadersOutside(hdr, bs, base, |m|, i);
    HeadersOutside(hdr', bs', base, |m'|, i');
    Within(bs, base, |m|, i);
    forall k | lo <= k < hi
      ensures m'[k] == m[k]
    {
      assert OutsideHeaders(hdr, k) && OutsideHeaders(hdr', k);
    }
  }

  // Every block in use, except the one at `but`, is still in the list with the same bytes.
  ghost predicate Undisturbed(m: Memory, bs: seq<Block>, m': Memory, bs': seq<Block>, but: int) {
    |m| <= |m'| &&
    forall b :: b in bs && !b.free && b.addr != but ==>
      b in bs' && b.End() <= |m| && m'[b.Payload()..b.End()] == m[b.Payload()..b.End()]
  }

  lemma UntouchedUndisturbed(m: Memory, hdr: map<nat, Header>, bs: seq<Block>,
                             m': Memory, hdr': map<nat, Header>, bs': seq<Block>, base: nat, but: int)
    requires Untouched(m, hdr, m', hdr')
    requires Linked(hdr, bs) && Tiled(bs, base, |m|) && Linked(hdr', bs') && Tiled(bs', base, |m'|)
    requires Keeps(bs, bs', but)
    ensures Undisturbed(m, bs, m', bs', but)
  {
    forall b | b in bs && !b.free && b.addr != but
      ensures b in bs' && b.End() <= |m| && m'[b.Payload()..b.End()] == m[b.Payload()..b.End()]
    {
      var i :| 0 <= i < |bs| && bs[i] == b;
      var i' :| 0 <= i' < |bs'| && bs'[i'] == b;
      PayloadKept(m, hdr, bs, i, m', hdr', bs', i', base, b.Payload(), b.End());
    }
  }

  // An appended node, linked in front of the head.
  lemma AppendLinks(hdr: map<nat, Header>, hdr': map<nat, Header>, bs: seq<Block>, base: nat, brk: u32, size: nat)
    requires Linked(hdr, bs) && Tiled(bs, base, brk) && bs != [] && brk !in hdr
    requires Inserted(hdr, hdr', bs[|bs| - 1].addr, brk)
    requires !hdr'[brk].isFreed && hdr'[brk].start == brk + META && hdr'[brk].size == size
    ensures Linked(hdr', bs + [Block(brk, size, false)])
  {
    TiledDistinct(bs, base, brk);
    InsertedLinks(hdr, hdr', bs, |bs| - 1, Block(brk, size, false));
    InsertAtEnd(bs, Block(brk, size, false));
  }

  lemma BelowBreak(hdr: map<nat, Header>, bs: seq<Block>, base: nat, brk: nat)
    requires Linked(hdr, bs) && Tiled(bs, base, brk)
    ensures forall a :: a in hdr ==> a + META <= brk
  {
    forall a | a in hdr ensures a + META <= brk {
      assert HasBlock(bs, a);
      var k :| 0 <= k < |bs| && bs[k].addr == a;
      Within(bs, base, brk, k);
    }
  }

  // Writing only inside the payload of block k leaves every other payload as it is.
  lemma OtherPayloads(bs: seq<Block>, base: nat, m: Memory, m': Memory, k: nat)
    requires Tiled(bs, base, |m|) && |m'| == |m| && k < |bs|
    requires forall a :: 0 <= a < |m| && !(bs[k].Payload() <= a < bs[k].End()) ==> m'[a] == m[a]
    ensures Undisturbed(m, bs, m', bs, bs[k].addr)
  {
    forall b | b in bs && !b.free && b.addr != bs[k].addr
      ensures b.End() <= |m| && m'[b.Payload()..b.End()] == m[b.Payload()..b.End()]
    {
      var j :| 0 <= j < |bs| && bs[j] == b;
      Within(bs, base, |m|, j);
      if j < k { Before(bs, base, |m|, j, k); }
      if k < j { Before(bs, base, |m|, k, j); }
    }
  }

  // Blocks kept from (m, bs) to (m1, bs1), then at bs1 all but `mint`, are kept throughout
  // when `mint` was not in use at the start.
  lemma UndisturbedThrough(m: Memory, bs: seq<Block>, m1: Memory, m2: Memory, bs1: seq<Block>, mint: nat)
    requires Undisturbed(m, bs, m1, bs1, -1) && Undisturbed(m1, bs1, m2, bs1, mint)
    requires forall c :: c in bs && !c.free ==> c.addr != mint
    ensures Undisturbed(m, bs, m2, bs1, -1)
  {
  }
}
