/** What every operation on the block list keeps: the tiling, the sizes, no two free
    neighbours, the statistics, and every block in use. */
module BlockLemmas {
  import opened ByteHeap
  import opened Blocks

  // Every block in use, except the one at address `but`, is still there.
  ghost predicate Keeps(bs: seq<Block>, bs': seq<Block>, but: int) {
    forall b :: b in bs && !b.free && b.addr != but ==> b in bs'
  }

  // No two free neighbours, except that block i may be free beside free ones.
  ghost predicate FreeApartBut(bs: seq<Block>, i: int) {
    forall j, k :: 0 <= j && k == j + 1 < |bs| && j != i && k != i ==> !(bs[j].free && bs[k].free)
  }

  lemma CountOne(b: Block)
    ensures Recount([b]) == StatsOf(b)
  {
    assert [b][1..] == [];
  }

  lemma CountTwo(b: Block, c: Block)
    ensures Recount([b, c]) == StatsOf(b).Plus(StatsOf(c))
  {
    assert [b, c][1..] == [c];
    CountOne(c);
  }

  lemma ReplaceCounts(bs: seq<Block>, i: nat, mid: seq<Block>)
    requires i < |bs|
    ensures Recount(bs[..i] + mid + bs[i + 1..]).Plus(StatsOf(bs[i])) == Recount(bs).Plus(Recount(mid))
  {
    assert bs == bs[..i] + [bs[i]] + bs[i + 1..];
    RecountAround(bs[..i], [bs[i]], bs[i + 1..]);
    RecountAround(bs[..i], mid, bs[i + 1..]);
    CountOne(bs[i]);
  }

  // ---- Merge --------------------------------------------------------------------------------

  lemma MergeAt(bs: seq<Block>, i: nat)
    requires i + 1 < |bs|
    ensures var ms := Merge(bs, i);
            && |ms| == |bs| - 1
            && ms[i] == bs[i].(size := bs[i].size + META + bs[i + 1].size)
            && (forall j :: 0 <= j < i ==> ms[j] == bs[j])
            && (forall j {:trigger ms[j]} :: i < j < |ms| ==> ms[j] == bs[j + 1])
            && (bs[i].free && bs[i + 1].free ==> Keeps(bs, ms, -1))
  {
    var ms := Merge(bs, i);
    forall b | b in bs && b != bs[i] && b != bs[i + 1]
      ensures b in ms
    {
      var j :| 0 <= j < |bs| && bs[j] == b;
      assert b == if j < i then ms[j] else ms[j - 1];
    }
  }

  lemma MergeTiles(bs: seq<Block>, base: nat, brk: nat, i: nat)
    requires Tiled(bs, base, brk) && Sized(bs) && i + 1 < |bs|
    ensures Tiled(Merge(bs, i), base, brk) && Sized(Merge(bs, i))
  {
    var ms := Merge(bs, i);
    MergeAt(bs, i);
    assert bs[i + 1].addr == bs[i].End();
    forall j, k | 0 <= j && k == j + 1 < |ms|
      ensures ms[k].addr == ms[j].End()
    {
      if j >= i { assert bs[k + 1].addr == bs[j + 1].End(); }
    }
  }

  // How merging away a free block moves the five counters.
  lemma MergeCounts(bs: seq<Block>, i: nat)
    requires i + 1 < |bs| && bs[i + 1].free
    ensures Recount(Merge(bs, i)) == Recount(bs).Plus(
              Stats(-1, META, -1, if bs[i].free then META else -(bs[i + 1].size as int)))
  {
    var one := bs[i].(size := bs[i].size + META + bs[i + 1].size);
    var shorter := bs[..i] + [bs[i]] + bs[i + 2..];
    assert shorter == bs[..i + 1] + [] + bs[i + 1 + 1..];
    ReplaceCounts(bs, i + 1, []);
    assert shorter[..i] == bs[..i] && shorter[i] == bs[i] && shorter[i + 1..] == bs[i + 2..];
    ReplaceCounts(shorter, i, [one]);
    CountOne(one);
  }

  // ---- Coalesce -----------------------------------------------------------------------------

  // The order in which the two merges are made does not matter.
  lemma MergeOrder(bs: seq<Block>, i: nat)
    requires 0 < i && i + 1 < |bs|
    ensures Merge(Merge(bs, i), i - 1) == Merge(Merge(bs, i - 1), i - 1)
  {
    var down := Merge(bs, i - 1);
    assert down[i] == bs[i + 1] && down[i + 1..] == bs[i + 2..];
  }

  lemma MergedUp(bs: seq<Block>, base: nat, brk: nat, i: nat)
    requires Tiled(bs, base, brk) && Sized(bs) && FreeApartBut(bs, i)
    requires i + 1 < |bs| && bs[i].free && bs[i + 1].free
    ensures var up := Merge(bs, i);
            && Tiled(up, base, brk) && Sized(up) && FreeApartBut(up, i) && Keeps(bs, up, -1)
            && i < |up| && up[i].free && up[..i] == bs[..i]
            && (i + 1 < |up| ==> !up[i + 1].free)
  {
    var up := Merge(bs, i);
    MergeTiles(bs, base, brk, i);
    MergeAt(bs, i);
    forall j, k | 0 <= j && k == j + 1 < |up| && j != i && k != i
      ensures !(up[j].free && up[k].free)
    {
      if j < i {
        assert !(bs[j].free && bs[k].free);
      } else {
        assert !(bs[j + 1].free && bs[k + 1].free);
      }
    }
    if i + 1 < |up| { assert !(bs[i + 1].free && bs[i + 2].free); }
  }

  lemma CoalesceUp(bs: seq<Block>, base: nat, brk: nat, i: nat)
    requires Tiled(bs, base, brk) && Sized(bs) && FreeApartBut(bs, i)
    requires i < |bs| && bs[i].free
    ensures var up := if i + 1 < |bs| && bs[i + 1].free then Merge(bs, i) else bs;
            && Tiled(up, base, brk) && Sized(up) && FreeApartBut(up, i) && Keeps(bs, up, -1)
            && i < |up| && up[i].free && up[..i] == bs[..i]
            && (i + 1 < |up| ==> !up[i + 1].free)
  {
    if i + 1 < |bs| && bs[i + 1].free {
      MergedUp(bs, base, brk, i);
    }
  }

  lemma CoalesceDown(up: seq<Block>, base: nat, brk: nat, i: nat)
    requires Tiled(up, base, brk) && Sized(up) && FreeApartBut(up, i)
    requires 0 < i < |up| && up[i].free && up[i - 1].free
    requires i + 1 < |up| ==> !up[i + 1].free
    ensures Inv(Merge(up, i - 1), base, brk) && Keeps(up, Merge(up, i - 1), -1)
  {
    var down := Merge(up, i - 1);
    MergeTiles(up, base, brk, i - 1);
    MergeAt(up, i - 1);
    forall j, k | 0 <= j && k == j + 1 < |down|
      ensures !(down[j].free && down[k].free)
    {
      if k < i - 1 {
        assert !(up[j].free && up[k].free);
      } else if k == i - 1 {
        assert !up[j].free;
      } else if j > i - 1 {
        assert !(up[j + 1].free && up[k + 1].free);
      }
    }
  }

  lemma ApartThere(bs: seq<Block>, i: nat)
    requires FreeApartBut(bs, i) && i < |bs|
    requires 0 < i ==> !bs[i - 1].free
    requires i + 1 < |bs| ==> !bs[i + 1].free
    ensures NoAdjacentFree(bs)
  {
  }

  lemma CoalesceKeeps(bs: seq<Block>, base: nat, brk: nat, i: nat)
    requires Tiled(bs, base, brk) && Sized(bs) && FreeApartBut(bs, i)
    requires i < |bs| && bs[i].free
    ensures Inv(Coalesce(bs, i), base, brk)
    ensures Keeps(bs, Coalesce(bs, i), -1)
  {
    CoalesceUp(bs, base, brk, i);
    var up := if i + 1 < |bs| && bs[i + 1].free then Merge(bs, i) else bs;
    assert 0 < i ==> up[i - 1] == up[..i][i - 1] == bs[..i][i - 1];
    if 0 < i && bs[i - 1].free {
      CoalesceDown(up, base, brk, i);
    } else {
      ApartThere(up, i);
    }
  }

  // ---- Cut and Split ------------------------------------------------------------------------

  lemma CutAt(bs: seq<Block>, i: nat, req: nat)
    requires i < |bs| && req + META <= bs[i].size
    ensures var cs := Cut(bs, i, req);
            && |cs| == |bs| + 1
            && cs[i] == Block(bs[i].addr, req, false)
            && cs[i + 1] == Block(bs[i].addr + META + req, bs[i].size - req - META, true)
            && (forall j :: 0 <= j < i ==> cs[j] == bs[j])
            && (forall j {:trigger cs[j]} :: i + 1 < j < |cs| ==> cs[j] == bs[j - 1])
            && Keeps(bs, cs, bs[i].addr)
  {
    var cs := Cut(bs, i, req);
    forall b | b in bs && b != bs[i]
      ensures b in cs
    {
      var j :| 0 <= j < |bs| && bs[j] == b;
      assert b == if j < i then cs[j] else cs[j + 1];
    }
  }

  lemma CutTiles(bs: seq<Block>, base: nat, brk: nat, i: nat, req: nat)
    requires Inv(bs, base, brk)
    requires i < |bs| && 0 < req && req % 4 == 0 && req + META < bs[i].size
    ensures Tiled(Cut(bs, i, req), base, brk) && Sized(Cut(bs, i, req))
  {
    CutSized(bs, i, req);
    var cs := Cut(bs, i, req);
    CutAt(bs, i, req);
    forall j, k | 0 <= j && k == j + 1 < |cs|
      ensures cs[k].addr == cs[j].End()
    {
      CutStep(bs, base, brk, i, req, j);
    }
  }

  lemma CutSized(bs: seq<Block>, i: nat, req: nat)
    requires Sized(bs) && i < |bs| && 0 < req && req % 4 == 0 && req + META < bs[i].size
    ensures Sized(Cut(bs, i, req))
  {
    CutAt(bs, i, req);
  }

  lemma CutStep(bs: seq<Block>, base: nat, brk: nat, i: nat, req: nat, j: nat)
    requires Tiled(bs, base, brk) && i < |bs| && req + META <= bs[i].size
    requires j < |bs|
    ensures var cs := Cut(bs, i, req); j + 1 < |cs| && cs[j + 1].addr == cs[j].End()
  {
    CutAt(bs, i, req);
    if j < i {
      assert bs[j + 1].addr == bs[j].End();
    } else if j > i {
      assert bs[j].addr == bs[j - 1].End();
    }
  }

  lemma CutApart(bs: seq<Block>, i: nat, req: nat)
    requires NoAdjacentFree(bs) && i < |bs| && req + META <= bs[i].size
    ensures FreeApartBut(Cut(bs, i, req), i + 1)
  {
    var cs := Cut(bs, i, req);
    CutAt(bs, i, req);
    forall j, k | 0 <= j && k == j + 1 < |cs| && j != i + 1 && k != i + 1
      ensures !(cs[j].free && cs[k].free)
    {
      if k < i { assert !(bs[j].free && bs[k].free); }
      if j > i { assert !(bs[j - 1].free && bs[k - 1].free); }
    }
  }

  lemma CutCounts(bs: seq<Block>, i: nat, req: nat)
    requires i < |bs| && req + META <= bs[i].size
    ensures Recount(Cut(bs, i, req)) == Recount(bs).Plus(
              Stats(1, -META, if bs[i].free then 0 else 1,
                    bs[i].size - req - META - if bs[i].free then bs[i].size else 0))
  {
    var used := Block(bs[i].addr, req, false);
    var rest := Block(bs[i].addr + META + req, bs[i].size - req - META, true);
    ReplaceCounts(bs, i, [used, rest]);
    CountTwo(used, rest);
  }

  lemma SplitKeeps(bs: seq<Block>, base: nat, brk: nat, i: nat, req: nat)
    requires Inv(bs, base, brk)
    requires i < |bs| && 0 < req && req % 4 == 0 && req + META < bs[i].size
    ensures Inv(Split(bs, i, req), base, brk)
    ensures Keeps(bs, Split(bs, i, req), bs[i].addr)
    ensures i < |Split(bs, i, req)| && Split(bs, i, req)[i] == Block(bs[i].addr, req, false)
  {
    CutTiles(bs, base, brk, i, req);
    CutAt(bs, i, req);
    CutApart(bs, i, req);
    CoalesceKeeps(Cut(bs, i, req), base, brk, i + 1);
  }

  // ---- changing one block in place ------------------------------------------------------------

  lemma MarkCounts(bs: seq<Block>, i: nat, b: Block)
    requires i < |bs|
    ensures Recount(bs[i := b]) == Recount(bs).Plus(
              Stats(0, b.size - bs[i].size, (if b.free then 1 else 0) - (if bs[i].free then 1 else 0),
                    (if b.free then b.size else 0) - (if bs[i].free then bs[i].size else 0)))
  {
    assert bs[i := b] == bs[..i] + [b] + bs[i + 1..];
    ReplaceCounts(bs, i, [b]);
    CountOne(b);
  }

  lemma MarkTiles(bs: seq<Block>, base: nat, brk: nat, i: nat, free: bool)
    requires Inv(bs, base, brk) && i < |bs|
    ensures var ms := bs[i := bs[i].(free := free)];
            && Tiled(ms, base, brk) && Sized(ms)
            && (if free then FreeApartBut(ms, i) else NoAdjacentFree(ms))
            && Keeps(bs, ms, bs[i].addr)
  {
    var ms := bs[i := bs[i].(free := free)];
    assert forall j :: 0 <= j < |bs| && j != i ==> ms[j] == bs[j];
    forall j, k | 0 <= j && k == j + 1 < |ms|
      ensures ms[k].addr == ms[j].End()
    {
      assert bs[k].addr == bs[j].End();
    }
  }

  lemma AppendKeeps(bs: seq<Block>, base: nat, brk: nat, b: Block)
    requires Inv(bs, base, brk)
    requires b.addr == brk && 0 < b.size && b.size % 4 == 0 && !b.free
    ensures Inv(bs + [b], base, b.End())
    ensures Keeps(bs, bs + [b], -1)
  {
  }

  lemma AppendCounts(bs: seq<Block>, b: Block)
    ensures Recount(bs + [b]) == Recount(bs).Plus(StatsOf(b))
  {
    RecountConcat(bs, [b]);
    CountOne(b);
  }

  lemma GrowKeeps(bs: seq<Block>, base: nat, brk: nat, req: nat)
    requires Inv(bs, base, brk) && bs != []
    requires bs[|bs| - 1].size <= req && req % 4 == 0
    ensures Inv(Grow(bs, req), base, brk + (req - bs[|bs| - 1].size))
    ensures Keeps(bs, Grow(bs, req), bs[|bs| - 1].addr)
  {
    var gs := Grow(bs, req);
    forall j, k | 0 <= j && k == j + 1 < |gs|
      ensures gs[k].addr == gs[j].End() && !(gs[j].free && gs[k].free)
    {
      assert bs[k].addr == bs[j].End();
    }
  }

  lemma GrowCounts(bs: seq<Block>, req: nat)
    requires bs != []
    ensures var last := bs[|bs| - 1];
            Recount(Grow(bs, req)) == Recount(bs).Plus(
              Stats(0, req - last.size, if last.free then -1 else 0, if last.free then -(last.size as int) else 0))
  {
    var b := bs[|bs| - 1].(size := req, free := false);
    assert Grow(bs, req) == bs[|bs| - 1 := b];
    MarkCounts(bs, |bs| - 1, b);
  }

  // ---- the three operations -------------------------------------------------------------------

  lemma PlaceKeeps(bs: seq<Block>, base: nat, brk: nat, i: nat, req: nat)
    requires Inv(bs, base, brk)
    requires i < |bs| && 0 < req && req % 4 == 0 && req <= bs[i].size
    ensures Inv(Place(bs, i, req), base, brk)
    ensures Keeps(bs, Place(bs, i, req), bs[i].addr)
    ensures var b := Place(bs, i, req)[i];
            i < |Place(bs, i, req)| && b.addr == bs[i].addr && !b.free && req <= b.size < req + META + REMAIN
  {
    if Worthwhile(bs[i].size, req) {
      SplitKeeps(bs, base, brk, i, req);
    } else {
      MarkTiles(bs, base, brk, i, false);
    }
  }

  /** malloc: the list stays well-formed, no block in use is touched, the block handed out was
      free or is new, and at most a header and REMAIN bytes are wasted. */
  lemma AllocateKeeps(bs: seq<Block>, base: nat, brk: nat, req: nat, room: bool)
    requires Inv(bs, base, brk) && 0 < req && req % 4 == 0
    ensures var served := Allocate(bs, base, req, room);
            var moved := FirstFit(bs, req).None? && room;
            && Inv(served.bs, base, if moved then brk + Shortage(bs, req) else brk)
            && Keeps(bs, served.bs, -1)
            && (served.at.None? <==> FirstFit(bs, req).None? && !room)
            && (served.at.None? ==> served.bs == bs)
            && (served.at.Some? ==>
                  && served.at.value < |served.bs|
                  && var b := served.bs[served.at.value];
                     && !b.free && req <= b.size < req + META + REMAIN
                     && forall c :: c in bs && !c.free ==> c.addr != b.addr)
  {
    match FirstFit(bs, req)
    case Some(i) =>
      PlaceKeeps(bs, base, brk, i, req);
      OneAddress(bs, base, brk, i);
    case None =>
      if room {
        if bs != [] && bs[|bs| - 1].free {
          GrowKeeps(bs, base, brk, req);
          OneAddress(bs, base, brk, |bs| - 1);
        } else {
          AppendKeeps(bs, base, brk, Block(brk, req, false));
          forall c | c in bs
            ensures c.addr < brk
          {
            var j :| 0 <= j < |bs| && bs[j] == c;
            Within(bs, base, brk, j);
          }
        }
      }
  }

  // Addresses identify blocks.
  lemma OneAddress(bs: seq<Block>, base: nat, brk: nat, i: nat)
    requires Tiled(bs, base, brk) && i < |bs|
    ensures forall c :: c in bs && c.addr == bs[i].addr ==> c == bs[i]
  {
    forall c | c in bs && c.addr == bs[i].addr
      ensures c == bs[i]
    {
      var j :| 0 <= j < |bs| && bs[j] == c;
      if j < i { Before(bs, base, brk, j, i); }
      if i < j { Before(bs, base, brk, i, j); }
    }
  }

  // free: the block merges with both free neighbours and every other block in use stays.
  lemma ReleaseKeeps(bs: seq<Block>, base: nat, brk: nat, i: nat)
    requires Inv(bs, base, brk) && i < |bs|
    ensures Inv(Release(bs, i), base, brk)
    ensures Keeps(bs, Release(bs, i), bs[i].addr)
  {
    MarkTiles(bs, base, brk, i, true);
    CoalesceKeeps(bs[i := bs[i].(free := true)], base, brk, i);
  }

  // Absorbing a free successor leaves a block in use with neighbours in use or alone free.
  lemma AbsorbKeeps(bs: seq<Block>, base: nat, brk: nat, i: nat)
    requires Inv(bs, base, brk) && i + 1 < |bs| && !bs[i].free && bs[i + 1].free
    ensures Inv(Merge(bs, i), base, brk) && Keeps(bs, Merge(bs, i), bs[i].addr)
  {
    MergeTiles(bs, base, brk, i);
    MergeAt(bs, i);
    var ms := Merge(bs, i);
    forall j, k | 0 <= j && k == j + 1 < |ms|
      ensures !(ms[j].free && ms[k].free)
    {
      if k < i { assert !(bs[j].free && bs[k].free); }
      if i < j { assert !(bs[j + 1].free && bs[k + 1].free); }
    }
    forall b | b in bs && !b.free && b.addr != bs[i].addr
      ensures b in ms
    {
      var j :| 0 <= j < |bs| && bs[j] == b;
      assert b == if j < i then ms[j] else ms[j - 1];
    }
  }

  // The index of the block at address a, or the length of the list.
  function IndexOf(bs: seq<Block>, a: nat): (j: nat)
    ensures j <= |bs| && (j < |bs| ==> bs[j].addr == a)
  {
    if bs == [] then 0 else if bs[0].addr == a then 0 else 1 + IndexOf(bs[1..], a)
  }

  lemma {:induction false} IndexOfFinds(bs: seq<Block>, a: nat, k: nat)
    requires k < |bs| && bs[k].addr == a && forall j :: 0 <= j < k ==> bs[j].addr != a
    ensures IndexOf(bs, a) == k
  {
    if 0 < k {
      assert bs[0].addr != a;
      IndexOfFinds(bs[1..], a, k - 1);
    }
  }
}
