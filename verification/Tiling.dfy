/** How _step cuts the rows of the board into one job per thread. */
module Tiling {

  datatype Tile = Tile(lo: int, hi: int) {
    predicate Has(row: int) { lo <= row <= hi }
  }

  // The number of worker threads is at most the number of rows.
  function Clamp(height: nat, threads: nat): (n: nat)
    ensures n <= height && n <= threads && (1 <= height && 1 <= threads ==> 1 <= n)
    ensures n == height || n == threads
  {
    if height <= threads then height else threads
  }

  function Divider(height: nat, n: nat): nat
    requires 0 < n
  {
    if height / n == 0 then 1 else height / n
  }

  function TilesFrom(line: nat, left: nat, d: nat, height: nat): seq<Tile>
    decreases left
  {
    if left <= 1 then [Tile(line, height - 1)]
    else [Tile(line, line + d - 1)] + TilesFrom(line + d, left - 1, d, height)
  }

  function Tiles(height: nat, n: nat): seq<Tile>
    requires 0 < n
  {
    TilesFrom(0, n, Divider(height, n), height)
  }

  // Consecutive, non-empty and exhaustive.
  ghost predicate Covers(ts: seq<Tile>, line: int, height: int) {
    && ts != [] && ts[0].lo == line && ts[|ts| - 1].hi == height - 1
    && (forall k :: 0 <= k < |ts| ==> ts[k].lo <= ts[k].hi)
    && (forall k, j :: 0 <= k && j == k + 1 < |ts| ==> ts[j].lo == ts[k].hi + 1)
  }

  lemma {:induction false} TilesFromCover(line: nat, left: nat, d: nat, height: nat)
    requires 1 <= left && 1 <= d && line + left * d <= height
    ensures |TilesFrom(line, left, d, height)| == left
    ensures Covers(TilesFrom(line, left, d, height), line, height)
    decreases left
  {
    if 1 < left {
      assert left * d == (left - 1) * d + d;
      TilesFromCover(line + d, left - 1, d, height);
    } else {
      assert left * d == d;
    }
  }

  lemma TilesCover(height: nat, n: nat)
    requires 1 <= n <= height
    ensures |Tiles(height, n)| == n && Covers(Tiles(height, n), 0, height)
  {
    var d := Divider(height, n);
    assert 1 <= d && n * d <= height by {
      assert height == n * (height / n) + height % n;
      assert 0 < height / n;
    }
    TilesFromCover(0, n, d, height);
  }

  lemma {:induction false} TilesOrdered(ts: seq<Tile>, line: int, height: int, i: nat, j: nat)
    requires Covers(ts, line, height) && i < j < |ts|
    ensures ts[i].hi < ts[j].lo
    decreases j
  {
    assert ts[j].lo == ts[j - 1].hi + 1;
    if i < j - 1 {
      TilesOrdered(ts, line, height, i, j - 1);
    }
  }

  lemma {:induction false} TilesFromAt(line: nat, left: nat, d: nat, height: nat, k: nat)
    requires k < left
    ensures |TilesFrom(line, left, d, height)| == left
    ensures TilesFrom(line, left, d, height)[k] ==
            Tile(line + k * d, if k == left - 1 then height - 1 else line + (k + 1) * d - 1)
    decreases left
  {
    if 1 < left {
      TilesFromAt(line + d, left - 1, d, height, if k == 0 then 0 else k - 1);
      assert k > 0 ==> (k - 1) * d + d == k * d && k * d + d == (k + 1) * d;
    }
  }

  // Every job but the last has height / n rows; the last has those and the remainder.
  lemma TileAt(height: nat, n: nat, k: nat)
    requires k < n <= height
    ensures |Tiles(height, n)| == n
    ensures Tiles(height, n)[k].lo == k * (height / n)
    ensures Tiles(height, n)[k].hi == if k == n - 1 then height - 1 else (k + 1) * (height / n) - 1
  {
    assert 0 < height / n by {
      assert height == n * (height / n) + height % n;
    }
    TilesFromAt(0, n, Divider(height, n), height, k);
  }

  // No row belongs to two jobs.
  lemma OneTileAtMost(height: nat, n: nat, i: nat, j: nat, row: int)
    requires 1 <= n <= height && i < n && j < n
    requires |Tiles(height, n)| == n && Tiles(height, n)[i].Has(row) && Tiles(height, n)[j].Has(row)
    ensures i == j
  {
    TilesCover(height, n);
    if i < j { TilesOrdered(Tiles(height, n), 0, height, i, j); }
    if j < i { TilesOrdered(Tiles(height, n), 0, height, j, i); }
  }

  lemma {:induction false} CoverHas(ts: seq<Tile>, line: int, height: int, row: int) returns (k: nat)
    requires Covers(ts, line, height) && line <= row < height
    ensures k < |ts| && ts[k].Has(row)
    decreases |ts|
  {
    if ts[0].Has(row) {
      k := 0;
    } else {
      assert 1 < |ts| && ts[1].lo == ts[0].hi + 1;
      var rest := ts[1..];
      forall a, b | 0 <= a && b == a + 1 < |rest| ensures rest[b].lo == rest[a].hi + 1 {
        assert ts[b + 1].lo == ts[a + 1].hi + 1;
      }
      k := CoverHas(rest, ts[1].lo, height, row);
      k := k + 1;
    }
  }

  // Every row belongs to a job, and a job has only rows of the board.
  lemma SomeTile(height: nat, n: nat, row: int) returns (k: nat)
    requires 1 <= n <= height && 0 <= row < height
    ensures k < n == |Tiles(height, n)| && Tiles(height, n)[k].Has(row)
  {
    TilesCover(height, n);
    k := CoverHas(Tiles(height, n), 0, height, row);
  }

  lemma TileInside(height: nat, n: nat, k: nat)
    requires 1 <= n <= height && k < n
    ensures |Tiles(height, n)| == n
    ensures 0 <= Tiles(height, n)[k].lo <= Tiles(height, n)[k].hi < height
  {
    TilesCover(height, n);
    var ts := Tiles(height, n);
    if 0 < k { TilesOrdered(ts, 0, height, 0, k); }
    if k < n - 1 { TilesOrdered(ts, 0, height, k, n - 1); }
  }

  // The loop of _step that pushes the jobs.
  method PushJobs(height: nat, n: nat) returns (jobs: seq<Tile>)
    requires 0 < n
    ensures jobs == Tiles(height, n)
  {
    var divider := if height / n == 0 then 1 else height / n;
    var line := 0;
    var i := n;
    jobs := [];
    while i > 1
      invariant 1 <= i <= n && 0 <= line
      invariant jobs + TilesFrom(line, i, divider, height) == Tiles(height, n)
    {
      jobs := jobs + [Tile(line, line + divider - 1)];
      i := i - 1;
      line := line + divider;
    }
    jobs := jobs + [Tile(line, height - 1)];
  }
}
