/** Conway's rule on a finite board, and the loops of Life_Thread that compute it. */
module Life {

  type Board = seq<seq<bool>>

  ghost predicate Rect(b: Board, h: nat, w: nat) {
    |b| == h && forall i :: 0 <= i < h ==> |b[i]| == w
  }

  // ---- the rule ---------------------------------------------------------------------------

  // Cells outside the board are dead.
  function Cell(b: Board, i: int, j: int): nat {
    if 0 <= i < |b| && 0 <= j < |b[i]| && b[i][j] then 1 else 0
  }

  function LiveNeighbours(b: Board, i: int, j: int): nat {
    Cell(b, i - 1, j - 1) + Cell(b, i - 1, j) + Cell(b, i - 1, j + 1) +
    Cell(b, i, j - 1) + Cell(b, i, j + 1) +
    Cell(b, i + 1, j - 1) + Cell(b, i + 1, j) + Cell(b, i + 1, j + 1)
  }

  predicate Survives(b: Board, i: int, j: int) {
    if Cell(b, i, j) == 1 then LiveNeighbours(b, i, j) == 2 || LiveNeighbours(b, i, j) == 3
    else LiveNeighbours(b, i, j) == 3
  }

  // The live cells around (i, j), the cell itself left out.
  ghost function Around(b: Board, i: int, j: int): (r: set<(int, int)>)
    ensures forall x, y :: (x, y) in r <==>
              && i - 1 <= x <= i + 1 && j - 1 <= y <= j + 1 && (x, y) != (i, j)
              && 0 <= x < |b| && 0 <= y < |b[x]| && b[x][y]
  {
    set x, y | i - 1 <= x <= i + 1 && j - 1 <= y <= j + 1 && Cell(b, x, y) == 1 && (x, y) != (i, j) :: (x, y)
  }

  ghost function If(b: Board, i: int, j: int): (r: set<(int, int)>)
    ensures |r| == Cell(b, i, j) && forall c :: c in r <==> Cell(b, i, j) == 1 && c == (i, j)
  {
    if Cell(b, i, j) == 1 then {(i, j)} else {}
  }

  lemma Three(b: Board, x: int, j: int) returns (r: set<(int, int)>)
    ensures |r| == Cell(b, x, j - 1) + Cell(b, x, j) + Cell(b, x, j + 1)
    ensures forall c :: c in r <==> c.0 == x && j - 1 <= c.1 <= j + 1 && Cell(b, c.0, c.1) == 1
  {
    var r1 := If(b, x, j - 1) + If(b, x, j);
    assert If(b, x, j - 1) !! If(b, x, j);
    r := r1 + If(b, x, j + 1);
    assert r1 !! If(b, x, j + 1);
  }

  lemma Two(b: Board, i: int, j: int) returns (r: set<(int, int)>)
    ensures |r| == Cell(b, i, j - 1) + Cell(b, i, j + 1)
    ensures forall c :: c in r <==> c.0 == i && j - 1 <= c.1 <= j + 1 && c.1 != j && Cell(b, c.0, c.1) == 1
  {
    r := If(b, i, j - 1) + If(b, i, j + 1);
    assert If(b, i, j - 1) !! If(b, i, j + 1);
  }

  lemma Unions(a: set<(int, int)>, b: set<(int, int)>, c: set<(int, int)>, r: set<(int, int)>)
    requires forall x :: x in r <==> x in a || x in b || x in c
    requires a !! b && a !! c && b !! c
    ensures |r| == |a| + |b| + |c|
  {
    assert r == a + b + c;
    assert a + b !! c;
  }

  lemma InAround(b: Board, i: int, j: int, c: (int, int))
    ensures c in Around(b, i, j) <==>
              i - 1 <= c.0 <= i + 1 && j - 1 <= c.1 <= j + 1 && (c.0 != i || c.1 != j) && Cell(b, c.0, c.1) == 1
  {
    assert c == (c.0, c.1);
    assert c in Around(b, i, j) <==> (c.0, c.1) in Around(b, i, j);
  }

  lemma AroundIsLive(b: Board, i: int, j: int)
    ensures |Around(b, i, j)| == LiveNeighbours(b, i, j)
  {
    var around := Around(b, i, j);
    var above := Three(b, i - 1, j);
    var below := Three(b, i + 1, j);
    var beside := Two(b, i, j);
    forall c ensures c in around <==> c in above || c in beside || c in below {
      InAround(b, i, j, c);
    }
    Unions(above, beside, below, around);
  }

  /** Conway's rule: a cell is alive next when it has three live neighbours, or is alive and has two. */
  lemma ConwayRule(b: Board, i: nat, j: nat)
    requires i < |b| && j < |b[i]|
    ensures Survives(b, i, j) <==> |Around(b, i, j)| == 3 || (b[i][j] && |Around(b, i, j)| == 2)
  {
    AroundIsLive(b, i, j);
  }

  function NextRow(b: Board, w: nat, i: nat): (r: seq<bool>)
    ensures |r| == w && forall j :: 0 <= j < w ==> r[j] == Survives(b, i, j)
  {
    seq(w, j => Survives(b, i, j))
  }

  // One generation.
  function Next(b: Board, w: nat): (r: Board)
    ensures Rect(r, |b|, w)
    ensures forall i :: 0 <= i < |b| ==> r[i] == NextRow(b, w, i)
  {
    seq(|b|, i requires 0 <= i => NextRow(b, w, i))
  }

  // k generations.
  function Generations(b: Board, w: nat, k: nat): Board {
    if k == 0 then b else Next(Generations(b, w, k - 1), w)
  }

  lemma NextIsConway(b: Board, h: nat, w: nat, i: nat, j: nat)
    requires Rect(b, h, w) && i < h && j < w
    ensures |Next(b, w)| == h && |Next(b, w)[i]| == w
    ensures Next(b, w)[i][j] <==> |Around(b, i, j)| == 3 || (b[i][j] && |Around(b, i, j)| == 2)
  {
    ConwayRule(b, i, j);
  }

  lemma {:induction false} GenerationsRect(b: Board, h: nat, w: nat, k: nat)
    requires Rect(b, h, w)
    ensures Rect(Generations(b, w, k), h, w)
  {
    if 0 < k {
      GenerationsRect(b, h, w, k - 1);
    }
  }

  /** Each generation follows from the one before by Conway's rule. */
  lemma GenerationIsConway(b: Board, h: nat, w: nat, k: nat, i: nat, j: nat)
    requires Rect(b, h, w) && i < h && j < w
    ensures Generations(b, w, 0) == b
    ensures var now, then' := Generations(b, w, k), Generations(b, w, k + 1);
            && Rect(now, h, w) && Rect(then', h, w)
            && (then'[i][j] <==> |Around(now, i, j)| == 3 || (now[i][j] && |Around(now, i, j)| == 2))
  {
    GenerationsRect(b, h, w, k);
    NextIsConway(Generations(b, w, k), h, w, i, j);
  }

  // ---- the loops --------------------------------------------------------------------------

  ghost function BoardOf(a: array2<bool>): (b: Board)
    reads a
    ensures Rect(b, a.Length0, a.Length1)
    ensures forall i, j :: 0 <= i < a.Length0 && 0 <= j < a.Length1 ==> b[i][j] == a[i, j]
  {
    seq(a.Length0, i requires 0 <= i < a.Length0 reads a =>
      seq(a.Length1, j requires 0 <= j < a.Length1 reads a => a[i, j]))
  }

  // What columns lo..hi-1 of row i add to the count around (r, c).
  function RowCount(b: Board, r: int, c: int, i: int, lo: int, hi: int): nat
    decreases hi - lo
  {
    if hi <= lo then 0
    else RowCount(b, r, c, i, lo, hi - 1) + if i == r && hi - 1 == c then 0 else Cell(b, i, hi - 1)
  }

  function WindowCount(b: Board, r: int, c: int, top: int, bottom: int, lo: int, hi: int): nat
    decreases bottom - top
  {
    if bottom <= top then 0
    else WindowCount(b, r, c, top, bottom - 1, lo, hi) + RowCount(b, r, c, bottom - 1, lo, hi)
  }

  // Clipping the window to the board loses no live cell.
  lemma ClippedRow(b: Board, h: nat, w: nat, r: int, c: int, i: int, lo: int, hi: int)
    requires Rect(b, h, w) && 0 <= c < w
    requires lo == (if c == 0 then 0 else c - 1) && hi == (if c == w - 1 then c else c + 1)
    ensures RowCount(b, r, c, i, lo, hi + 1)
            == Cell(b, i, c - 1) + (if i == r then 0 else Cell(b, i, c)) + Cell(b, i, c + 1)
  {
    assert RowCount(b, r, c, i, lo, lo) == 0;
    assert RowCount(b, r, c, i, lo, lo + 1) == if i == r && lo == c then 0 else Cell(b, i, lo);
    if lo + 1 <= hi {
      assert RowCount(b, r, c, i, lo, lo + 2) ==
        RowCount(b, r, c, i, lo, lo + 1) + if i == r && lo + 1 == c then 0 else Cell(b, i, lo + 1);
    }
  }

  lemma ClippedWindow(b: Board, h: nat, w: nat, r: int, c: int, top: int, bottom: int, lo: int, hi: int)
    requires Rect(b, h, w) && 0 <= r < h && 0 <= c < w
    requires top == (if r == 0 then 0 else r - 1) && bottom == (if r == h - 1 then r else r + 1)
    requires lo == (if c == 0 then 0 else c - 1) && hi == (if c == w - 1 then c else c + 1)
    ensures WindowCount(b, r, c, top, bottom + 1, lo, hi + 1) == LiveNeighbours(b, r, c)
  {
    ClippedRow(b, h, w, r, c, r - 1, lo, hi);
    ClippedRow(b, h, w, r, c, r, lo, hi);
    ClippedRow(b, h, w, r, c, r + 1, lo, hi);
    assert WindowCount(b, r, c, top, top, lo, hi + 1) == 0;
    assert WindowCount(b, r, c, top, top + 1, lo, hi + 1) == RowCount(b, r, c, top, lo, hi + 1);
    if top + 1 <= bottom {
      assert WindowCount(b, r, c, top, top + 2, lo, hi + 1) ==
        WindowCount(b, r, c, top, top + 1, lo, hi + 1) + RowCount(b, r, c, top + 1, lo, hi + 1);
    }
  }

  // The window around a cell, clipped at the edges of the board.
  method Window(line: int, cell: int, width: int, height: int)
      returns (highest: int, lowest: int, leftest: int, rightest: int)
    requires 0 <= line < height && 0 <= cell < width
    ensures highest == (if line == 0 then 0 else line - 1) && lowest == (if line == height - 1 then line else line + 1)
    ensures leftest == (if cell == 0 then 0 else cell - 1) && rightest == (if cell == width - 1 then cell else cell + 1)
  {
    if line != 0 {
      highest := line - 1;
    } else {
      highest := line;
    }
    if line == height - 1 {
      lowest := line;
    } else {
      lowest := line + 1;
    }
    if cell == 0 {
      leftest := 0;
      rightest := 0;
      if width != 1 {
        rightest := cell + 1;
      }
    } else {
      leftest := cell - 1;
      rightest := cell + 1;
    }
    if cell == width - 1 {
      rightest := cell;
    }
  }

  // The cell itself is skipped.
  method CalculateLiveNeighbours(line: int, cell: int, width: int, height: int, curr: array2<bool>)
      returns (count: nat)
    requires 0 <= line < height == curr.Length0 && 0 <= cell < width == curr.Length1
    ensures count == LiveNeighbours(BoardOf(curr), line, cell)
  {
    ghost var b := BoardOf(curr);
    var highest, lowest, leftest, rightest := Window(line, cell, width, height);
    count := 0;
    var i := highest;
    while i <= lowest
      invariant highest <= i <= lowest + 1
      invariant count == WindowCount(b, line, cell, highest, i, leftest, rightest + 1)
    {
      var j := leftest;
      ghost var before := count;
      while j <= rightest
        invariant leftest <= j <= rightest + 1
        invariant count == before + RowCount(b, line, cell, i, leftest, j)
      {
        if i == line && j == cell {
          j := j + 1;
          continue;
        }
        if curr[i, j] {
          count := count + 1;
        }
        j := j + 1;
      }
      i := i + 1;
    }
    ClippedWindow(b, height, width, line, cell, highest, lowest, leftest, rightest);
  }

  // One row of the next generation.
  method CalculateLine(curr: array2<bool>, next: array2<bool>, line: int, width: int, height: int)
    requires curr != next && next.Length0 == height == curr.Length0 && next.Length1 == width == curr.Length1
    requires 0 <= line < height
    modifies next
    ensures forall j :: 0 <= j < width ==> next[line, j] == Survives(BoardOf(curr), line, j)
    ensures forall i, j :: 0 <= i < height && 0 <= j < width && i != line ==> next[i, j] == old(next[i, j])
  {
    ghost var b := BoardOf(curr);
    var cell := 0;
    while cell < width
      invariant 0 <= cell <= width
      invariant forall j :: 0 <= j < cell ==> next[line, j] == Survives(b, line, j)
      invariant forall i, j :: 0 <= i < height && 0 <= j < width && i != line ==> next[i, j] == old(next[i, j])
      invariant BoardOf(curr) == b
    {
      var count := CalculateLiveNeighbours(line, cell, width, height, curr);
      if curr[line, cell] {
        next[line, cell] := count == 2 || count == 3;
      } else {
        next[line, cell] := count == 3;
      }
      cell := cell + 1;
    }
  }

  // The rows of one job; every other row of `next` is left alone.
  method CalculateNextGenerationMatrix(curr: array2<bool>, next: array2<bool>,
                                       start: int, end: int, width: int, height: int)
    requires curr != next && next.Length0 == height == curr.Length0 && next.Length1 == width == curr.Length1
    requires 0 <= start && end < height
    modifies next
    ensures forall i, j :: start <= i <= end && 0 <= j < width ==>
              next[i, j] == Survives(BoardOf(curr), i, j)
    ensures forall i, j :: start <= i <= end && 0 <= j < width ==>
              var n := |Around(BoardOf(curr), i, j)|;
              next[i, j] <==> n == 3 || (curr[i, j] && n == 2)
    ensures forall i, j :: 0 <= i < height && 0 <= j < width && !(start <= i <= end) ==>
              next[i, j] == old(next[i, j])
  {
    ghost var b := BoardOf(curr);
    var line := start;
    while line <= end
      invariant start <= line && (line <= end + 1 || line == start)
      invariant forall i, j :: start <= i < line && 0 <= j < width ==> next[i, j] == Survives(b, i, j)
      invariant forall i, j :: 0 <= i < height && 0 <= j < width && !(start <= i < line) ==>
                  next[i, j] == old(next[i, j])
      invariant BoardOf(curr) == b
    {
      CalculateLine(curr, next, line, width, height);
      line := line + 1;
    }
    forall i, j | start <= i <= end && 0 <= j < width
      ensures var n := |Around(b, i, j)|; next[i, j] <==> n == 3 || (curr[i, j] && n == 2)
    {
      ConwayRule(b, i, j);
    }
  }
}
