/** Every step of a worker thread keeps the invariant of the game. */
module GameWorkerSteps {
  import opened Life
  import opened Tiling
  import opened GameMachine
  import opened GameInvariant
  import opened GameMainSteps

  // The parts of the state that belong to the boards; worker w's own progress is checked apart.
  lemma CellsFrame(c: Config, s: State, s': State, w: nat)
    requires Ready(c) && Shape(c, s) && Queued(c, s) && Owned(c, s) && Cells(c, s) && w < c.threads
    requires Shape(c, s') && Queued(c, s') && Owned(c, s')
    requires s'.workers == s.workers[w := s'.workers[w]]
    requires s'.boards == s.boards && s'.cur == s.cur && s'.gen == s.gen && s'.main == s.main
    requires forall id :: id in s'.counted ==> id in s.counted || TileDone(c, s.boards[Other(s)], Target(c, s), id)
    requires Progressed(c, s.boards[Other(s)], Target(c, s), s'.workers[w])
    ensures Cells(c, s')
  {
  }

  lemma LockedFrame(c: Config, s: State, s': State, w: nat)
    requires Shape(c, s) && Locked(c, s) && Shape(c, s') && w < c.threads
    requires s'.workers == s.workers[w := s'.workers[w]] && s'.mutex == s.mutex
    requires HasLock(s'.workers[w]) == HasLock(s.workers[w])
    ensures Locked(c, s')
  {
  }

  lemma RecordedFrame(c: Config, s: State, s': State, w: nat)
    requires Shape(c, s) && Recorded(c, s) && Shape(c, s') && w < c.threads
    requires s'.workers == s.workers[w := s'.workers[w]]
    requires s'.main == s.main && s'.gen == s.gen && s'.base == s.base && s'.counter == s.counter
    requires s'.tiles == s.tiles
    requires !s'.workers[w].Recording? && Unrecorded(s') == Unrecorded(s)
    ensures Recorded(c, s')
  {
  }

  lemma StoppedFrame(c: Config, s: State, s': State, w: nat)
    requires Shape(c, s) && Stopped(c, s) && Shape(c, s') && w < c.threads
    requires s'.workers == s.workers[w := s'.workers[w]] && s'.main == s.main && s'.finished == s.finished
    requires s.finished ==>
      |s'.queue| + (if IsGone(s'.workers[w]) then 1 else 0) == |s.queue| + (if IsGone(s.workers[w]) then 1 else 0)
    requires !s.workers[w].Exited?
    ensures Stopped(c, s')
  {
    GoneUpdate(s.workers, w, s'.workers[w]);
  }

  lemma PopOwned(c: Config, s: State, w: nat)
    requires Ready(c) && Shape(c, s) && Queued(c, s) && Owned(c, s)
    requires WorkerEnabled(s, w) && s.workers[w].Popping?
    ensures var s' := WorkerStep(c, s, w);
            && Shape(c, s') && Queued(c, s') && Owned(c, s')
            && (s.queue[0].Stop? ==> s.finished)
            && (s.queue[0].Work? ==> !s.finished)
  {
    var s' := WorkerStep(c, s, w);
    var item := s.queue[0];
    assert Shape(c, s');
    if s.finished {
      assert item == Stop;
    } else {
      assert item == Work(JobAt(c, s.cur, s.gen, s.popped));
    }
    assert Queued(c, s');
    forall v | 0 <= v < c.threads ensures CarriesOwn(c, s', v) {
      assert CarriesOwn(c, s, v);
    }
  }

  lemma PopKeeps(c: Config, s: State, w: nat)
    requires Inv(c, s) && WorkerEnabled(s, w) && s.workers[w].Popping?
    ensures Inv(c, WorkerStep(c, s, w))
  {
    var s' := WorkerStep(c, s, w);
    PopOwned(c, s, w);
    CellsFrame(c, s, s', w);
    LockedFrame(c, s, s', w);
    RecordedFrame(c, s, s', w);
    StoppedFrame(c, s, s', w);
  }

  ghost predicate StartsTile(c: Config, p: Worker)
    requires Ready(c)
  {
    p.Computing? && p.job.id < c.threads && p == Computing(p.job, p.job.lo, 0) && InTile(c, p.job)
  }

  ghost predicate InTile(c: Config, job: Job)
    requires Ready(c) && job.id < c.threads
  {
    Tiles(c.height, c.threads)[job.id] == Tile(job.lo, job.hi)
  }

  lemma TestOwned(c: Config, s: State, w: nat)
    requires Ready(c) && Shape(c, s) && Queued(c, s) && Owned(c, s)
    requires WorkerEnabled(s, w) && s.workers[w].Popped?
    ensures var s' := WorkerStep(c, s, w);
            && Shape(c, s') && Queued(c, s') && Owned(c, s')
            && (s.finished ==> s.workers[w] == Popped(Stop) && s'.workers[w] == Leaving)
            && (s.finished || StartsTile(c, s'.workers[w]))
  {
    var s' := WorkerStep(c, s, w);
    assert Shape(c, s') && Queued(c, s') && CarriesOwn(c, s, w);
    if !s.finished {
      TileInside(c.height, c.threads, JobOf(s.workers[w]).id);
    }
    forall v | 0 <= v < c.threads ensures CarriesOwn(c, s', v) {
      assert CarriesOwn(c, s, v);
    }
  }

  lemma TestKeeps(c: Config, s: State, w: nat)
    requires Inv(c, s) && WorkerEnabled(s, w) && s.workers[w].Popped?
    ensures Inv(c, WorkerStep(c, s, w))
  {
    var s' := WorkerStep(c, s, w);
    TestOwned(c, s, w);
    if !s.finished {
      TileInside(c.height, c.threads, s'.workers[w].job.id);
    }
    CellsFrame(c, s, s', w);
    LockedFrame(c, s, s', w);
    RecordedFrame(c, s, s', w);
    StoppedFrame(c, s, s', w);
  }

  // Steps that keep the job, or have none.
  lemma SameJobOwned(c: Config, s: State, s': State, w: nat)
    requires Ready(c) && Shape(c, s) && Queued(c, s) && Owned(c, s) && w < c.threads
    requires Shape(c, s') && s'.workers == s.workers[w := s'.workers[w]]
    requires s'.cur == s.cur && s'.gen == s.gen && s'.finished == s.finished && s'.main == s.main
    requires s'.queue == s.queue && s'.popped == s.popped && s'.counted == s.counted && s'.owner == s.owner
    requires s'.counter == s.counter
    requires Carries(s'.workers[w]) == Carries(s.workers[w])
    requires Carries(s.workers[w]) ==> JobOf(s'.workers[w]) == JobOf(s.workers[w])
    requires IsGone(s'.workers[w]) ==> IsGone(s.workers[w])
    requires !s'.workers[w].Crashed?
    ensures Queued(c, s') && Owned(c, s')
  {
    forall v | 0 <= v < c.threads ensures CarriesOwn(c, s', v) {
      assert CarriesOwn(c, s, v);
    }
  }

  lemma LockKeeps(c: Config, s: State, w: nat)
    requires Inv(c, s) && WorkerEnabled(s, w) && s.workers[w].Computed?
    ensures Inv(c, WorkerStep(c, s, w))
  {
    var s' := WorkerStep(c, s, w);
    SameJobOwned(c, s, s', w);
    CellsFrame(c, s, s', w);
    RecordedFrame(c, s, s', w);
    StoppedFrame(c, s, s', w);
  }

  lemma RecordKeeps(c: Config, s: State, w: nat)
    requires Inv(c, s) && WorkerEnabled(s, w) && s.workers[w].Recording?
    ensures Inv(c, WorkerStep(c, s, w))
  {
    var s' := WorkerStep(c, s, w);
    SameJobOwned(c, s, s', w);
    CellsFrame(c, s, s', w);
    LockedFrame(c, s, s', w);
    StoppedFrame(c, s, s', w);
    assert Recorded(c, s');
  }

  lemma UnlockKeeps(c: Config, s: State, w: nat)
    requires Inv(c, s) && WorkerEnabled(s, w) && s.workers[w].Releasing?
    ensures Inv(c, WorkerStep(c, s, w))
  {
    var s' := WorkerStep(c, s, w);
    SameJobOwned(c, s, s', w);
    CellsFrame(c, s, s', w);
    RecordedFrame(c, s, s', w);
    StoppedFrame(c, s, s', w);
  }

  lemma LeaveKeeps(c: Config, s: State, w: nat)
    requires Inv(c, s) && WorkerEnabled(s, w) && s.workers[w].Leaving?
    ensures Inv(c, WorkerStep(c, s, w))
  {
    var s' := WorkerStep(c, s, w);
    SameJobOwned(c, s, s', w);
    CellsFrame(c, s, s', w);
    LockedFrame(c, s, s', w);
    RecordedFrame(c, s, s', w);
    StoppedFrame(c, s, s', w);
  }

  lemma CountOwned(c: Config, s: State, w: nat)
    requires Inv(c, s) && w < c.threads && s.workers[w].Counting?
    ensures !s.main.Resetting?
    ensures var s' := WorkerStep(c, s, w); Shape(c, s') && Queued(c, s') && Owned(c, s') && s'.counter <= c.threads
  {
    var s' := WorkerStep(c, s, w);
    assert Shape(c, s') && Queued(c, s');
    assert CarriesOwn(c, s, w);
    if s.counter == c.threads {
      AllCounted(c, s);
    }
    forall v | 0 <= v < c.threads ensures CarriesOwn(c, s', v) {
      assert CarriesOwn(c, s, v);
    }
    BelowAtMost(s'.counted, c.threads);
  }

  lemma CountRecorded(c: Config, s: State, w: nat)
    requires Ready(c) && Shape(c, s) && Locked(c, s) && Recorded(c, s)
    requires w < c.threads && s.workers[w].Counting? && s.workers[w].job.gen == s.gen
    requires s.counter < c.threads && !s.main.Swapping? && !s.main.Syncing?
    ensures Shape(c, WorkerStep(c, s, w)) && Recorded(c, WorkerStep(c, s, w))
  {
    var s' := WorkerStep(c, s, w);
    assert (s.gen + 1) * c.threads == s.gen * c.threads + c.threads;
    assert OfGeneration(c, s.gen, |s.tiles|);
  }

  lemma CountKeeps(c: Config, s: State, w: nat)
    requires Inv(c, s) && WorkerEnabled(s, w) && s.workers[w].Counting?
    ensures Inv(c, WorkerStep(c, s, w))
  {
    var s' := WorkerStep(c, s, w);
    CountOwned(c, s, w);
    assert CarriesOwn(c, s, w);
    CellsFrame(c, s, s', w);
    LockedFrame(c, s, s', w);
    CountRecorded(c, s, w);
    StoppedFrame(c, s, s', w);
  }

  // ---- writing a cell ---------------------------------------------------------------------------

  lemma WriteRect(b: Board, h: nat, w: nat, i: int, j: int, v: bool)
    requires Rect(b, h, w) && 0 <= i < h && 0 <= j < w
    ensures Rect(Write(b, i, j, v), h, w)
    ensures Write(b, i, j, v)[i] == b[i][j := v]
    ensures forall r :: 0 <= r < h && r != i ==> Write(b, i, j, v)[r] == b[r]
  {
  }

  // Another worker's tile, and its progress there, are not touched.
  lemma OtherTile(c: Config, b: Board, b': Board, target: Board, id: nat, row: int, other: nat)
    requires Ready(c) && |b| == |b'| == |target| == c.height
    requires id < c.threads && other < c.threads && id != other
    requires Tiles(c.height, c.threads)[id].Has(row)
    requires forall r :: 0 <= r < c.height && r != row ==> b'[r] == b[r]
    ensures TileDone(c, b, target, other) ==> TileDone(c, b', target, other)
  {
    forall r | 0 <= r < c.height && Tiles(c.height, c.threads)[other].Has(r)
      ensures b'[r] == b[r]
    {
      if r == row { OneTileAtMost(c.height, c.threads, id, other, r); }
    }
  }

  lemma OtherProgress(c: Config, b: Board, b': Board, target: Board, id: nat, row: int, p: Worker)
    requires Ready(c) && Rect(b, c.height, c.width) && Rect(b', c.height, c.width) && Rect(target, c.height, c.width)
    requires id < c.threads && Tiles(c.height, c.threads)[id].Has(row)
    requires forall r :: 0 <= r < c.height && r != row ==> b'[r] == b[r]
    requires Carries(p) ==> JobOf(p).id < c.threads && JobOf(p).id != id
    requires p.Computing? ==> p.job.lo == Tiles(c.height, c.threads)[p.job.id].lo
                              && p.job.hi == Tiles(c.height, c.threads)[p.job.id].hi
    requires Progressed(c, b, target, p)
    ensures Progressed(c, b', target, p)
  {
    match p
    case Computing(job, r, _) =>
      if job.lo <= row <= job.hi { OneTileAtMost(c.height, c.threads, id, job.id, row); }
    case Computed(job) => OtherTile(c, b, b', target, id, row, job.id);
    case Counting(job) => OtherTile(c, b, b', target, id, row, job.id);
    case _ =>
  }

  // The writer's own progress.
  lemma OwnProgress(c: Config, b: Board, target: Board, job: Job, row: int, col: int)
    requires Ready(c) && Rect(b, c.height, c.width) && Rect(target, c.height, c.width)
    requires Progressed(c, b, target, Computing(job, row, col))
    requires Tiles(c.height, c.threads)[job.id] == Tile(job.lo, job.hi)
    ensures var next := if col + 1 < c.width then Computing(job, row, col + 1)
                        else if row + 1 <= job.hi then Computing(job, row + 1, 0)
                        else Computed(job);
            var b' := Write(b, row, col, target[row][col]);
            Rect(b', c.height, c.width) && Progressed(c, b', target, next)
  {
    var b' := Write(b, row, col, target[row][col]);
    WriteRect(b, c.height, c.width, row, col, target[row][col]);
    assert forall k :: 0 <= k < col + 1 ==> b'[row][k] == target[row][k];
    if col + 1 == c.width {
      assert b'[row] == target[row];
    }
  }

  // A cell is written in the other board, in a row of the writer's own tile.
  lemma ComputeCells(c: Config, s: State, w: nat)
    requires Ready(c) && Shape(c, s) && Queued(c, s) && Owned(c, s) && Cells(c, s)
    requires w < c.threads && s.workers[w].Computing?
    ensures var s' := WorkerStep(c, s, w);
            && Shape(c, s') && s'.boards[s.cur] == s.boards[s.cur]
            && (forall id :: id in s.counted ==> TileDone(c, s'.boards[Other(s)], Target(c, s), id))
            && (forall v :: 0 <= v < c.threads ==>
                  Progressed(c, s'.boards[Other(s)], Target(c, s), s'.workers[v]))
  {
    var s' := WorkerStep(c, s, w);
    assert CarriesOwn(c, s, w);
    var p := s.workers[w];
    var job := p.job;
    var b, target := s.boards[Other(s)], Target(c, s);
    assert s.main.Pushing? || s.main.Spinning? || s.main.Resetting?;
    TileInside(c.height, c.threads, job.id);
    assert Progressed(c, b, target, p);
    OwnProgress(c, b, target, job, p.row, p.col);
    var b' := Write(b, p.row, p.col, target[p.row][p.col]);
    WriteRect(b, c.height, c.width, p.row, p.col, target[p.row][p.col]);
    assert s'.boards == s.boards[Other(s) := b'];
    forall id | id in s.counted ensures TileDone(c, b', target, id) {
      OtherTile(c, b, b', target, job.id, p.row, id);
    }
    forall v | 0 <= v < c.threads && v != w ensures Progressed(c, b', target, s.workers[v]) {
      assert CarriesOwn(c, s, v);
      if Carries(s.workers[v]) { TileInside(c.height, c.threads, JobOf(s.workers[v]).id); }
      OtherProgress(c, b, b', target, job.id, p.row, s.workers[v]);
    }
  }

  lemma ComputeKeeps(c: Config, s: State, w: nat)
    requires Inv(c, s) && WorkerEnabled(s, w) && s.workers[w].Computing?
    ensures Inv(c, WorkerStep(c, s, w))
  {
    var s' := WorkerStep(c, s, w);
    ComputeCells(c, s, w);
    assert CarriesOwn(c, s, w);
    if s.main.Resetting? { AllCounted(c, s); }
    SameJobOwned(c, s, s', w);
    LockedFrame(c, s, s', w);
    RecordedFrame(c, s, s', w);
    StoppedFrame(c, s, s', w);
  }

  lemma WorkerKeeps(c: Config, s: State, w: nat)
    requires Inv(c, s) && WorkerEnabled(s, w)
    ensures Inv(c, WorkerStep(c, s, w))
  {
    match s.workers[w]
    case Popping => PopKeeps(c, s, w);
    case Popped(_) => TestKeeps(c, s, w);
    case Computing(_, _, _) => ComputeKeeps(c, s, w);
    case Computed(_) => LockKeeps(c, s, w);
    case Counting(_) => CountKeeps(c, s, w);
    case Recording(_) => RecordKeeps(c, s, w);
    case Releasing => UnlockKeeps(c, s, w);
    case Leaving => LeaveKeeps(c, s, w);
    case Exited =>
    case Crashed =>
  }
}
