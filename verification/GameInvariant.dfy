/** The invariant of the game machine, and that its first state meets it. */
module GameInvariant {
  import opened Common
  import opened Life
  import opened Tiling
  import opened GameMachine

  // ---- what the phases of the main thread mean ------------------------------------------------

  // Jobs of this generation that are in the queue or have been.
  function Pushed(c: Config, m: Main): nat {
    match m
    case Pushing(i) => i
    case Spinning => c.threads
    case Resetting => c.threads
    case _ => 0
  }

  // Generations complete in the current board.
  function Completed(s: State): nat {
    if s.main.Syncing? then s.gen + 1 else s.gen
  }

  function Other(s: State): nat {
    if s.cur == 0 then 1 else 0
  }

  function Target(c: Config, s: State): Board {
    Next(Generations(c.board, c.width, s.gen), c.width)
  }

  predicate Carries(p: Worker) {
    (p.Popped? && p.item.Work?) || p.Computing? || p.Computed? || p.Counting?
  }

  function JobOf(p: Worker): Job
    requires Carries(p)
  {
    if p.Popped? then p.item.job else p.job
  }

  predicate HasLock(p: Worker) {
    p.Counting? || p.Recording? || p.Releasing?
  }

  // ---- the invariant ---------------------------------------------------------------------------

  ghost predicate Ready(c: Config) {
    c.Ok() && |Tiles(c.height, c.threads)| == c.threads
  }

  ghost predicate Shape(c: Config, s: State) {
    && |s.workers| == c.threads && |s.boards| == 2 && s.cur < 2
    && Rect(s.boards[0], c.height, c.width) && Rect(s.boards[1], c.height, c.width)
    && (s.finished <==> s.main.Stopping? || s.main.Joining? || s.main.Done?)
    && (s.finished || s.main.Finishing? ==> s.gen == c.generations)
    && (!s.finished && !s.main.Finishing? ==> s.gen < c.generations)
    && (s.main.Pushing? ==> s.main.i < c.threads)
    && (s.main.Stopping? ==> s.main.i <= c.threads)
    && (s.main.Joining? ==> s.main.i < c.threads)
  }

  // Before the end the queue holds exactly the jobs pushed and not yet popped, in order;
  // afterwards it holds null jobs.
  ghost predicate Queued(c: Config, s: State)
    requires Ready(c)
  {
    && s.popped <= Pushed(c, s.main) <= c.threads
    && (s.finished ==> forall k :: 0 <= k < |s.queue| ==> s.queue[k] == Stop)
    && (!s.finished ==>
          && |s.queue| == Pushed(c, s.main) - s.popped
          && forall k, id :: 0 <= k < |s.queue| && id == s.popped + k ==>
               s.queue[k] == Work(JobAt(c, s.cur, s.gen, id)))
  }

  // Each popped job is counted or carried by one worker.
  ghost predicate Owned(c: Config, s: State)
    requires Ready(c) && Shape(c, s) && Queued(c, s)
  {
    && s.counter == |s.counted|
    && (s.main.Resetting? ==> s.counter == c.threads)
    && (forall id :: id in s.counted ==> id < s.popped)
    && (forall id :: 0 <= id < s.popped && id !in s.counted ==>
          id in s.owner && s.owner[id] < c.threads && Carries(s.workers[s.owner[id]])
          && JobOf(s.workers[s.owner[id]]).id == id)
    && (forall w :: 0 <= w < c.threads ==> CarriesOwn(c, s, w))
  }

  ghost predicate CarriesOwn(c: Config, s: State, w: nat)
    requires Ready(c) && Shape(c, s) && Queued(c, s) && w < c.threads
  {
    && (Carries(s.workers[w]) ==>
          var j := JobOf(s.workers[w]);
          j.id < s.popped && j.id !in s.counted && j.id in s.owner && s.owner[j.id] == w
          && j == JobAt(c, s.cur, s.gen, j.id))
    && (s.workers[w] == Popped(Stop) || s.workers[w].Leaving? || s.workers[w].Exited? ==> s.finished)
    && !s.workers[w].Crashed?
  }

  ghost predicate TileDone(c: Config, b: Board, target: Board, id: nat)
    requires Ready(c) && |b| == |target| == c.height && id < c.threads
  {
    forall row :: 0 <= row < c.height && Tiles(c.height, c.threads)[id].Has(row) ==> b[row] == target[row]
  }

  // How far a worker has got in its tile.
  ghost predicate Progressed(c: Config, b: Board, target: Board, p: Worker)
    requires Ready(c) && Rect(b, c.height, c.width) && Rect(target, c.height, c.width)
  {
    match p
    case Computing(job, row, col) =>
      && job.id < c.threads
      && 0 <= job.lo <= row <= job.hi < c.height && 0 <= col < c.width
      && (forall r :: job.lo <= r < row ==> b[r] == target[r])
      && (forall k :: 0 <= k < col ==> b[row][k] == target[row][k])
    case Computed(job) => job.id < c.threads && TileDone(c, b, target, job.id)
    case Counting(job) => job.id < c.threads && TileDone(c, b, target, job.id)
    case _ => true
  }

  // The current board is the sequential one, and the finished part of the other is right.
  ghost predicate Cells(c: Config, s: State)
    requires Ready(c) && Shape(c, s) && Queued(c, s) && Owned(c, s)
  {
    && s.boards[s.cur] == Generations(c.board, c.width, Completed(s))
    && Rect(Generations(c.board, c.width, s.gen), c.height, c.width)
    && (forall id :: id in s.counted ==> TileDone(c, s.boards[Other(s)], Target(c, s), id))
    && (forall w :: 0 <= w < c.threads ==> Progressed(c, s.boards[Other(s)], Target(c, s), s.workers[w]))
    && (s.main.Resetting? || s.main.Swapping? ==> s.boards[Other(s)] == Target(c, s))
  }

  ghost predicate Locked(c: Config, s: State)
    requires Shape(c, s)
  {
    && (s.mutex.Some? ==> s.mutex.value < c.threads && HasLock(s.workers[s.mutex.value]))
    && (forall w :: 0 <= w < c.threads && HasLock(s.workers[w]) ==> s.mutex == Some(w))
  }

  // Jobs of complete generations: `base` counts them, one tile record for each.
  function BaseGen(s: State): nat {
    if s.main.Swapping? || s.main.Syncing? then s.gen + 1 else s.gen
  }

  function Unrecorded(s: State): nat {
    if s.mutex.Some? && s.mutex.value < |s.workers| && s.workers[s.mutex.value].Recording? then 1 else 0
  }

  ghost predicate OfGeneration(c: Config, gen: nat, k: nat) {
    gen * c.threads <= k < (gen + 1) * c.threads
  }

  ghost predicate Recorded(c: Config, s: State)
    requires Shape(c, s)
  {
    && s.base == BaseGen(s) * c.threads
    && |s.tiles| + Unrecorded(s) == s.base + s.counter
    && (forall k :: 0 <= k < |s.tiles| ==> OfGeneration(c, s.tiles[k].gen, k))
    && (forall w :: 0 <= w < c.threads && s.workers[w].Recording? ==>
          OfGeneration(c, s.workers[w].job.gen, |s.tiles|))
  }

  // Workers that have taken a null job.
  function Gone(ws: seq<Worker>): nat {
    if ws == [] then 0
    else Gone(ws[..|ws| - 1]) +
         if ws[|ws| - 1] == Popped(Stop) || ws[|ws| - 1].Leaving? || ws[|ws| - 1].Exited? then 1 else 0
  }

  function StopsPushed(c: Config, m: Main): nat {
    if m.Stopping? then m.i else if m.Joining? || m.Done? then c.threads + 1 else 0
  }

  ghost predicate Stopped(c: Config, s: State)
    requires Shape(c, s)
  {
    && (s.finished ==> |s.queue| + Gone(s.workers) == StopsPushed(c, s.main))
    && (s.main.Joining? ==> forall w :: 0 <= w < s.main.i ==> s.workers[w].Exited?)
    && (s.main.Done? ==> forall w :: 0 <= w < c.threads ==> s.workers[w].Exited?)
  }

  ghost predicate Inv(c: Config, s: State) {
    Ready(c) && Shape(c, s) && Queued(c, s) && Owned(c, s) && Cells(c, s) && Locked(c, s) && Recorded(c, s)
    && Stopped(c, s)
  }

  // ---- Gone -------------------------------------------------------------------------------------

  predicate IsGone(p: Worker) {
    p == Popped(Stop) || p.Leaving? || p.Exited?
  }

  lemma {:induction false} GoneUpdate(ws: seq<Worker>, w: nat, p: Worker)
    requires w < |ws|
    ensures Gone(ws[w := p]) == Gone(ws) + (if IsGone(p) then 1 else 0) - (if IsGone(ws[w]) then 1 else 0)
  {
    var last := |ws| - 1;
    if w == last {
      assert ws[w := p][..last] == ws[..last];
    } else {
      assert ws[w := p][..last] == ws[..last][w := p];
      GoneUpdate(ws[..last], w, p);
    }
  }

  lemma {:induction false} GoneAtMost(ws: seq<Worker>)
    ensures Gone(ws) <= |ws|
    ensures (forall w :: 0 <= w < |ws| ==> !IsGone(ws[w])) ==> Gone(ws) == 0
    ensures (forall w :: 0 <= w < |ws| ==> IsGone(ws[w])) ==> Gone(ws) == |ws|
  {
    if ws != [] {
      GoneAtMost(ws[..|ws| - 1]);
    }
  }

  // ---- the start ----------------------------------------------------------------------------------

  lemma StartInv(c: Config)
    requires c.Ok()
    ensures Ready(c) && Inv(c, Start(c))
  {
    TilesCover(c.height, c.threads);
    var s := Start(c);
    GoneAtMost(s.workers);
    assert Shape(c, s) && Queued(c, s) && Owned(c, s);
  }
}
