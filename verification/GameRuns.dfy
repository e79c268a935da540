/** What the game computes, and that it is never stuck, for every schedule of the threads. */
module GameRuns {
  import opened Life
  import opened Tiling
  import opened GameMachine
  import opened GameInvariant
  import opened GameMainSteps
  import opened GameWorkerSteps

  lemma StepKeeps(c: Config, s: State, t: Thread)
    requires Inv(c, s) && Enabled(s, t)
    ensures Inv(c, Step(c, s, t))
  {
    match t
    case MainThread => MainKeeps(c, s);
    case WorkerThread(w) => WorkerKeeps(c, s, w);
  }

  lemma GoesKeeps(c: Config, s: State, t: Thread, s': State)
    requires Inv(c, s) && Goes(c, s, t, s')
    ensures Inv(c, s')
  {
    StepKeeps(c, s, t);
  }

  lemma {:induction false} AllKeep(c: Config, ts: seq<Thread>, states: seq<State>, k: nat)
    requires Ready(c) && Run(c, ts, states) && k < |states|
    ensures forall j :: 0 <= j <= k ==> Inv(c, states[j])
  {
    if k == 0 {
      StartInv(c);
    } else {
      AllKeep(c, ts, states, k - 1);
      assert Goes(c, states[k - 1], ts[k - 1], states[k - 1 + 1]);
      GoesKeeps(c, states[k - 1], ts[k - 1], states[k]);
    }
  }

  lemma RunKeeps(c: Config, ts: seq<Thread>, states: seq<State>, k: nat)
    requires Ready(c) && Run(c, ts, states) && k < |states|
    ensures Inv(c, states[k])
  {
    AllKeep(c, ts, states, k);
  }

  // ---- safety -----------------------------------------------------------------------------------

  /** When _step returns for the (gen+1)-st time, the current board is the sequential board
      after gen+1 generations, whatever the schedule. */
  lemma StepRefinesLife(c: Config, ts: seq<Thread>, states: seq<State>, k: nat)
    requires Ready(c) && Run(c, ts, states) && k < |states|
    ensures states[k].cur < |states[k].boards|
    ensures states[k].main.Syncing? ==>
              states[k].boards[states[k].cur] == Generations(c.board, c.width, states[k].gen + 1)
    ensures !states[k].main.Syncing? ==>
              states[k].boards[states[k].cur] == Generations(c.board, c.width, states[k].gen)
  {
    RunKeeps(c, ts, states, k);
  }

  /** The same for any number of threads asked for, board and number of generations. */
  lemma GameRefinesLife(height: nat, width: nat, asked: nat, generations: nat, board: Board,
                        ts: seq<Thread>, states: seq<State>, k: nat)
    requires 1 <= height && 1 <= width && 1 <= asked && Rect(board, height, width)
    requires Run(Setup(height, width, asked, generations, board), ts, states) && k < |states|
    ensures var s := states[k];
            s.cur < |s.boards|
            && s.boards[s.cur] == Generations(board, width, if s.main.Syncing? then s.gen + 1 else s.gen)
  {
    StepRefinesLife(Setup(height, width, asked, generations, board), ts, states, k);
  }

  lemma BoardOfRun(c: Config, s: State)
    requires Inv(c, s)
    ensures s.cur < |s.boards| && Rect(s.boards[s.cur], c.height, c.width)
    ensures s.boards[s.cur] == Generations(c.board, c.width, if s.main.Syncing? then s.gen + 1 else s.gen)
    ensures s.main.Done? ==> s.gen == c.generations
  {
  }

  // The boards of two numbers of generations.
  lemma Later(board: Board, h: nat, w: nat, b: Board, g: nat, b': Board, g': nat, i: nat, j: nat)
    requires Rect(board, h, w) && i < h && j < w && b == Generations(board, w, g) && b' == Generations(board, w, g')
    ensures Rect(b, h, w) && Rect(b', h, w) && (g == 0 ==> b == board)
    ensures g' == g + 1 ==>
              (b'[i][j] <==> |Around(b, i, j)| == 3 || (b[i][j] && |Around(b, i, j)| == 2))
  {
    GenerationIsConway(board, h, w, g, i, j);
    GenerationsRect(board, h, w, g');
  }

  /** Conway's rule in every run: a board that is current for one generation more has a live cell where
      the earlier board has one with two or three live neighbours, or a dead one with three. */
  lemma BoardsObeyConway(height: nat, width: nat, asked: nat, generations: nat, board: Board,
                         ts: seq<Thread>, states: seq<State>, k: nat, l: nat, i: nat, j: nat)
      returns (b: Board, g: nat, b': Board, g': nat)
    requires 1 <= height && 1 <= width && 1 <= asked && Rect(board, height, width)
    requires Run(Setup(height, width, asked, generations, board), ts, states) && k < |states| && l < |states|
    requires i < height && j < width
    ensures states[k].cur < |states[k].boards| && b == states[k].boards[states[k].cur]
    ensures states[l].cur < |states[l].boards| && b' == states[l].boards[states[l].cur]
    ensures g == if states[k].main.Syncing? then states[k].gen + 1 else states[k].gen
    ensures g' == if states[l].main.Syncing? then states[l].gen + 1 else states[l].gen
    ensures Rect(b, height, width) && Rect(b', height, width)
    ensures (g == 0 ==> b == board) && (states[k].main.Done? ==> g == generations)
    ensures g' == g + 1 ==>
              (b'[i][j] <==> |Around(b, i, j)| == 3 || (b[i][j] && |Around(b, i, j)| == 2))
  {
    var c := Setup(height, width, asked, generations, board);
    RunKeeps(c, ts, states, k);
    BoardOfRun(c, states[k]);
    RunKeeps(c, ts, states, l);
    BoardOfRun(c, states[l]);
    b, b' := states[k].boards[states[k].cur], states[l].boards[states[l].cur];
    g := if states[k].main.Syncing? then states[k].gen + 1 else states[k].gen;
    g' := if states[l].main.Syncing? then states[l].gen + 1 else states[l].gen;
    Later(board, height, width, b, g, b', g', i, j);
  }

  /** After the joins: the final board, every worker gone, one null job left over, and exactly
      one tile record per thread and generation, grouped by generation. */
  ghost predicate Finished(c: Config, s: State) {
    && s.main.Done?
    && s.cur < |s.boards| && s.boards[s.cur] == Generations(c.board, c.width, c.generations)
    && |s.workers| == c.threads && (forall w :: 0 <= w < c.threads ==> s.workers[w].Exited?)
    && s.queue == [Stop]
    && |s.tiles| == c.generations * c.threads
    && (forall i :: 0 <= i < |s.tiles| ==> OfGeneration(c, s.tiles[i].gen, i))
  }

  lemma DoneIsFinished(c: Config, s: State)
    requires Inv(c, s) && s.main.Done?
    ensures Finished(c, s)
  {
    GoneAtMost(s.workers);
    assert |s.queue| == 1 && s.queue[0] == Stop;
    assert s.popped == 0;
    NoneCounted(c, s);
  }

  lemma FinalState(c: Config, ts: seq<Thread>, states: seq<State>, k: nat)
    requires Ready(c) && Run(c, ts, states) && k < |states| && states[k].main.Done?
    ensures Finished(c, states[k])
    ensures states[k].queue == [Stop] && |states[k].tiles| == c.generations * c.threads
    ensures |states[k].workers| == c.threads && forall w :: 0 <= w < c.threads ==> states[k].workers[w].Exited?
  {
    RunKeeps(c, ts, states, k);
    DoneIsFinished(c, states[k]);
  }

  lemma NoneCounted(c: Config, s: State)
    requires Inv(c, s) && s.popped == 0
    ensures s.counter == 0
  {
    forall id ensures id !in s.counted {
      assert id in s.counted ==> id < s.popped;
    }
    assert s.counted == {};
  }

  /** Null jobs reach the queue only after `finished`, no worker ever treats one as a job, and
      no real job is left in the queue or in a worker's hands when `finished` is set. */
  lemma NullJobsOnlyAtTheEnd(c: Config, ts: seq<Thread>, states: seq<State>, k: nat)
    requires Ready(c) && Run(c, ts, states) && k < |states|
    ensures Stop in states[k].queue ==> states[k].finished
    ensures forall w :: 0 <= w < |states[k].workers| ==> !states[k].workers[w].Crashed?
    ensures states[k].finished ==>
              && (forall i :: 0 <= i < |states[k].queue| ==> states[k].queue[i] == Stop)
              && (forall w :: 0 <= w < |states[k].workers| ==> !Carries(states[k].workers[w]))
  {
    var s := states[k];
    RunKeeps(c, ts, states, k);
    forall w | 0 <= w < |s.workers|
      ensures !s.workers[w].Crashed? && (s.finished ==> !Carries(s.workers[w]))
    {
      assert CarriesOwn(c, s, w);
    }
    forall i | 0 <= i < |s.queue| ensures !s.finished ==> s.queue[i] != Stop {
      if !s.finished {
        var id := s.popped + i;
        assert s.queue[i] == Work(JobAt(c, s.cur, s.gen, id));
      }
    }
  }

  /** No data race on the boards: a worker's step never writes the board that others read, and
      writes the other board only in a row of its own tile. */
  lemma WritesStayInTheTile(c: Config, ts: seq<Thread>, states: seq<State>, k: nat, w: nat, row: nat)
    requires Ready(c) && Run(c, ts, states) && k < |states|
    requires WorkerEnabled(states[k], w) && row < c.height
    ensures var s, s' := states[k], WorkerStep(c, states[k], w);
            && s.cur < 2 && |s.boards| == |s'.boards| == 2 && s'.boards[s.cur] == s.boards[s.cur]
            && |s.boards[Other(s)]| == |s'.boards[Other(s)]| == c.height
            && (s'.boards[Other(s)][row] != s.boards[Other(s)][row] ==>
                  s.workers[w].Computing? && s.workers[w].job.id < c.threads
                  && Tiles(c.height, c.threads)[s.workers[w].job.id].Has(row))
  {
    RunKeeps(c, ts, states, k);
    var s := states[k];
    assert CarriesOwn(c, s, w);
    assert Progressed(c, s.boards[Other(s)], Target(c, s), s.workers[w]);
    WorkerKeeps(c, s, w);
  }

  /** A tile record is added at the end, by the worker that has just counted a job, under its own number
      and the number of the generation. */
  lemma RecordsNameTheirWorker(c: Config, ts: seq<Thread>, states: seq<State>, k: nat)
    requires Ready(c) && Run(c, ts, states) && k < |ts|
    ensures states[k + 1].tiles == states[k].tiles ||
            exists w, job :: 0 <= w < |states[k].workers| && states[k].workers[w] == Recording(job)
                             && ts[k] == WorkerThread(w)
                             && states[k + 1].tiles == states[k].tiles + [Record(w, job.gen)]
                             && OfGeneration(c, job.gen, |states[k].tiles|)
  {
    RunKeeps(c, ts, states, k);
    assert Goes(c, states[k], ts[k], states[k + 1]);
  }

  // Two workers at work have different tiles.
  lemma TilesInUseDiffer(c: Config, ts: seq<Thread>, states: seq<State>, k: nat, v: nat, w: nat)
    requires Ready(c) && Run(c, ts, states) && k < |states|
    requires v < |states[k].workers| && w < |states[k].workers| && v != w
    requires Carries(states[k].workers[v]) && Carries(states[k].workers[w])
    ensures JobOf(states[k].workers[v]).id != JobOf(states[k].workers[w]).id
  {
    RunKeeps(c, ts, states, k);
    assert CarriesOwn(c, states[k], v) && CarriesOwn(c, states[k], w);
  }

  // ---- progress ---------------------------------------------------------------------------------

  // A step that is not the main thread finding the counter short of its goal.
  predicate Productive(c: Config, s: State, t: Thread) {
    Enabled(s, t) && !(t.MainThread? && s.main.Spinning? && s.counter != c.threads)
  }

  // With the lock taken, its holder can go on; with the lock free, any worker that carries a job can.
  lemma CarrierCanGo(c: Config, s: State, w: nat) returns (t: Thread)
    requires Inv(c, s) && w < c.threads && Carries(s.workers[w])
    ensures Productive(c, s, t)
  {
    t := if s.mutex.Some? then WorkerThread(s.mutex.value) else WorkerThread(w);
  }

  /** Until the main thread is done, some thread can take a productive step. */
  lemma NeverStuck(c: Config, s: State) returns (t: Thread)
    requires Inv(c, s) && !s.main.Done?
    ensures Productive(c, s, t)
  {
    if s.main.Spinning? && s.counter != c.threads {
      t := SpinNotAlone(c, s);
    } else if s.main.Syncing? && s.mutex.Some? {
      t := WorkerThread(s.mutex.value);
    } else if s.main.Joining? && !s.workers[s.main.i].Exited? {
      t := JoinNotAlone(c, s);
    } else {
      t := MainThread;
    }
  }

  lemma SpinNotAlone(c: Config, s: State) returns (t: Thread)
    requires Inv(c, s) && s.main.Spinning? && s.counter != c.threads
    ensures Productive(c, s, t)
  {
    if s.mutex.Some? {
      t := WorkerThread(s.mutex.value);
    } else if s.queue != [] {
      assert CarriesOwn(c, s, 0);
      t := WorkerThread(0);
    } else {
      BelowAtMost(s.counted, c.threads);
      var id := MissingId(s.counted, c.threads);
      t := CarrierCanGo(c, s, s.owner[id]);
    }
  }

  lemma {:induction false} MissingId(ids: set<nat>, n: nat) returns (id: nat)
    requires |ids| < n
    ensures id < n && id !in ids
  {
    if n - 1 !in ids {
      id := n - 1;
    } else {
      id := MissingId(ids - {n - 1}, n - 1);
    }
  }

  lemma JoinNotAlone(c: Config, s: State) returns (t: Thread)
    requires Inv(c, s) && s.main.Joining? && !s.workers[s.main.i].Exited?
    ensures Productive(c, s, t)
  {
    GoneAtMost(s.workers);
    assert s.queue != [];
    assert CarriesOwn(c, s, s.main.i);
    if s.mutex.Some? {
      t := WorkerThread(s.mutex.value);
    } else {
      t := WorkerThread(s.main.i);
    }
  }

  // ---- termination ------------------------------------------------------------------------------

  function Times(k: nat, x: nat): nat {
    if k == 0 then 0 else x + Times(k - 1, x)
  }

  lemma {:induction false} TimesMonotone(k: nat, l: nat, x: nat)
    requires k <= l
    ensures Times(k, x) <= Times(l, x)
  {
    if k < l {
      TimesMonotone(k, l - 1, x);
    }
  }

  function Rows(job: Job): nat {
    if job.lo <= job.hi then job.hi - job.lo + 1 else 0
  }

  // What a worker still has to do with the item it holds.
  function WorkLeft(c: Config, p: Worker): nat {
    match p
    case Popping => 0
    case Popped(Stop) => 2
    case Popped(Work(job)) => Times(Rows(job), c.width) + 5
    case Computing(job, row, col) =>
      (if row <= job.hi then Times(job.hi - row, c.width) else 0) + (if col < c.width then c.width - col else 0) + 4
    case Computed(_) => 4
    case Counting(_) => 3
    case Recording(_) => 2
    case Releasing => 1
    case Leaving => 1
    case Exited => 0
    case Crashed => 0
  }

  function ItemWork(c: Config, item: Item): nat {
    match item
    case Stop => 3
    case Work(job) => Times(Rows(job), c.width) + 6
  }

  // An upper bound of what a job can be worth, and what one generation costs the main thread.
  function JobBound(c: Config): nat {
    Times(c.height, c.width) + 6
  }

  function RoundCost(c: Config): nat {
    Times(c.threads, JobBound(c) + 1) + 4
  }

  function Rounds(c: Config, gen: nat): nat {
    if gen < c.generations then Times(c.generations - gen - 1, RoundCost(c)) else 0
  }

  function EndCost(c: Config): nat { 4 * (c.threads + 1) + c.threads + 1 }

  function MainLeft(c: Config, s: State): nat {
    match s.main
    case Pushing(i) =>
      (if i < c.threads then Times(c.threads - i, JobBound(c) + 1) else 0) + 4 + Rounds(c, s.gen) + EndCost(c)
    case Spinning => 4 + Rounds(c, s.gen) + EndCost(c)
    case Resetting => 3 + Rounds(c, s.gen) + EndCost(c)
    case Swapping => 2 + Rounds(c, s.gen) + EndCost(c)
    case Syncing => 1 + Rounds(c, s.gen) + EndCost(c)
    case Finishing => EndCost(c)
    case Stopping(i) => (if i <= c.threads then 4 * (c.threads + 1 - i) else 0) + c.threads
    case Joining(i) => if i < c.threads then c.threads - i else 0
    case Done => 0
  }

  function SumWork(c: Config, ws: seq<Worker>): nat {
    if ws == [] then 0 else SumWork(c, ws[..|ws| - 1]) + WorkLeft(c, ws[|ws| - 1])
  }

  function SumItems(c: Config, q: seq<Item>): nat {
    if q == [] then 0 else ItemWork(c, q[0]) + SumItems(c, q[1..])
  }

  function Measure(c: Config, s: State): nat {
    MainLeft(c, s) + SumItems(c, s.queue) + SumWork(c, s.workers)
  }

  lemma {:induction false} SumWorkUpdate(c: Config, ws: seq<Worker>, w: nat, p: Worker)
    requires w < |ws|
    ensures SumWork(c, ws[w := p]) == SumWork(c, ws) - WorkLeft(c, ws[w]) + WorkLeft(c, p)
  {
    var last := |ws| - 1;
    if w == last {
      assert ws[w := p][..last] == ws[..last];
    } else {
      assert ws[w := p][..last] == ws[..last][w := p];
      SumWorkUpdate(c, ws[..last], w, p);
    }
  }

  lemma {:induction false} SumItemsAppend(c: Config, q: seq<Item>, item: Item)
    ensures SumItems(c, q + [item]) == SumItems(c, q) + ItemWork(c, item)
  {
    if q == [] {
      assert q + [item] == [item];
    } else {
      assert (q + [item])[1..] == q[1..] + [item];
      SumItemsAppend(c, q[1..], item);
    }
  }

  lemma WorkShrinks(c: Config, s: State, w: nat)
    requires w < |s.workers| && WorkerEnabled(s, w)
    requires s.workers[w].Computing? ==>
               var p := s.workers[w];
               p.row <= p.job.hi && p.col < c.width && p.job.src < |s.boards| && p.job.dst < |s.boards|
    ensures var s' := WorkerStep(c, s, w);
            && s'.main == s.main && s'.gen == s.gen && s'.workers == s.workers[w := s'.workers[w]]
            && SumItems(c, s'.queue) + WorkLeft(c, s'.workers[w]) < SumItems(c, s.queue) + WorkLeft(c, s.workers[w])
  {
  }

  lemma WorkerDecreases(c: Config, s: State, w: nat)
    requires Inv(c, s) && WorkerEnabled(s, w)
    ensures Measure(c, WorkerStep(c, s, w)) < Measure(c, s)
  {
    assert CarriesOwn(c, s, w);
    assert Progressed(c, s.boards[Other(s)], Target(c, s), s.workers[w]);
    WorkShrinks(c, s, w);
    SumWorkUpdate(c, s.workers, w, WorkerStep(c, s, w).workers[w]);
  }

  lemma PushDecreases(c: Config, s: State)
    requires Ready(c) && s.main.Pushing? && s.main.i < c.threads
    ensures Measure(c, MainStep(c, s)) < Measure(c, s)
  {
    var job := JobAt(c, s.cur, s.gen, s.main.i);
    TileInside(c.height, c.threads, s.main.i);
    TimesMonotone(Rows(job), c.height, c.width);
    SumItemsAppend(c, s.queue, Work(job));
  }

  lemma OtherMainDecreases(c: Config, s: State)
    requires Ready(c) && !s.main.Pushing? && MainEnabled(s)
    requires s.main.Spinning? ==> s.counter == c.threads
    requires s.main.Syncing? ==> s.gen < c.generations
    requires s.main.Stopping? ==> s.main.i <= c.threads
    requires s.main.Joining? ==> s.main.i < c.threads
    ensures Measure(c, MainStep(c, s)) < Measure(c, s)
  {
    if s.main.Stopping? { SumItemsAppend(c, s.queue, Stop); }
  }

  lemma MainDecreases(c: Config, s: State)
    requires Inv(c, s) && Productive(c, s, MainThread)
    ensures Measure(c, MainStep(c, s)) < Measure(c, s)
  {
    if s.main.Pushing? {
      PushDecreases(c, s);
    } else {
      OtherMainDecreases(c, s);
    }
  }

  lemma ProductiveDecreases(c: Config, s: State, t: Thread)
    requires Inv(c, s) && Productive(c, s, t)
    ensures Measure(c, Step(c, s, t)) < Measure(c, s)
  {
    match t
    case MainThread => MainDecreases(c, s);
    case WorkerThread(w) => WorkerDecreases(c, s, w);
  }

  // The productive steps among the first k of a run.
  ghost function ProductiveSteps(c: Config, ts: seq<Thread>, states: seq<State>, k: nat): nat
    requires k <= |ts| && k < |states|
  {
    if k == 0 then 0
    else ProductiveSteps(c, ts, states, k - 1) + if Productive(c, states[k - 1], ts[k - 1]) then 1 else 0
  }

  /** Every schedule makes at most Measure(Start) productive steps; the rest is the main thread
      looking at the counter. */
  lemma {:induction false} BoundedWork(c: Config, ts: seq<Thread>, states: seq<State>, k: nat)
    requires Ready(c) && Run(c, ts, states) && k < |states|
    ensures ProductiveSteps(c, ts, states, k) + Measure(c, states[k]) <= Measure(c, Start(c))
  {
    if 0 < k {
      BoundedWork(c, ts, states, k - 1);
      RunKeeps(c, ts, states, k - 1);
      assert Goes(c, states[k - 1], ts[k - 1], states[k - 1 + 1]);
      if Productive(c, states[k - 1], ts[k - 1]) {
        ProductiveDecreases(c, states[k - 1], ts[k - 1]);
      }
    }
  }

  /** Every reachable state can be continued to the end, by productive steps alone. */
  lemma {:induction false} CanFinish(c: Config, s: State) returns (ts: seq<Thread>, states: seq<State>)
    requires Inv(c, s)
    ensures |states| == |ts| + 1 && states[0] == s && states[|ts|].main.Done?
    ensures forall k :: 0 <= k < |ts| ==> Goes(c, states[k], ts[k], states[k + 1])
    decreases Measure(c, s)
  {
    if s.main.Done? {
      ts, states := [], [s];
    } else {
      var t := NeverStuck(c, s);
      ProductiveDecreases(c, s, t);
      StepKeeps(c, s, t);
      var s' := Step(c, s, t);
      var ts', states' := CanFinish(c, s');
      ts, states := [t] + ts', [s] + states';
      GoesBefore(c, s, t, ts', states');
    }
  }

  lemma GoesBefore(c: Config, s: State, t: Thread, ts: seq<Thread>, states: seq<State>)
    requires 0 < c.threads == |Tiles(c.height, c.threads)| && |states| == |ts| + 1 && Goes(c, s, t, states[0])
    requires forall k :: 0 <= k < |ts| ==> Goes(c, states[k], ts[k], states[k + 1])
    ensures forall k :: 0 <= k < |[t] + ts| ==> Goes(c, ([s] + states)[k], ([t] + ts)[k], ([s] + states)[k + 1])
  {
    forall k | 0 <= k < |[t] + ts| ensures Goes(c, ([s] + states)[k], ([t] + ts)[k], ([s] + states)[k + 1]) {
      if 0 < k { assert Goes(c, states[k - 1], ts[k - 1], states[k - 1 + 1]); }
    }
  }
}
