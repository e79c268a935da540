/** The game as a step machine: the main thread, the worker threads, the job queue and the two
    boards.  One step is one cell written, one queue operation, or one statement on the shared
    variables; any thread may take the next step. */
module GameMachine {
  import opened Common
  import opened Life
  import opened Tiling

  datatype Config = Config(height: nat, width: nat, threads: nat, generations: nat, board: Board) {
    ghost predicate Ok() {
      1 <= threads <= height && 1 <= width && Rect(board, height, width)
    }
  }

  // The game for any number of threads asked for; _init_game takes no more than there are rows.
  function Setup(height: nat, width: nat, asked: nat, generations: nat, board: Board): (c: Config)
    requires 1 <= height && 1 <= width && 1 <= asked && Rect(board, height, width)
    ensures c.Ok() && 0 < c.threads == |Tiles(c.height, c.threads)|
  {
    TilesCover(height, Clamp(height, asked));
    Config(height, width, Clamp(height, asked), generations, board)
  }

  // A job names its two boards by index; `id` and `gen` are history.
  datatype Job = Job(src: nat, dst: nat, lo: int, hi: int, id: nat, gen: nat)

  datatype Item = Stop | Work(job: Job)   // a null job is Stop

  datatype Worker =
    | Popping                          // at pop
    | Popped(item: Item)               // before the test of `finished`
    | Computing(job: Job, row: int, col: int)
    | Computed(job: Job)               // before locking global_lock
    | Counting(job: Job)               // holds the lock, before ++finished_thread_counter
    | Recording(job: Job)              // counted, before the push to the tile list
    | Releasing                        // before unlocking
    | Leaving                          // out of the loop, before the last lock and unlock
    | Exited
    | Crashed                          // a null job used as a job

  datatype Main =
    | Pushing(i: nat)                  // _step: about to push the i-th job
    | Spinning                         // waiting for the counter
    | Resetting                        // about to reset the counter
    | Swapping                         // about to swap the boards
    | Syncing                          // _step returned; run locks and unlocks global_lock
    | Finishing                        // about to set `finished`
    | Stopping(i: nat)                 // about to push the i-th null job
    | Joining(i: nat)
    | Done

  datatype Record = Record(thread: nat, gen: nat)

  datatype State = State(
    main: Main,
    gen: nat,
    cur: nat,
    boards: seq<Board>,
    queue: seq<Item>,
    counter: nat,
    finished: bool,
    mutex: Option<nat>,
    workers: seq<Worker>,
    tiles: seq<Record>,
    popped: nat,              // history: jobs taken from the queue in this generation
    counted: set<nat>,        // history: ids counted in this generation
    owner: map<nat, nat>,     // history: which worker took which id
    base: nat                 // history: jobs counted in earlier generations
  )

  function JobAt(c: Config, cur: nat, gen: nat, id: nat): Job
    requires 0 < c.threads && id < |Tiles(c.height, c.threads)|
  {
    var t := Tiles(c.height, c.threads)[id];
    Job(cur, 1 - (if cur == 0 then 0 else 1), t.lo, t.hi, id, gen)
  }

  function StartOf(c: Config): Main {
    if c.generations == 0 then Finishing else Pushing(0)
  }

  function Start(c: Config): State {
    State(StartOf(c), 0, 0, [c.board, c.board], [], 0, false, None,
          seq(c.threads, _ => Popping), [], 0, {}, map[], 0)
  }

  // ---- the main thread ------------------------------------------------------------------------

  predicate MainEnabled(s: State) {
    match s.main
    case Syncing => s.mutex.None?
    case Joining(i) => i < |s.workers| ==> s.workers[i].Exited?
    case Done => false
    case _ => true
  }

  function MainStep(c: Config, s: State): State
    requires 0 < c.threads == |Tiles(c.height, c.threads)|
  {
    match s.main
    case Pushing(i) =>
      if i < c.threads then
        s.(queue := s.queue + [Work(JobAt(c, s.cur, s.gen, i))],
           main := if i + 1 == c.threads then Spinning else Pushing(i + 1))
      else s
    case Spinning => if s.counter != c.threads then s else s.(main := Resetting)
    case Resetting =>
      s.(counter := 0, main := Swapping, popped := 0, counted := {}, owner := map[], base := s.base + c.threads)
    case Swapping => s.(cur := if s.cur == 0 then 1 else 0, main := Syncing)
    case Syncing =>
      s.(gen := s.gen + 1, main := if s.gen + 1 == c.generations then Finishing else Pushing(0))
    case Finishing => s.(finished := true, main := Stopping(0))
    case Stopping(i) =>
      s.(queue := s.queue + [Stop], main := if i == c.threads then Joining(0) else Stopping(i + 1))
    case Joining(i) => s.(main := if i + 1 == c.threads then Done else Joining(i + 1))
    case Done => s
  }

  // ---- a worker thread ------------------------------------------------------------------------

  predicate WorkerEnabled(s: State, w: nat) {
    && w < |s.workers|
    && match s.workers[w]
       case Popping => s.queue != []
       case Computed(_) => s.mutex.None?
       case Leaving => s.mutex.None?
       case Exited => false
       case Crashed => false
       case _ => true
  }

  function Write(b: Board, i: int, j: int, v: bool): Board {
    if 0 <= i < |b| && 0 <= j < |b[i]| then b[i := b[i][j := v]] else b
  }

  function WorkerStep(c: Config, s: State, w: nat): State
    requires w < |s.workers|
  {
    match s.workers[w]
    case Popping =>
      if s.queue == [] then s else
      var item := s.queue[0];
      s.(queue := s.queue[1..], workers := s.workers[w := Popped(item)],
         popped := if item.Work? then s.popped + 1 else s.popped,
         owner := if item.Work? then s.owner[item.job.id := w] else s.owner)
    case Popped(item) =>
      s.(workers := s.workers[w :=
        if s.finished then Leaving
        else if item.Stop? then Crashed
        else if item.job.hi < item.job.lo then Computed(item.job)
        else Computing(item.job, item.job.lo, 0)])
    case Computing(job, row, col) =>
      if job.src >= |s.boards| || job.dst >= |s.boards| then s else
      var next := if col + 1 < c.width then Computing(job, row, col + 1)
                  else if row + 1 <= job.hi then Computing(job, row + 1, 0)
                  else Computed(job);
      s.(boards := s.boards[job.dst := Write(s.boards[job.dst], row, col, Survives(s.boards[job.src], row, col))],
         workers := s.workers[w := next])
    case Computed(job) => s.(mutex := Some(w), workers := s.workers[w := Counting(job)])
    case Counting(job) =>
      s.(counter := s.counter + 1, counted := s.counted + {job.id}, workers := s.workers[w := Recording(job)])
    case Recording(job) =>
      s.(tiles := s.tiles + [Record(w, job.gen)], workers := s.workers[w := Releasing])
    case Releasing => s.(mutex := None, workers := s.workers[w := Popping])
    case Leaving => s.(workers := s.workers[w := Exited])
    case Exited => s
    case Crashed => s
  }

  // ---- runs -------------------------------------------------------------------------------------

  datatype Thread = MainThread | WorkerThread(w: nat)

  predicate Enabled(s: State, t: Thread) {
    match t
    case MainThread => MainEnabled(s)
    case WorkerThread(w) => WorkerEnabled(s, w)
  }

  function Step(c: Config, s: State, t: Thread): State
    requires 0 < c.threads == |Tiles(c.height, c.threads)|
    requires Enabled(s, t)
  {
    match t
    case MainThread => MainStep(c, s)
    case WorkerThread(w) => WorkerStep(c, s, w)
  }

  // `states` is the history of the machine under the schedule `ts`.
  ghost predicate Run(c: Config, ts: seq<Thread>, states: seq<State>)
    requires 0 < c.threads == |Tiles(c.height, c.threads)|
  {
    && |states| == |ts| + 1 && states[0] == Start(c)
    && forall k :: 0 <= k < |ts| ==> Goes(c, states[k], ts[k], states[k + 1])
  }

  ghost predicate Goes(c: Config, s: State, t: Thread, s': State)
    requires 0 < c.threads == |Tiles(c.height, c.threads)|
  {
    Enabled(s, t) && s' == Step(c, s, t)
  }
}
