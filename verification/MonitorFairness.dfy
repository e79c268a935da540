/** The game with its monitor under infinite schedules.  A thread may wake up in the queue for no
    reason at any time, and the mutex goes to whoever is scheduled; if no thread is passed over for
    ever, the game ends. */
module MonitorFairness {
  import opened Common
  import opened Life
  import opened Tiling
  import G = GameMachine
  import I = GameInvariant
  import R = GameRuns
  import Q = PcQueue
  import opened MonitorGame

  // Step n of an infinite schedule; a thread that cannot go leaves the state as it is.
  ghost predicate Moves(c: G.Config, sched: nat -> Move, st: nat -> State, n: nat)
    requires 0 < c.threads == |Tiles(c.height, c.threads)|
  {
    st(n + 1) == if Enabled(c, st(n), sched(n)) then Step(c, st(n), sched(n)) else st(n)
  }

  ghost predicate Trace(c: G.Config, sched: nat -> Move, st: nat -> State)
    requires 0 < c.threads == |Tiles(c.height, c.threads)|
  {
    st(0) == Start(c) && forall n: nat :: Moves(c, sched, st, n)
  }

  // A thread can go on its own account: it does not wait for a notification.
  predicate CanGo(c: G.Config, s: State, t: G.Thread)
    requires 0 < c.threads == |Tiles(c.height, c.threads)|
  {
    && Enabled(c, s, Move(t, 0))
    && match s.queue.threads[Id(c, t)]
       case PushAsleep(_, notified) => notified
       case PopAsleep(notified) => notified
       case _ => true
  }

  ghost predicate CanGoLater(c: G.Config, st: nat -> State, t: G.Thread, n: nat)
    requires 0 < c.threads == |Tiles(c.height, c.threads)|
  {
    exists m: nat :: n <= m && CanGo(c, st(m), t)
  }

  ghost predicate Goes(c: G.Config, sched: nat -> Move, st: nat -> State, t: G.Thread, m: nat)
    requires 0 < c.threads == |Tiles(c.height, c.threads)|
  {
    sched(m).t == t && CanGo(c, st(m), t)
  }

  ghost predicate GoesLater(c: G.Config, sched: nat -> Move, st: nat -> State, t: G.Thread, n: nat)
    requires 0 < c.threads == |Tiles(c.height, c.threads)|
  {
    exists m: nat :: n <= m && Goes(c, sched, st, t, m)
  }

  ghost predicate Served(c: G.Config, sched: nat -> Move, st: nat -> State, t: G.Thread)
    requires 0 < c.threads == |Tiles(c.height, c.threads)|
  {
    (forall n: nat :: CanGoLater(c, st, t, n)) ==> (forall n: nat :: GoesLater(c, sched, st, t, n))
  }

  // Strong fairness: a thread that can go again and again goes again and again.
  ghost predicate Fair(c: G.Config, sched: nat -> Move, st: nat -> State)
    requires 0 < c.threads == |Tiles(c.height, c.threads)|
  {
    forall t: G.Thread :: Served(c, sched, st, t)
  }

  ghost predicate Good(c: G.Config, sched: nat -> Move, st: nat -> State) {
    I.Ready(c) && Trace(c, sched, st) && Fair(c, sched, st)
  }

  lemma {:induction false} InvAt(c: G.Config, sched: nat -> Move, st: nat -> State, n: nat)
    requires I.Ready(c) && Trace(c, sched, st)
    ensures Inv(c, st(n))
  {
    if n == 0 {
      StartInv(c);
    } else {
      InvAt(c, sched, st, n - 1);
      assert Moves(c, sched, st, n - 1);
      if Enabled(c, st(n - 1), sched(n - 1)) {
        StepKeeps(c, st(n - 1), sched(n - 1));
      }
    }
  }

  /** With the monitor in between, too, the board is the sequential one in every state of every
      schedule, fair or not. */
  lemma MonitorRefinesLife(c: G.Config, sched: nat -> Move, st: nat -> State, n: nat)
    requires I.Ready(c) && Trace(c, sched, st)
    ensures var g := st(n).game;
            g.cur < |g.boards|
            && g.boards[g.cur] == Generations(c.board, c.width, if g.main.Syncing? then g.gen + 1 else g.gen)
  {
    InvAt(c, sched, st, n);
  }

  /** And it obeys Conway's rule. */
  lemma MonitorObeysConway(c: G.Config, sched: nat -> Move, st: nat -> State, n: nat, m: nat, i: nat, j: nat)
      returns (b: Board, k: nat, b': Board, k': nat)
    requires I.Ready(c) && Trace(c, sched, st) && i < c.height && j < c.width
    ensures st(n).game.cur < |st(n).game.boards| && b == st(n).game.boards[st(n).game.cur]
    ensures st(m).game.cur < |st(m).game.boards| && b' == st(m).game.boards[st(m).game.cur]
    ensures k == if st(n).game.main.Syncing? then st(n).game.gen + 1 else st(n).game.gen
    ensures k' == if st(m).game.main.Syncing? then st(m).game.gen + 1 else st(m).game.gen
    ensures Rect(b, c.height, c.width) && Rect(b', c.height, c.width)
    ensures (k == 0 ==> b == c.board) && (st(n).game.main.Done? ==> k == c.generations)
    ensures k' == k + 1 ==>
              (b'[i][j] <==> |Around(b, i, j)| == 3 || (b[i][j] && |Around(b, i, j)| == 2))
  {
    var g, g' := st(n).game, st(m).game;
    InvAt(c, sched, st, n);
    R.BoardOfRun(c, g);
    InvAt(c, sched, st, m);
    R.BoardOfRun(c, g');
    b, b' := g.boards[g.cur], g'.boards[g'.cur];
    k := if g.main.Syncing? then g.gen + 1 else g.gen;
    k' := if g'.main.Syncing? then g'.gen + 1 else g'.gen;
    R.Later(c.board, c.height, c.width, b, k, b', k', i, j);
  }

  // ---- what one move does to where threads are in the monitor ----------------------------------

  function PcOf(c: G.Config, s: State, t: G.Thread): Q.Pc<G.Item> {
    if Id(c, t) < |s.queue.threads| then s.queue.threads[Id(c, t)] else Q.Idle
  }

  predicate IsThread(c: G.Config, t: G.Thread) {
    t.WorkerThread? ==> t.w < c.threads
  }

  // A move of another thread at most notifies a sleeping one.
  lemma OthersPc(c: G.Config, s: State, m: Move, t: G.Thread)
    requires Inv(c, s) && Enabled(c, s, m) && IsThread(c, t) && m.t != t
    ensures var p, p' := PcOf(c, s, t), PcOf(c, Step(c, s, m), t);
            p' == p || (p.PopAsleep? && p' == Q.PopAsleep(true))
  {
    assert Id(c, t) != Id(c, m.t);
    if !InGame(c, s, m.t) {
      Q.OthersStay(s.queue, ActionOf(c, s, m), Id(c, t));
    }
  }

  // Moves left before the release of the mutex.
  function HolderRank(p: Q.Pc<G.Item>): nat {
    match p
    case PushTest(_) => 3
    case PopTest => 3
    case PushIn(_) => 2
    case PopIn => 2
    case PushOut => 1
    case PopOut(_) => 1
    case _ => 0
  }

  // A move of the holder releases the mutex or brings the release nearer.
  lemma HolderMoves(c: G.Config, s: State, m: Move)
    requires Inv(c, s) && Enabled(c, s, m) && s.queue.mutex == Some(Id(c, m.t))
    ensures var s' := Step(c, s, m);
            s'.queue.mutex.None? || HolderRank(PcOf(c, s', m.t)) < HolderRank(PcOf(c, s, m.t))
  {
  }

  // The mutex passes from one thread to another only by being free in between.
  lemma NoHandover(c: G.Config, s: State, m: Move, h: nat)
    requires Inv(c, s) && Enabled(c, s, m) && s.queue.mutex == Some(h)
    ensures Step(c, s, m).queue.mutex in {None, Some(h)}
  {
  }

  // One step of the trace, for a thread that does not move.
  lemma StaysPut(c: G.Config, sched: nat -> Move, st: nat -> State, n: nat, t: G.Thread)
    requires Good(c, sched, st) && IsThread(c, t) && sched(n).t != t
    ensures var p, p' := PcOf(c, st(n), t), PcOf(c, st(n + 1), t); p' == p || (p.PopAsleep? && p' == Q.PopAsleep(true))
  {
    InvAt(c, sched, st, n);
    assert Moves(c, sched, st, n);
    if Enabled(c, st(n), sched(n)) {
      OthersPc(c, st(n), sched(n), t);
    }
  }

  // ---- the mutex is free again and again ---------------------------------------------------------

  ghost predicate HeldFrom(st: nat -> State, n: nat, h: nat) {
    forall m: nat :: n <= m ==> st(m).queue.mutex == Some(h)
  }

  lemma HolderNear(c: G.Config, sched: nat -> Move, st: nat -> State, n: nat, h: nat)
    requires Good(c, sched, st) && HeldFrom(st, n, h)
    ensures h <= c.threads && IsThread(c, ThreadOf(c, h)) && Id(c, ThreadOf(c, h)) == h
    ensures CanGo(c, st(n), ThreadOf(c, h))
    ensures HolderRank(PcOf(c, st(n + 1), ThreadOf(c, h))) <= HolderRank(PcOf(c, st(n), ThreadOf(c, h)))
    ensures Goes(c, sched, st, ThreadOf(c, h), n) ==>
              HolderRank(PcOf(c, st(n + 1), ThreadOf(c, h))) < HolderRank(PcOf(c, st(n), ThreadOf(c, h)))
  {
    var t := ThreadOf(c, h);
    InvAt(c, sched, st, n);
    assert st(n).queue.mutex == Some(h);
    assert st(n + 1).queue.mutex == Some(h);
    assert Moves(c, sched, st, n);
    if sched(n).t != t {
      StaysPut(c, sched, st, n, t);
    } else {
      HolderMoves(c, st(n), sched(n));
    }
  }

  lemma {:induction false} HolderNotFarther(c: G.Config, sched: nat -> Move, st: nat -> State, n: nat, m: nat, h: nat)
    requires Good(c, sched, st) && HeldFrom(st, n, h) && n <= m
    ensures HolderRank(PcOf(c, st(m), ThreadOf(c, h))) <= HolderRank(PcOf(c, st(n), ThreadOf(c, h)))
    decreases m - n
  {
    if n < m {
      HolderNear(c, sched, st, n, h);
      HolderNotFarther(c, sched, st, n + 1, m, h);
    }
  }

  // A holder moves on towards the release.
  lemma HolderAdvances(c: G.Config, sched: nat -> Move, st: nat -> State, n: nat, h: nat) returns (m: nat)
    requires Good(c, sched, st) && HeldFrom(st, n, h)
    ensures n < m && HolderRank(PcOf(c, st(m), ThreadOf(c, h))) < HolderRank(PcOf(c, st(n), ThreadOf(c, h)))
  {
    var t := ThreadOf(c, h);
    forall k: nat ensures CanGoLater(c, st, t, k) {
      var l := if n < k then k else n;
      HolderNear(c, sched, st, l, h);
      assert k <= l && CanGo(c, st(l), t);
    }
    assert Served(c, sched, st, t);
    assert GoesLater(c, sched, st, t, n);
    var l: nat :| n <= l && Goes(c, sched, st, t, l);
    HolderNear(c, sched, st, l, h);
    HolderNotFarther(c, sched, st, n, l, h);
    m := l + 1;
  }

  lemma {:induction false} NotHeldForever(c: G.Config, sched: nat -> Move, st: nat -> State, n: nat, h: nat)
    requires Good(c, sched, st)
    ensures !HeldFrom(st, n, h)
    decreases HolderRank(PcOf(c, st(n), ThreadOf(c, h)))
  {
    if HeldFrom(st, n, h) {
      var m := HolderAdvances(c, sched, st, n, h);
      NotHeldForever(c, sched, st, m, h);
    }
  }

  lemma {:induction false} SameHolder(c: G.Config, sched: nat -> Move, st: nat -> State, n: nat, m: nat)
    requires Good(c, sched, st) && n <= m && forall k: nat :: n <= k ==> st(k).queue.mutex.Some?
    ensures st(m).queue.mutex == st(n).queue.mutex
    decreases m - n
  {
    if n < m {
      SameHolder(c, sched, st, n, m - 1);
      InvAt(c, sched, st, m - 1);
      assert Moves(c, sched, st, m - 1);
      if Enabled(c, st(m - 1), sched(m - 1)) {
        NoHandover(c, st(m - 1), sched(m - 1), st(m - 1).queue.mutex.value);
      }
    }
  }

  // From any time on the mutex is free at some time.
  lemma MutexFree(c: G.Config, sched: nat -> Move, st: nat -> State, n: nat) returns (m: nat)
    requires Good(c, sched, st)
    ensures n <= m && st(m).queue.mutex.None?
  {
    if forall k: nat :: n <= k ==> st(k).queue.mutex.Some? {
      var h := st(n).queue.mutex.value;
      forall k: nat | n <= k ensures st(k).queue.mutex == Some(h) {
        SameHolder(c, sched, st, n, k);
      }
      NotHeldForever(c, sched, st, n, h);
    }
    m :| n <= m && st(m).queue.mutex.None?;
  }

  // ---- a thread that has something to do does it ---------------------------------------------------

  // Moves left before a thread takes its next step in the game.
  function Rank(p: Q.Pc<G.Item>): nat {
    match p
    case PushIn(_) => 1
    case PopIn => 1
    case PushTest(_) => 2
    case PopTest => 2
    case PushLock(_) => 3
    case PopLock => 3
    case PushAsleep(_, _) => 3
    case PopAsleep(notified) => if notified then 3 else 4
    case Idle => 4
    case PushOut => 5
    case PopOut(_) => 5
  }

  ghost predicate Still(st: nat -> State, n: nat) {
    forall m: nat :: n <= m ==> st(m).game == st(n).game
  }

  // A productive step of the game changes it.
  lemma ProductiveChanges(c: G.Config, g: G.State, t: G.Thread)
    requires I.Inv(c, g) && R.Productive(c, g, t)
    ensures G.Step(c, g, t) != g
  {
    R.ProductiveDecreases(c, g, t);
  }

  // With an item in the queue for it, a call comes nearer to its effect by every move.
  lemma QueueMove(q: Q.State<G.Item>, a: Q.Action<G.Item>)
    requires Q.Inv(q) && Q.Enabled(q, a) && Q.EffectOf(q, a).Quiet?
    requires var p := q.threads[a.t]; p.PopTest? || p.PopIn? ==> q.items != []
    ensures Rank(Q.Apply(q, a).threads[a.t]) < Rank(q.threads[a.t])
  {
  }

  // A move of such a thread that leaves the game as it is brings its step nearer.
  lemma OwnMove(c: G.Config, s: State, m: Move)
    requires Inv(c, s) && Enabled(c, s, m) && R.Productive(c, s.game, m.t) && Step(c, s, m).game == s.game
    ensures Rank(PcOf(c, Step(c, s, m), m.t)) < Rank(PcOf(c, s, m.t))
  {
    var k := Id(c, m.t);
    assert ThreadOf(c, k) == m.t;
    assert Fits(c, s.game, s.queue.threads[k], m.t);
    ProductiveChanges(c, s.game, m.t);
    if !Q.EffectOf(s.queue, ActionOf(c, s, m)).Quiet? {
      EffectIsStep(c, s, m);
    }
    QueueMove(s.queue, ActionOf(c, s, m));
  }

  lemma Nearer(c: G.Config, sched: nat -> Move, st: nat -> State, n: nat, t: G.Thread)
    requires Good(c, sched, st) && st(n + 1).game == st(n).game && R.Productive(c, st(n).game, t) && IsThread(c, t)
    ensures Rank(PcOf(c, st(n + 1), t)) <= Rank(PcOf(c, st(n), t))
    ensures sched(n).t == t && Enabled(c, st(n), sched(n)) ==> Rank(PcOf(c, st(n + 1), t)) < Rank(PcOf(c, st(n), t))
    ensures Rank(PcOf(c, st(n + 1), t)) == Rank(PcOf(c, st(n), t)) ==> PcOf(c, st(n + 1), t) == PcOf(c, st(n), t)
  {
    InvAt(c, sched, st, n);
    assert Moves(c, sched, st, n);
    if sched(n).t != t {
      StaysPut(c, sched, st, n, t);
    } else if Enabled(c, st(n), sched(n)) {
      OwnMove(c, st(n), sched(n));
    }
  }

  lemma {:induction false} NotFarther(c: G.Config, sched: nat -> Move, st: nat -> State, n: nat, m: nat, t: G.Thread)
    requires Good(c, sched, st) && Still(st, n) && R.Productive(c, st(n).game, t) && IsThread(c, t) && n <= m
    ensures Rank(PcOf(c, st(m), t)) <= Rank(PcOf(c, st(n), t))
    ensures Rank(PcOf(c, st(m), t)) == Rank(PcOf(c, st(n), t)) ==> PcOf(c, st(m), t) == PcOf(c, st(n), t)
    decreases m - n
  {
    if n < m {
      assert st(n + 1).game == st(n).game;
      Nearer(c, sched, st, n, t);
      NotFarther(c, sched, st, n + 1, m, t);
    }
  }

  // With the mutex free a thread that has something to do can go.
  lemma FreeCanGo(c: G.Config, s: State, t: G.Thread)
    requires Inv(c, s) && IsThread(c, t) && R.Productive(c, s.game, t) && s.queue.mutex.None?
    ensures CanGo(c, s, t)
  {
    var k := Id(c, t);
    assert ThreadOf(c, k) == t;
    assert Fits(c, s.game, s.queue.threads[k], t);
  }

  // Where a thread stands still it can go again and again.
  lemma CanGoAgain(c: G.Config, sched: nat -> Move, st: nat -> State, n: nat, t: G.Thread, k: nat)
    requires Good(c, sched, st) && Still(st, n) && R.Productive(c, st(n).game, t) && IsThread(c, t)
    requires forall m: nat :: n <= m ==> PcOf(c, st(m), t) == PcOf(c, st(n), t)
    ensures CanGoLater(c, st, t, k)
  {
    var l := MutexFree(c, sched, st, if n < k then k else n);
    InvAt(c, sched, st, l);
    assert st(l).game == st(n).game && PcOf(c, st(l), t) == PcOf(c, st(n), t);
    FreeCanGo(c, st(l), t);
    assert k <= l && CanGo(c, st(l), t);
  }

  // A thread with something to do comes nearer to it.
  lemma Comes(c: G.Config, sched: nat -> Move, st: nat -> State, n: nat, t: G.Thread) returns (m: nat)
    requires Good(c, sched, st) && Still(st, n) && R.Productive(c, st(n).game, t) && IsThread(c, t)
    ensures n < m && Rank(PcOf(c, st(m), t)) < Rank(PcOf(c, st(n), t))
  {
    if forall m: nat :: n <= m ==> Rank(PcOf(c, st(m), t)) >= Rank(PcOf(c, st(n), t)) {
      forall m: nat | n <= m ensures PcOf(c, st(m), t) == PcOf(c, st(n), t) {
        NotFarther(c, sched, st, n, m, t);
      }
      forall k: nat ensures CanGoLater(c, st, t, k) {
        CanGoAgain(c, sched, st, n, t, k);
      }
      assert Served(c, sched, st, t);
      assert GoesLater(c, sched, st, t, n);
      var l: nat :| n <= l && Goes(c, sched, st, t, l);
      assert st(l).game == st(n).game && st(l + 1).game == st(n).game;
      Nearer(c, sched, st, l, t);
    }
    m :| n <= m && Rank(PcOf(c, st(m), t)) < Rank(PcOf(c, st(n), t));
  }

  lemma {:induction false} NotStill(c: G.Config, sched: nat -> Move, st: nat -> State, n: nat, t: G.Thread)
    requires Good(c, sched, st) && R.Productive(c, st(n).game, t) && IsThread(c, t)
    ensures !Still(st, n)
    decreases Rank(PcOf(c, st(n), t))
  {
    if Still(st, n) {
      var m := Comes(c, sched, st, n, t);
      assert st(m).game == st(n).game;
      NotStill(c, sched, st, m, t);
    }
  }

  // ---- the end -------------------------------------------------------------------------------------

  // The first change of the game after n.
  lemma {:induction false} FirstChange(st: nat -> State, n: nat, m: nat) returns (k: nat)
    requires n <= m && st(m).game != st(n).game
    ensures n <= k && st(k).game == st(n).game && st(k + 1).game != st(n).game
    decreases m - n
  {
    k := n;
    if st(n + 1).game == st(n).game {
      k := FirstChange(st, n + 1, m);
    }
  }

  // It is a productive step.
  lemma ChangeIsProgress(c: G.Config, sched: nat -> Move, st: nat -> State, k: nat)
    requires Good(c, sched, st) && st(k + 1).game != st(k).game
    ensures R.Measure(c, st(k + 1).game) < R.Measure(c, st(k).game)
  {
    InvAt(c, sched, st, k);
    assert Moves(c, sched, st, k);
    Simulates(c, st(k), sched(k));
    R.ProductiveDecreases(c, st(k).game, sched(k).t);
  }

  lemma Progresses(c: G.Config, sched: nat -> Move, st: nat -> State, n: nat) returns (k: nat)
    requires Good(c, sched, st) && !st(n).game.main.Done?
    ensures n <= k && R.Measure(c, st(k + 1).game) < R.Measure(c, st(n).game)
  {
    InvAt(c, sched, st, n);
    var t := R.NeverStuck(c, st(n).game);
    NotStill(c, sched, st, n, t);
    var m: nat :| n <= m && st(m).game != st(n).game;
    k := FirstChange(st, n, m);
    ChangeIsProgress(c, sched, st, k);
  }

  lemma {:induction false} ReachesDone(c: G.Config, sched: nat -> Move, st: nat -> State, n: nat) returns (m: nat)
    requires Good(c, sched, st)
    ensures n <= m && st(m).game.main.Done?
    decreases R.Measure(c, st(n).game)
  {
    m := n;
    if !st(n).game.main.Done? {
      var k := Progresses(c, sched, st, n);
      m := ReachesDone(c, sched, st, k + 1);
    }
  }

  /** For any board, any number of threads asked for and any strongly fair schedule of the threads,
      with the mutex, the conditions and the spurious wakeups of the queue in between: the game ends,
      every worker has exited, the board is the sequential one, and there is one tile record per
      thread and generation. */
  lemma FairMonitorGameEnds(height: nat, width: nat, asked: nat, generations: nat, board: Board,
                            sched: nat -> Move, st: nat -> State)
      returns (m: nat)
    requires 1 <= height && 1 <= width && 1 <= asked && Rect(board, height, width)
    requires Trace(G.Setup(height, width, asked, generations, board), sched, st)
    requires Fair(G.Setup(height, width, asked, generations, board), sched, st)
    ensures R.Finished(G.Setup(height, width, asked, generations, board), st(m).game)
    ensures st(m).game.boards[st(m).game.cur] == Generations(board, width, generations)
  {
    var c := G.Setup(height, width, asked, generations, board);
    m := ReachesDone(c, sched, st, 0);
    InvAt(c, sched, st, m);
    R.DoneIsFinished(c, st(m).game);
  }

  // ---- strongly fair schedules exist ----------------------------------------------------------------

  ghost predicate Takes(c: G.Config, s: State, m: Move, s': State)
    requires 0 < c.threads == |Tiles(c.height, c.threads)|
  {
    Enabled(c, s, m) && s' == Step(c, s, m)
  }

  // A finite schedule from the first of the states to the last.
  ghost predicate Path(c: G.Config, ms: seq<Move>, ss: seq<State>)
    requires 0 < c.threads == |Tiles(c.height, c.threads)|
  {
    |ss| == |ms| + 1 && forall k :: 0 <= k < |ms| ==> Takes(c, ss[k], ms[k], ss[k + 1])
  }

  lemma Then(c: G.Config, s: State, m: Move, ms: seq<Move>, ss: seq<State>)
      returns (ms': seq<Move>, ss': seq<State>)
    requires 0 < c.threads == |Tiles(c.height, c.threads)| && Path(c, ms, ss) && Takes(c, s, m, ss[0])
    ensures Path(c, ms', ss') && ss'[0] == s && ss'[|ms'|] == ss[|ms|]
  {
    ms', ss' := [m] + ms, [s] + ss;
    forall k | 0 <= k < |ms'| ensures Takes(c, ss'[k], ms'[k], ss'[k + 1]) {
      assert ss'[k + 1] == ss[k];
      if 0 < k {
        assert ss'[k] == ss[k - 1] && ms'[k] == ms[k - 1];
        assert Takes(c, ss[k - 1], ms[k - 1], ss[k - 1 + 1]);
      }
    }
  }

  lemma {:induction false} PathKeeps(c: G.Config, ms: seq<Move>, ss: seq<State>, k: nat)
    requires I.Ready(c) && Path(c, ms, ss) && Inv(c, ss[0]) && k <= |ms|
    ensures Inv(c, ss[k])
  {
    if 0 < k {
      PathKeeps(c, ms, ss, k - 1);
      assert Takes(c, ss[k - 1], ms[k - 1], ss[k - 1 + 1]);
      StepKeeps(c, ss[k - 1], ms[k - 1]);
    }
  }

  lemma GameShrinks(c: G.Config, s: State, m: Move)
    requires Inv(c, s) && Enabled(c, s, m)
    ensures var s' := Step(c, s, m); s'.game == s.game || R.Measure(c, s'.game) < R.Measure(c, s.game)
  {
    Simulates(c, s, m);
    if Step(c, s, m).game != s.game {
      R.ProductiveDecreases(c, s.game, m.t);
    }
  }

  // The holder of the mutex, if there is one, can move on.
  lemma HolderCanGo(c: G.Config, s: State) returns (m: Move)
    requires Inv(c, s) && s.queue.mutex.Some?
    ensures Enabled(c, s, m) && s.queue.mutex == Some(Id(c, m.t)) && CanGo(c, s, m.t) && IsThread(c, m.t)
  {
    m := Move(ThreadOf(c, s.queue.mutex.value), 0);
  }

  function Left(c: G.Config, s: State): nat
    requires 0 < c.threads
  {
    if s.queue.mutex.None? then 0 else 1 + HolderRank(PcOf(c, s, ThreadOf(c, s.queue.mutex.value)))
  }

  // A thread with something to do that need not wait for the mutex.
  predicate Unhindered(c: G.Config, s: State, t: G.Thread)
    requires 0 < c.threads == |Tiles(c.height, c.threads)|
  {
    IsThread(c, t) && R.Productive(c, s.game, t) && s.queue.mutex in {None, Some(Id(c, t))}
  }

  // Moves at most before the game changes, or the mutex is free.
  function Ahead(c: G.Config, s: State, t: G.Thread): nat
    requires 0 < c.threads == |Tiles(c.height, c.threads)|
  {
    if Unhindered(c, s, t) then Rank(PcOf(c, s, t)) else 10 + Left(c, s)
  }

  ghost predicate Nears(c: G.Config, s: State, m: Move, t: G.Thread)
    requires 0 < c.threads == |Tiles(c.height, c.threads)| && Enabled(c, s, m)
  {
    var s' := Step(c, s, m);
    && Inv(c, s')
    && (R.Measure(c, s'.game) < R.Measure(c, s.game) || (s'.game == s.game && Ahead(c, s', t) < Ahead(c, s, t)))
  }

  lemma UnhinderedGoes(c: G.Config, s: State, t: G.Thread)
    requires Inv(c, s) && Unhindered(c, s, t)
    ensures Enabled(c, s, Move(t, 0)) && Nears(c, s, Move(t, 0), t)
  {
    var m := Move(t, 0);
    if s.queue.mutex.None? {
      FreeCanGo(c, s, t);
    } else {
      var h := HolderCanGo(c, s);
      assert h.t == t;
    }
    GameShrinks(c, s, m);
    StepKeeps(c, s, m);
    if Step(c, s, m).game == s.game {
      OwnMove(c, s, m);
    }
  }

  lemma HolderGoes(c: G.Config, s: State, t: G.Thread) returns (m: Move)
    requires Inv(c, s) && !Unhindered(c, s, t) && s.queue.mutex.Some?
    ensures Enabled(c, s, m) && Nears(c, s, m, t)
  {
    m := HolderShortens(c, s);
    GameShrinks(c, s, m);
    StepKeeps(c, s, m);
    RankIsSmall(c, Step(c, s, m), t);
  }

  lemma HolderShortens(c: G.Config, s: State) returns (m: Move)
    requires Inv(c, s) && s.queue.mutex.Some?
    ensures Enabled(c, s, m) && Left(c, Step(c, s, m)) < Left(c, s)
  {
    m := HolderCanGo(c, s);
    HolderMoves(c, s, m);
    NoHandover(c, s, m, s.queue.mutex.value);
  }

  lemma RankIsSmall(c: G.Config, s: State, t: G.Thread)
    requires 0 < c.threads == |Tiles(c.height, c.threads)|
    ensures Ahead(c, s, t) <= 10 + Left(c, s) && (Unhindered(c, s, t) ==> Ahead(c, s, t) < 10)
  {
  }

  lemma SomeoneUnhindered(c: G.Config, s: State) returns (u: G.Thread)
    requires Inv(c, s) && s.queue.mutex.None? && !s.game.main.Done?
    ensures Unhindered(c, s, u) && Ahead(c, s, u) < 10
  {
    u := R.NeverStuck(c, s.game);
    RankIsSmall(c, s, u);
  }

  lemma Advance(c: G.Config, s: State, t: G.Thread) returns (m: Move)
    requires Inv(c, s) && (Unhindered(c, s, t) || s.queue.mutex.Some?)
    ensures Enabled(c, s, m) && Nears(c, s, m, t)
  {
    m := Move(t, 0);
    if Unhindered(c, s, t) {
      UnhinderedGoes(c, s, t);
    } else {
      m := HolderGoes(c, s, t);
    }
  }

  /** From every state the game can be taken to its end and the mutex be left free. */
  lemma {:induction false} CanFinish(c: G.Config, s: State, t: G.Thread) returns (ms: seq<Move>, ss: seq<State>)
    requires Inv(c, s)
    ensures Path(c, ms, ss) && ss[0] == s && ss[|ms|].game.main.Done? && ss[|ms|].queue.mutex.None?
    decreases R.Measure(c, s.game), Ahead(c, s, t)
  {
    if Unhindered(c, s, t) || s.queue.mutex.Some? {
      var m := Advance(c, s, t);
      ms, ss := CanFinish(c, Step(c, s, m), t);
      ms, ss := Then(c, s, m, ms, ss);
    } else if s.game.main.Done? {
      ms, ss := [], [s];
    } else {
      var u := SomeoneUnhindered(c, s);
      ms, ss := CanFinish(c, s, u);
    }
  }

  // At the end no thread can go.
  lemma NoneCanGo(c: G.Config, s: State, t: G.Thread)
    requires Inv(c, s) && s.game.main.Done? && s.queue.mutex.None?
    ensures !CanGo(c, s, t)
  {
    R.DoneIsFinished(c, s.game);
    if IsThread(c, t) {
      var k := Id(c, t);
      assert ThreadOf(c, k) == t;
      assert Fits(c, s.game, s.queue.threads[k], t);
    }
  }

  /** So strongly fair schedules exist. */
  lemma FairScheduleExists(c: G.Config) returns (sched: nat -> Move, st: nat -> State)
    requires I.Ready(c)
    ensures Trace(c, sched, st) && Fair(c, sched, st)
  {
    StartInv(c);
    var ms, ss := CanFinish(c, Start(c), G.MainThread);
    PathKeeps(c, ms, ss, |ms|);
    var last := ss[|ms|];
    sched := (n: nat) => if n < |ms| then ms[n] else Move(G.MainThread, 0);
    st := (n: nat) => if n < |ss| then ss[n] else last;
    NoneCanGo(c, last, G.MainThread);
    forall n: nat ensures Moves(c, sched, st, n) {
      if n < |ms| {
        assert Takes(c, ss[n], ms[n], ss[n + 1]);
      }
    }
    forall t: G.Thread ensures Served(c, sched, st, t) {
      NoneCanGo(c, last, t);
      assert !CanGoLater(c, st, t, |ms|);
    }
  }
}
