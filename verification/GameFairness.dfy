/** The game under infinite schedules: every weakly fair one ends, with every worker gone. */
module GameFairness {
  import opened Life
  import opened Tiling
  import opened GameMachine
  import opened GameInvariant
  import opened GameRuns

  // Step n of an infinite schedule; a thread that cannot go leaves the state as it is.
  ghost predicate Moves(c: Config, sched: nat -> Thread, st: nat -> State, n: nat)
    requires 0 < c.threads == |Tiles(c.height, c.threads)|
  {
    st(n + 1) == if Enabled(st(n), sched(n)) then Step(c, st(n), sched(n)) else st(n)
  }

  ghost predicate Trace(c: Config, sched: nat -> Thread, st: nat -> State)
    requires 0 < c.threads == |Tiles(c.height, c.threads)|
  {
    st(0) == Start(c) && forall n: nat :: Moves(c, sched, st, n)
  }

  ghost predicate Served(sched: nat -> Thread, st: nat -> State, t: Thread, m: nat) {
    sched(m) == t || !Enabled(st(m), t)
  }

  ghost predicate ServedFrom(sched: nat -> Thread, st: nat -> State, t: Thread, n: nat) {
    exists m: nat :: n <= m && Served(sched, st, t, m)
  }

  // Weak fairness: no thread is able to go from some time on without ever going.
  ghost predicate Fair(sched: nat -> Thread, st: nat -> State) {
    forall t: Thread, n: nat :: ServedFrom(sched, st, t, n)
  }

  lemma {:induction false} InvAt(c: Config, sched: nat -> Thread, st: nat -> State, n: nat)
    requires Ready(c) && Trace(c, sched, st)
    ensures Inv(c, st(n))
  {
    if n == 0 {
      StartInv(c);
    } else {
      InvAt(c, sched, st, n - 1);
      assert Moves(c, sched, st, n - 1);
      if Enabled(st(n - 1), sched(n - 1)) {
        StepKeeps(c, st(n - 1), sched(n - 1));
      }
    }
  }

  // Without a productive step nothing changes.
  lemma IdleStep(c: Config, sched: nat -> Thread, st: nat -> State, n: nat)
    requires Ready(c) && Trace(c, sched, st) && !Productive(c, st(n), sched(n))
    ensures st(n + 1) == st(n)
  {
    assert Moves(c, sched, st, n);
  }

  // The first productive step from n on comes no later than the turn of a thread that could
  // take one.
  lemma {:induction false} NextProductive(c: Config, sched: nat -> Thread, st: nat -> State, n: nat, t: Thread, m: nat)
      returns (k: nat)
    requires Ready(c) && Trace(c, sched, st) && Productive(c, st(n), t) && n <= m && Served(sched, st, t, m)
    ensures n <= k && st(k) == st(n) && Productive(c, st(k), sched(k))
    decreases m - n
  {
    k := n;
    if !Productive(c, st(n), sched(n)) {
      IdleStep(c, sched, st, n);
      assert n < m;
      k := NextProductive(c, sched, st, n + 1, t, m);
    }
  }

  // Before the end a productive step is always still to come.
  lemma Progresses(c: Config, sched: nat -> Thread, st: nat -> State, n: nat) returns (k: nat)
    requires Ready(c) && Trace(c, sched, st) && Fair(sched, st) && !st(n).main.Done?
    ensures n <= k && Measure(c, st(k + 1)) < Measure(c, st(n))
  {
    InvAt(c, sched, st, n);
    var t := NeverStuck(c, st(n));
    assert ServedFrom(sched, st, t, n);
    var turn: nat :| n <= turn && Served(sched, st, t, turn);
    k := NextProductive(c, sched, st, n, t, turn);
    ProductiveDecreases(c, st(k), sched(k));
    assert Moves(c, sched, st, k);
  }

  /** Under every fair schedule the main thread is done in the end. */
  lemma {:induction false} FairReachesDone(c: Config, sched: nat -> Thread, st: nat -> State, n: nat) returns (m: nat)
    requires Ready(c) && Trace(c, sched, st) && Fair(sched, st)
    ensures n <= m && st(m).main.Done?
    decreases Measure(c, st(n))
  {
    m := n;
    if !st(n).main.Done? {
      var k := Progresses(c, sched, st, n);
      m := FairReachesDone(c, sched, st, k + 1);
    }
  }

  /** For any board, any number of threads asked for and any fair schedule: the game ends, every
      worker has exited, the board is the sequential one, and there is one tile record per thread
      and generation. */
  lemma FairGameEnds(height: nat, width: nat, asked: nat, generations: nat, board: Board,
                     sched: nat -> Thread, st: nat -> State)
      returns (m: nat)
    requires 1 <= height && 1 <= width && 1 <= asked && Rect(board, height, width)
    requires Trace(Setup(height, width, asked, generations, board), sched, st) && Fair(sched, st)
    ensures Finished(Setup(height, width, asked, generations, board), st(m))
    ensures st(m).boards[st(m).cur] == Generations(board, width, generations)
  {
    var c := Setup(height, width, asked, generations, board);
    m := FairReachesDone(c, sched, st, 0);
    InvAt(c, sched, st, m);
    DoneIsFinished(c, st(m));
  }

  /** Such schedules exist: one that takes the game to its end, after which no thread can go. */
  lemma FairScheduleExists(c: Config) returns (sched: nat -> Thread, st: nat -> State)
    requires Ready(c)
    ensures Trace(c, sched, st) && Fair(sched, st)
  {
    StartInv(c);
    var ts, states := CanFinish(c, Start(c));
    sched := (n: nat) => if n < |ts| then ts[n] else MainThread;
    st := (n: nat) => if n < |states| then states[n] else states[|states| - 1];
    RunKeeps(c, ts, states, |ts|);
    var last := states[|ts|];
    DoneIsFinished(c, last);
    forall n: nat ensures Moves(c, sched, st, n) {
      if n < |ts| {
        assert Goes(c, states[n], ts[n], states[n + 1]);
      }
    }
    forall t: Thread, n: nat ensures ServedFrom(sched, st, t, n) {
      var m: nat := n + |ts|;
      assert st(m) == last && !Enabled(last, t);
      assert Served(sched, st, t, m);
    }
  }
}
