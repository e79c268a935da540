/** The game with the queue as it is: a push or pop of a thread goes through the steps of the
    monitor, and takes effect in the game when the item is stored or taken. */
module MonitorGame {
  import opened Tiling
  import G = GameMachine
  import I = GameInvariant
  import R = GameRuns
  import Q = PcQueue

  datatype State = State(game: G.State, queue: Q.State<G.Item>)

  // A thread moves; `signalled` is whom a signal it gives reaches.
  datatype Move = Move(t: G.Thread, signalled: nat)

  // The threads of the monitor: the workers, and the main thread behind them.
  function Id(c: G.Config, t: G.Thread): nat {
    if t.MainThread? then c.threads else t.w
  }

  // What a thread is about to do with the queue.
  datatype Call = PushCall(item: G.Item) | PopCall | NoCall

  function CallOf(c: G.Config, g: G.State, t: G.Thread): Call
    requires 0 < c.threads == |Tiles(c.height, c.threads)|
  {
    match t
    case MainThread =>
      (match g.main
       case Pushing(i) => if i < c.threads then PushCall(G.Work(G.JobAt(c, g.cur, g.gen, i))) else NoCall
       case Stopping(_) => PushCall(G.Stop)
       case _ => NoCall)
    case WorkerThread(w) => if w < |g.workers| && g.workers[w].Popping? then PopCall else NoCall
  }

  // The step of the monitor that a thread takes, outside a call the start of one.
  function ActionOf(c: G.Config, s: State, m: Move): Q.Action<G.Item>
    requires 0 < c.threads == |Tiles(c.height, c.threads)| && Id(c, m.t) < |s.queue.threads|
  {
    var k := Id(c, m.t);
    match s.queue.threads[k]
    case Idle => if CallOf(c, s.game, m.t).PushCall? then Q.StartPush(k, CallOf(c, s.game, m.t).item) else Q.StartPop(k)
    case PushAsleep(_, _) => Q.Wake(k)
    case PopAsleep(_) => Q.Wake(k)
    case _ => Q.Go(k, m.signalled)
  }

  // Between calls a thread moves in the game.
  predicate InGame(c: G.Config, s: State, t: G.Thread)
    requires 0 < c.threads == |Tiles(c.height, c.threads)|
  {
    Id(c, t) < |s.queue.threads| && s.queue.threads[Id(c, t)].Idle? && CallOf(c, s.game, t).NoCall?
  }

  predicate Enabled(c: G.Config, s: State, m: Move)
    requires 0 < c.threads == |Tiles(c.height, c.threads)|
  {
    && Id(c, m.t) < |s.queue.threads|
    && (m.t.WorkerThread? ==> m.t.w < c.threads)
    && if InGame(c, s, m.t) then G.Enabled(s.game, m.t) else Q.Enabled(s.queue, ActionOf(c, s, m))
  }

  function Step(c: G.Config, s: State, m: Move): State
    requires 0 < c.threads == |Tiles(c.height, c.threads)| && Enabled(c, s, m)
  {
    if InGame(c, s, m.t) then s.(game := G.Step(c, s.game, m.t))
    else
      var a := ActionOf(c, s, m);
      State(if Q.EffectOf(s.queue, a).Quiet? || !G.Enabled(s.game, m.t) then s.game else G.Step(c, s.game, m.t),
            Q.Apply(s.queue, a))
  }

  function Start(c: G.Config): State {
    State(G.Start(c), Q.Start(c.threads + 1))
  }

  // ---- the invariant ---------------------------------------------------------------------------

  function ThreadOf(c: G.Config, k: nat): G.Thread {
    if k == c.threads then G.MainThread else G.WorkerThread(k)
  }

  // A thread that is in a call and has not had its effect is about to have it in the game.
  ghost predicate Fits(c: G.Config, g: G.State, pc: Q.Pc<G.Item>, t: G.Thread)
    requires 0 < c.threads == |Tiles(c.height, c.threads)|
  {
    Q.Before(pc) ==> CallOf(c, g, t) == match Q.Given(pc) case Some(x) => PushCall(x) case None => PopCall
  }

  ghost predicate Linked(c: G.Config, s: State)
    requires 0 < c.threads == |Tiles(c.height, c.threads)|
  {
    && |s.queue.threads| == c.threads + 1 && s.queue.items == s.game.queue
    && forall k {:trigger s.queue.threads[k]} :: 0 <= k <= c.threads ==>
         Fits(c, s.game, s.queue.threads[k], ThreadOf(c, k))
  }

  ghost predicate Inv(c: G.Config, s: State) {
    I.Inv(c, s.game) && Q.Inv(s.queue) && Linked(c, s)
  }

  // Steps of other threads do not change what a thread is about to do.
  lemma CallStays(c: G.Config, g: G.State, t: G.Thread, u: G.Thread)
    requires 0 < c.threads == |Tiles(c.height, c.threads)| && G.Enabled(g, t) && t != u
    ensures CallOf(c, G.Step(c, g, t), u) == CallOf(c, g, u)
  {
  }

  // The effect of a call in the monitor is its step in the game.
  lemma EffectIsStep(c: G.Config, s: State, m: Move)
    requires Inv(c, s) && Enabled(c, s, m) && !InGame(c, s, m.t) && !Q.EffectOf(s.queue, ActionOf(c, s, m)).Quiet?
    ensures G.Enabled(s.game, m.t)
    ensures Q.Apply(s.queue, ActionOf(c, s, m)).items == G.Step(c, s.game, m.t).queue
  {
    var k := Id(c, m.t);
    assert Fits(c, s.game, s.queue.threads[k], ThreadOf(c, k));
    assert ThreadOf(c, k) == m.t;
  }

  // What one step does to the game: nothing, or the thread's own step.
  lemma Simulates(c: G.Config, s: State, m: Move)
    requires Inv(c, s) && Enabled(c, s, m)
    ensures var s' := Step(c, s, m);
            s'.game == s.game || (G.Enabled(s.game, m.t) && s'.game == G.Step(c, s.game, m.t))
  {
  }

  lemma FitsOther(c: G.Config, s: State, m: Move, k: nat)
    requires Inv(c, s) && Enabled(c, s, m) && k <= c.threads && k != Id(c, m.t)
    ensures var s' := Step(c, s, m);
            |s'.queue.threads| == c.threads + 1 && Fits(c, s'.game, s'.queue.threads[k], ThreadOf(c, k))
  {
    assert Fits(c, s.game, s.queue.threads[k], ThreadOf(c, k));
    if !InGame(c, s, m.t) {
      Q.StepIsAtomic(s.queue, ActionOf(c, s, m));
    }
    Simulates(c, s, m);
    if G.Enabled(s.game, m.t) {
      CallStays(c, s.game, m.t, ThreadOf(c, k));
    }
  }

  lemma FitsOwn(c: G.Config, s: State, m: Move)
    requires Inv(c, s) && Enabled(c, s, m)
    ensures var s', k := Step(c, s, m), Id(c, m.t);
            |s'.queue.threads| == c.threads + 1 && Fits(c, s'.game, s'.queue.threads[k], m.t)
  {
    var k := Id(c, m.t);
    assert ThreadOf(c, k) == m.t;
    assert Fits(c, s.game, s.queue.threads[k], m.t);
    if !InGame(c, s, m.t) {
      Q.StepIsAtomic(s.queue, ActionOf(c, s, m));
    }
  }

  lemma StepKeeps(c: G.Config, s: State, m: Move)
    requires Inv(c, s) && Enabled(c, s, m)
    ensures Inv(c, Step(c, s, m))
  {
    var s' := Step(c, s, m);
    Simulates(c, s, m);
    if G.Enabled(s.game, m.t) {
      R.StepKeeps(c, s.game, m.t);
    }
    if !InGame(c, s, m.t) {
      var a := ActionOf(c, s, m);
      Q.InvStep(s.queue, a);
      Q.StepIsAtomic(s.queue, a);
      if !Q.EffectOf(s.queue, a).Quiet? {
        EffectIsStep(c, s, m);
      }
    } else {
      QueueStays(c, s.game, m.t);
    }
    forall k | 0 <= k <= c.threads ensures Fits(c, s'.game, s'.queue.threads[k], ThreadOf(c, k)) {
      if k == Id(c, m.t) { FitsOwn(c, s, m); } else { FitsOther(c, s, m, k); }
    }
  }

  // A step that is neither a push nor a pop leaves the game's queue alone.
  lemma QueueStays(c: G.Config, g: G.State, t: G.Thread)
    requires 0 < c.threads == |Tiles(c.height, c.threads)| && G.Enabled(g, t) && CallOf(c, g, t).NoCall?
    ensures G.Step(c, g, t).queue == g.queue
  {
  }

  lemma StartInv(c: G.Config)
    requires c.Ok()
    ensures I.Ready(c) && Inv(c, Start(c))
  {
    I.StartInv(c);
  }
}
