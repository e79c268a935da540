/** PCQueue as a monitor: one mutex, two condition variables, any number of threads pushing
    and popping.  One step is one action of one thread on the monitor; a thread asleep on a
    condition may wake up because it was notified or for no reason at all. */
module PcQueue {
  import opened Common

  // Where a thread is inside push or pop.
  datatype Pc<T> =
    | Idle
    | PushLock(x: T)                   // before locking the mutex
    | PushTest(x: T)                   // at the while test, holding the mutex
    | PushAsleep(x: T, notified: bool) // in the wait on approve_to_write
    | PushIn(x: T)                     // admitted, before the item is stored
    | PushOut                            // item stored, before producers_unlock
    | PopLock
    | PopTest
    | PopAsleep(notified: bool)          // in the wait on approve_to_read
    | PopIn
    | PopOut(y: T)

  datatype State<T> = State(
    items: seq<T>,
    consumersInside: int,
    producersInside: int,
    producersWaiting: int,
    mutex: Option<nat>,
    threads: seq<Pc<T>>,
    pushed: seq<T>,    // history: every item stored, in order
    popped: seq<T>     // history: every item taken, in order
  )

  datatype Action<T> =
    | StartPush(t: nat, x: T)
    | StartPop(t: nat)
    | Go(t: nat, signalled: nat)   // the next action of t; `signalled` is whom a signal reaches
    | Wake(t: nat)                 // t leaves its wait, notified or spuriously

  predicate Holds<T>(pc: Pc<T>) {
    pc.PushTest? || pc.PushIn? || pc.PushOut? || pc.PopTest? || pc.PopIn? || pc.PopOut?
  }

  predicate Enabled<T>(s: State<T>, a: Action<T>) {
    && a.t < |s.threads|
    && var pc := s.threads[a.t];
       match a
       case StartPush(_, _) => pc.Idle?
       case StartPop(_) => pc.Idle?
       case Wake(_) => (pc.PushAsleep? || pc.PopAsleep?) && s.mutex.None?
       case Go(_, _) => ((pc.PushLock? || pc.PopLock?) && s.mutex.None?) || Holds(pc)
  }

  function Broadcast<T>(threads: seq<Pc<T>>): (r: seq<Pc<T>>)
    ensures |r| == |threads|
    ensures forall i :: 0 <= i < |r| ==>
              r[i] == if threads[i].PopAsleep? then PopAsleep(true) else threads[i]
  {
    seq(|threads|, i requires 0 <= i < |threads| =>
      if threads[i].PopAsleep? then PopAsleep(true) else threads[i])
  }

  function Signal<T>(threads: seq<Pc<T>>, u: nat): (r: seq<Pc<T>>)
    ensures |r| == |threads|
    ensures forall i :: 0 <= i < |r| ==>
              r[i] == if i == u && threads[i].PushAsleep? then PushAsleep(threads[i].x, true) else threads[i]
  {
    if u < |threads| && threads[u].PushAsleep? then threads[u := PushAsleep(threads[u].x, true)] else threads
  }

  function Apply<T>(s: State<T>, a: Action<T>): State<T>
    requires Enabled(s, a)
  {
    match a
    case StartPush(t, x) => s.(threads := s.threads[t := PushLock(x)])
    case StartPop(t) => s.(threads := s.threads[t := PopLock])
    case Wake(t) =>
      s.(mutex := Some(t),
         threads := s.threads[t := if s.threads[t].PushAsleep? then PushTest(s.threads[t].x) else PopTest])
    case Go(t, u) => GoOn(s, t, u)
  }

  function GoOn<T>(s: State<T>, t: nat, u: nat): State<T>
    requires t < |s.threads|
  {
    match s.threads[t]
    case PushLock(x) =>
      s.(mutex := Some(t), producersWaiting := s.producersWaiting + 1, threads := s.threads[t := PushTest(x)])
    case PushTest(x) =>
      if s.producersInside + s.consumersInside > 0 then
        s.(mutex := None, threads := s.threads[t := PushAsleep(x, false)])
      else
        s.(producersWaiting := s.producersWaiting - 1, producersInside := s.producersInside + 1,
           threads := s.threads[t := PushIn(x)])
    case PushIn(x) =>
      s.(items := s.items + [x], pushed := s.pushed + [x], threads := s.threads[t := PushOut])
    case PushOut =>
      var inside := s.producersInside - 1;
      var after := s.threads[t := Idle];
      s.(producersInside := inside, mutex := None,
         threads := if inside == 0 then Signal(Broadcast(after), u) else after)
    case PopLock => s.(mutex := Some(t), threads := s.threads[t := PopTest])
    case PopTest =>
      if s.producersInside != 0 || s.producersWaiting != 0 || s.items == [] || s.consumersInside != 0 then
        s.(mutex := None, threads := s.threads[t := PopAsleep(false)])
      else
        s.(consumersInside := s.consumersInside + 1, threads := s.threads[t := PopIn])
    case PopIn =>
      if s.items == [] then s else
      s.(items := s.items[1..], popped := s.popped + [s.items[0]], threads := s.threads[t := PopOut(s.items[0])])
    case PopOut(y) =>
      var inside := s.consumersInside - 1;
      var after := s.threads[t := Idle];
      s.(consumersInside := inside, mutex := None,
         threads := if inside == 0 then Signal(after, u) else after)
    case _ => s
  }

  function Start<T>(n: nat): State<T> {
    State([], 0, 0, 0, None, seq(n, _ => Idle), [], [])
  }

  ghost predicate Run<T>(n: nat, actions: seq<Action<T>>, states: seq<State<T>>) {
    && |states| == |actions| + 1 && states[0] == Start(n)
    && forall k :: 0 <= k < |actions| ==> Step(states[k], actions[k], states[k + 1])
  }

  ghost predicate Step<T>(s: State<T>, a: Action<T>, s': State<T>) {
    Enabled(s, a) && s' == Apply(s, a)
  }

  // ---- the invariant ---------------------------------------------------------------------------

  ghost predicate Inv<T>(s: State<T>) {
    && (forall i :: 0 <= i < |s.threads| && Holds(s.threads[i]) ==> s.mutex == Some(i))
    && (s.mutex.Some? ==> s.mutex.value < |s.threads| && Holds(s.threads[s.mutex.value]))
    && var holder := if s.mutex.Some? then s.threads[s.mutex.value] else Idle;
       && s.producersWaiting == (if holder.PushTest? then 1 else 0)
       && s.producersInside == (if holder.PushIn? || holder.PushOut? then 1 else 0)
       && s.consumersInside == (if holder.PopIn? || holder.PopOut? then 1 else 0)
       && (holder.PopIn? ==> s.items != [])
       && s.pushed == s.popped + s.items
       && (forall i :: 0 <= i < |s.threads| ==> !s.threads[i].PushAsleep?)
       && (forall i :: 0 <= i < |s.threads| && s.threads[i] == PopAsleep(false) ==>
             s.items == [] || holder.PushOut?)
  }

  lemma InvStep<T>(s: State<T>, a: Action<T>)
    requires Inv(s) && Enabled(s, a)
    ensures Inv(Apply(s, a))
  {
    var s' := Apply(s, a);
    if a.Go? && s.threads[a.t].PopIn? {
      assert s.popped + s.items == (s.popped + [s.items[0]]) + s.items[1..];
    }
    if a.Go? && s.threads[a.t].PushIn? {
      assert s'.pushed == s.popped + s.items + [s.threads[a.t].x];
    }
  }

  lemma {:induction false} InvRun<T>(n: nat, actions: seq<Action<T>>, states: seq<State<T>>, k: nat)
    requires Run(n, actions, states) && k < |states|
    ensures Inv(states[k]) && |states[k].threads| == n
  {
    if 0 < k {
      InvRun(n, actions, states, k - 1);
      assert Step(states[k - 1], actions[k - 1], states[k - 1 + 1]);
      InvStep(states[k - 1], actions[k - 1]);
    }
  }

  // ---- what the queue promises, in every state of every interleaving --------------------------

  // FIFO: the items taken are a prefix of the items stored, and the rest is still inside.
  lemma Fifo<T>(n: nat, actions: seq<Action<T>>, states: seq<State<T>>, k: nat)
    requires Run(n, actions, states) && k < |states|
    ensures states[k].popped <= states[k].pushed
    ensures states[k].items == states[k].pushed[|states[k].popped|..]
  {
    InvRun(n, actions, states, k);
  }

  // All three counters are zero whenever the mutex is free, and a producer never sleeps.
  lemma CountersZeroWhenFree<T>(n: nat, actions: seq<Action<T>>, states: seq<State<T>>, k: nat)
    requires Run(n, actions, states) && k < |states|
    ensures states[k].mutex.None? ==>
              states[k].consumersInside == states[k].producersInside == states[k].producersWaiting == 0
    ensures forall i :: 0 <= i < |states[k].threads| ==> !states[k].threads[i].PushAsleep?
  {
    InvRun(n, actions, states, k);
  }

  // No lost wakeup: with the mutex free, a consumer nobody has notified means an empty queue.
  lemma NoLostWakeup<T>(n: nat, actions: seq<Action<T>>, states: seq<State<T>>, k: nat, i: nat)
    requires Run(n, actions, states) && k < |states| && i < |states[k].threads|
    requires states[k].mutex.None? && states[k].threads[i] == PopAsleep(false)
    ensures states[k].items == []
  {
    InvRun(n, actions, states, k);
  }

  /** No deadlock: as long as some call could complete with what is in the queue, some thread
      can take a step, without relying on spurious wakeups. */
  lemma SomeoneCanMove<T>(n: nat, actions: seq<Action<T>>, states: seq<State<T>>, k: nat, i: nat)
      returns (a: Action<T>)
    requires Run(n, actions, states) && k < |states| && i < |states[k].threads|
    requires !states[k].threads[i].Idle? && !(states[k].threads[i] == PopAsleep(false) && states[k].items == [])
    ensures Enabled(states[k], a) && (a.Go? || (a.Wake? && states[k].threads[a.t] == PopAsleep(true)))
  {
    InvRun(n, actions, states, k);
    var s := states[k];
    if s.mutex.Some? {
      a := Go(s.mutex.value, 0);
    } else if s.threads[i].PopAsleep? {
      a := Wake(i);
    } else {
      a := Go(i, 0);
    }
  }

  // ---- the queue as one step a call ------------------------------------------------------------

  // What a step does to an atomic queue.
  datatype Effect<T> = Quiet | Stored(x: T) | Taken(y: T)

  function EffectOf<T>(s: State<T>, a: Action<T>): Effect<T>
    requires Enabled(s, a)
  {
    if a.Go? && s.threads[a.t].PushIn? then Stored(s.threads[a.t].x)
    else if a.Go? && s.threads[a.t].PopIn? && s.items != [] then Taken(s.items[0])
    else Quiet
  }

  // An atomic queue: an item joins at the end, and only the first one leaves.
  ghost predicate Atomic<T>(q: seq<T>, e: Effect<T>, q': seq<T>) {
    match e
    case Quiet => q' == q
    case Stored(x) => q' == q + [x]
    case Taken(y) => q == [y] + q'
  }

  // In a call of push or pop that has not had its effect.
  predicate Before<T>(pc: Pc<T>) {
    || pc.PushLock? || pc.PushTest? || pc.PushAsleep? || pc.PushIn?
    || pc.PopLock? || pc.PopTest? || pc.PopAsleep? || pc.PopIn?
  }

  // The item a call of push was given.
  function Given<T>(pc: Pc<T>): Option<T> {
    match pc
    case PushLock(x) => Some(x)
    case PushTest(x) => Some(x)
    case PushAsleep(x, _) => Some(x)
    case PushIn(x) => Some(x)
    case _ => None
  }

  /** The monitor is an atomic queue: each step is none of its steps or exactly one, taken by the
      call it belongs to, once; push stores the item it was given and pop returns the one it
      took. */
  lemma StepIsAtomic<T>(s: State<T>, a: Action<T>)
    requires Inv(s) && Enabled(s, a)
    ensures var s', e, pc := Apply(s, a), EffectOf(s, a), s.threads[a.t];
            && |s'.threads| == |s.threads| && Atomic(s.items, e, s'.items)
            && (e != Quiet <==> Before(pc) && !Before(s'.threads[a.t]))
            && (e.Stored? ==> Given(pc) == Some(e.x))
            && (e.Taken? ==> s'.threads[a.t] == PopOut(e.y))
            && (Before(pc) && Before(s'.threads[a.t]) ==> Given(s'.threads[a.t]) == Given(pc))
            && forall i :: 0 <= i < |s.threads| && i != a.t ==>
                 Before(s'.threads[i]) == Before(s.threads[i]) && Given(s'.threads[i]) == Given(s.threads[i])
  {
    if a.Go? && s.threads[a.t].PopIn? {
      assert s.mutex == Some(a.t);
    }
  }

  // Another thread's step at most notifies a thread that sleeps.
  lemma OthersStay<T>(s: State<T>, a: Action<T>, i: nat)
    requires Inv(s) && Enabled(s, a) && i < |s.threads| && i != a.t
    ensures var s' := Apply(s, a);
            && |s'.threads| == |s.threads|
            && (s'.threads[i] == s.threads[i] || (s.threads[i].PopAsleep? && s'.threads[i] == PopAsleep(true)))
  {
  }
}
