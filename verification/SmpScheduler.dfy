/** The entry points of the scheduler on a machine with two processors: schedule() and the tick
    with their balancing, and the wake-up that may take a sleeping task along. */
module SmpScheduler {
  import opened RunQueues
  import opened SchedMath
  import opened Scheduler
  import opened SchedPick
  import opened LoadBalance
  import opened Balancer

  // Two processors, each as it should be.
  ghost predicate Both(here: Runqueue, other: Runqueue)
    reads here`active, here`expired, here`nrRunning, here`curr, here`tasks, here.active, here.expired, here.shortPr,
          other`active, other`expired, other`nrRunning, other`curr, other`tasks, other.active, other.expired,
          other.shortPr, here.tasks`inArray, here.tasks`policy, here.tasks`prio, here.tasks`staticPrio,
          here.tasks`shortPrio, here.tasks`timeLeft, here.tasks`timeSlice, here.tasks`sleepAvg, here.idle`policy,
          here.idle`prio, here.idle`state, here.curr`inArray, other.tasks`inArray, other.tasks`policy,
          other.tasks`prio, other.tasks`staticPrio, other.tasks`shortPrio, other.tasks`timeLeft,
          other.tasks`timeSlice, other.tasks`sleepAvg, other.idle`policy, other.idle`prio, other.idle`state,
          other.curr`inArray
  {
    Apart(here, other) && forall x {:trigger x.Valid()} :: x in {here, other} ==> x.Valid()
  }

  // ---- steps on one runqueue leave the other alone ---------------------------------------------------

  method StopBeside(prev: Task, here: Runqueue, other: Runqueue, signalPending: bool)
    requires Both(here, other) && prev == here.curr
    modifies prev`state, prev`inArray, here`nrRunning, here`nrUninterruptible, here.active`nrActive,
             here.active`bitmap, here.active`queue, here.active`slot, here.expired`nrActive, here.expired`bitmap,
             here.expired`queue, here.expired`slot, here.shortPr`nrActive, here.shortPr`bitmap, here.shortPr`queue,
             here.shortPr`slot
    ensures Pair(here, other)
    ensures prev.inArray == if old(Leaves(prev.state, signalPending)) then null else old(prev.inArray)
    ensures prev.state == if old(Leaves(prev.state, signalPending)) then old(prev.state) else Running
    ensures here.nrRunning == old(here.nrRunning) - if old(Leaves(prev.state, signalPending)) then 1 else 0
    ensures here.nrUninterruptible ==
            old(here.nrUninterruptible) + if old(prev.state) == Uninterruptible then 1 else 0
    ensures var gone := if old(Leaves(prev.state, signalPending)) then old(prev.inArray) else null;
            && here.active.queue == WithoutIf(old(here.active.queue), gone == here.active, Key(prev), prev)
            && here.expired.queue == WithoutIf(old(here.expired.queue), gone == here.expired, Key(prev), prev)
            && here.shortPr.queue == WithoutIf(old(here.shortPr.queue), gone == here.shortPr, Key(prev), prev)
  {
    StopPrevious(prev, here, signalPending);
  }

  // How a pull left both runqueues: `m1` came from the expired, `m2` from the active tasks there.
  ghost predicate Drawn(here: Runqueue, other: Runqueue, m1: seq<Task>, m2: seq<Task>, qe: Queues, qa: Queues, qh: Queues,
                        th: set<Task>, tb: set<Task>)
    reads here`active, here.active`queue, here`tasks, other`active, other`expired, other`tasks, other.active`queue,
          other.expired`queue, m1`policy, m1`prio, m1`shortPrio, m2`policy, m2`prio, m2`shortPrio
  {
    && other.expired.queue == WithoutAll(qe, m1) && other.active.queue == WithoutAll(qa, m2)
    && here.active.queue == AddedAll(qh, m1 + m2) && Elems(m1 + m2) <= tb
    && here.tasks == th + Elems(m1 + m2) && other.tasks == tb - Elems(m1 + m2)
  }

  // What a pull by an idle processor may move.
  ghost predicate IdlePull(all: seq<Task>, moved: seq<Task>, length: int) {
    FirstOf(all, moved, Allowance(true, length, 0, length)) && |moved| <= 1
  }

  // About to become idle, a processor balances first.
  method PullIfIdle(here: Runqueue, other: Runqueue, me: nat, jiffies: int, decay: int)
      returns (ghost m1: seq<Task>, ghost m2: seq<Task>)
    requires Pair(here, other) && me < 2 && |here.prevNrRunning| == 2
    modifies other.tasks`inArray, other.expired`nrActive, other.expired`bitmap, other.expired`queue, other.expired`slot,
             other.active`nrActive, other.active`bitmap, other.active`queue, other.active`slot, other`nrRunning,
             other`tasks, here`nrRunning, here`tasks, here.active`nrActive, here.active`bitmap, here.active`queue,
             here.active`slot, here.curr`needResched, here`prevNrRunning
    ensures Pair(here, other) && here.nrRunning == old(here.nrRunning) + |m1 + m2|
    ensures Drawn(here, other, m1, m2, old(other.expired.queue), old(other.active.queue), old(here.active.queue),
                  old(here.tasks), old(other.tasks))
    ensures |old(other.expired.queue)| == |old(other.active.queue)| == MAX_PRIO
    ensures here.expired.queue == old(here.expired.queue) && here.shortPr.queue == old(here.shortPr.queue)
    ensures old(here.nrRunning) != 0 ==> m1 + m2 == []
    ensures old(here.nrRunning) == 0 ==>
              IdlePull(old(Candidates(other, Movable(other, me, jiffies, decay))), m1 + m2, old(other.nrRunning))
  {
    TwoArrays(here, other);
    assert here.Sane();
    m1, m2 := [], [];
    assert m1 + m2 == [];
    if here.nrRunning == 0 {
      ghost var able, came;
      m1, m2, able, came := Rebalance(here, other, me, true, jiffies, decay);
    }
  }

  // ---- schedule() --------------------------------------------------------------------------------------

  // Where a pass of schedule() starts from.
  datatype Scene = Scene(prev: Task, r: Arrays, state: RunState, was: PrioArray?, qa: Queues, qe: Queues, qs: Queues,
                         oe: Queues, oa: Queues, th: set<Task>, tb: set<Task>)

  ghost function SceneOf(here: Runqueue, other: Runqueue): Scene
    reads here`active, here`expired, here`curr, here`tasks, here.active`queue, here.expired`queue, here.shortPr`queue,
          here.curr`state, here.curr`inArray, other`active, other`expired, other`tasks, other.active`queue,
          other.expired`queue
  {
    Scene(here.curr, here.Trio(), here.curr.state, here.curr.inArray, here.active.queue, here.expired.queue,
          here.shortPr.queue, other.expired.queue, other.active.queue, here.tasks, other.tasks)
  }

  // The previous task has left its queue if it sleeps; m1 of the expired and m2 of the active tasks
  // of the other processor have joined the active ones here; nothing else has moved.
  ghost predicate Stopped(b: Scene, signalPending: bool, moved: seq<Task>)
    reads b.r.active`queue, b.r.expired`queue, b.r.short`queue, b.prev`state, b.prev`inArray, b.prev`policy, b.prev`prio,
          b.prev`shortPrio, moved`policy, moved`prio, moved`shortPrio
  {
    var p, gone := b.prev, if Leaves(b.state, signalPending) then b.was else null;
    && p.inArray == (if Leaves(b.state, signalPending) then null else b.was)
    && p.state == (if Leaves(b.state, signalPending) then b.state else Running)
    && b.r.active.queue == AddedAll(WithoutIf(b.qa, gone == b.r.active, Key(p), p), moved)
    && b.r.expired.queue == WithoutIf(b.qe, gone == b.r.expired, Key(p), p)
    && b.r.short.queue == WithoutIf(b.qs, gone == b.r.short, Key(p), p)
  }

  ghost predicate Taken(here: Runqueue, other: Runqueue, b: Scene, m1: seq<Task>, m2: seq<Task>)
    reads here`tasks, other`active, other`expired, other`tasks, other.active`queue, other.expired`queue
    reads m1`policy, m1`prio, m1`shortPrio, m2`policy, m2`prio, m2`shortPrio
  {
    && other.expired.queue == WithoutAll(b.oe, m1) && other.active.queue == WithoutAll(b.oa, m2)
    && Elems(m1 + m2) <= b.tb && here.tasks == b.th + Elems(m1 + m2) && other.tasks == b.tb - Elems(m1 + m2)
  }

  // Writing down when prev stopped does not change what the other processor could give away.
  method StampBeside(prev: Task, here: Runqueue, other: Runqueue, me: nat, jiffies: int, decay: int)
    requires Both(here, other) && prev == here.curr
    modifies prev`sleepTimestamp
    ensures here.Valid() && other.Valid() && Movable(other, me, jiffies, decay) == old(Movable(other, me, jiffies, decay))
    ensures prev.sleepTimestamp == jiffies
  {
    assert here.Valid();
    prev.sleepTimestamp := jiffies;
    assert forall t :: t in other.tasks ==> t != prev;
    assert forall t :: t in other.tasks ==>
      CanMigrate(t, other.curr, me, jiffies, decay) == old(CanMigrate(t, other.curr, me, jiffies, decay));
  }

  method StampAndStop(prev: Task, here: Runqueue, other: Runqueue, me: nat, signalPending: bool, jiffies: int, decay: int)
    requires Both(here, other) && prev == here.curr
    modifies here`nrRunning, here`nrUninterruptible, prev`state, prev`inArray, prev`sleepTimestamp,
             here.active`nrActive, here.active`bitmap, here.active`queue, here.active`slot, here.expired`nrActive,
             here.expired`bitmap, here.expired`queue, here.expired`slot, here.shortPr`nrActive, here.shortPr`bitmap,
             here.shortPr`queue, here.shortPr`slot
    ensures Pair(here, other)
    ensures here.nrRunning == old(here.nrRunning) - if old(Leaves(here.curr.state, signalPending)) then 1 else 0
    ensures Stopped(old(SceneOf(here, other)), signalPending, []) && prev.sleepTimestamp == jiffies
    ensures here.nrUninterruptible ==
            old(here.nrUninterruptible) + if old(prev.state) == Uninterruptible then 1 else 0
    ensures Movable(other, me, jiffies, decay) == old(Movable(other, me, jiffies, decay))
    ensures other.active.queue == old(other.active.queue) && other.expired.queue == old(other.expired.queue)
  {
    StampBeside(prev, here, other, me, jiffies, decay);
    StopBeside(prev, here, other, signalPending);
  }

  // The pull, seen from the start of the pass.
  method PullKeeping(prev: Task, here: Runqueue, other: Runqueue, me: nat, signalPending: bool, jiffies: int, decay: int,
                     ghost b: Scene)
      returns (ghost m1: seq<Task>, ghost m2: seq<Task>)
    requires Pair(here, other) && me < 2 && |here.prevNrRunning| == 2 && b.prev == prev && prev !in other.tasks
    requires Stopped(b, signalPending, []) && b.r == here.Trio()
    requires b.oe == other.expired.queue && b.oa == other.active.queue && b.th == here.tasks && b.tb == other.tasks
    modifies other.tasks`inArray, other.expired`nrActive, other.expired`bitmap, other.expired`queue, other.expired`slot,
             other.active`nrActive, other.active`bitmap, other.active`queue, other.active`slot, other`nrRunning,
             other`tasks, here`nrRunning, here`tasks, here.active`nrActive, here.active`bitmap, here.active`queue,
             here.active`slot, here.curr`needResched, here`prevNrRunning
    ensures Pair(here, other) && here.nrRunning == old(here.nrRunning) + |m1 + m2|
    ensures |old(other.expired.queue)| == |old(other.active.queue)| == MAX_PRIO
    ensures old(here.nrRunning) != 0 ==> m1 + m2 == []
    ensures old(here.nrRunning) == 0 ==>
              IdlePull(old(Candidates(other, Movable(other, me, jiffies, decay))), m1 + m2, old(other.nrRunning))
    ensures Taken(here, other, b, m1, m2) && Stopped(b, signalPending, m1 + m2)
  {
    m1, m2 := PullIfIdle(here, other, me, jiffies, decay);
  }

  method StopAndPull(prev: Task, here: Runqueue, other: Runqueue, me: nat, signalPending: bool, jiffies: int, decay: int)
      returns (ghost m1: seq<Task>, ghost m2: seq<Task>)
    requires Both(here, other) && me < 2 && |here.prevNrRunning| == 2 && prev == here.curr
    modifies here`nrRunning, here`nrUninterruptible, here`tasks, here`prevNrRunning, prev`state, prev`inArray,
             prev`needResched, prev`sleepTimestamp, here.active`nrActive, here.active`bitmap,
             here.active`queue, here.active`slot, here.expired`nrActive, here.expired`bitmap, here.expired`queue,
             here.expired`slot, here.shortPr`nrActive, here.shortPr`bitmap, here.shortPr`queue, here.shortPr`slot,
             other.tasks`inArray, other.expired`nrActive, other.expired`bitmap, other.expired`queue,
             other.expired`slot, other.active`nrActive, other.active`bitmap, other.active`queue, other.active`slot,
             other`nrRunning, other`tasks
    ensures Pair(here, other)
    ensures |old(other.expired.queue)| == |old(other.active.queue)| == MAX_PRIO
    ensures var left := old(here.nrRunning) - if old(Leaves(here.curr.state, signalPending)) then 1 else 0;
            && here.nrRunning == left + |m1 + m2|
            && (left != 0 ==> m1 + m2 == [])
            && (left == 0 ==>
                  IdlePull(old(Candidates(other, Movable(other, me, jiffies, decay))), m1 + m2, old(other.nrRunning)))
    ensures Taken(here, other, old(SceneOf(here, other)), m1, m2)
    ensures Stopped(old(SceneOf(here, other)), signalPending, m1 + m2) && prev.sleepTimestamp == jiffies
    ensures here.nrUninterruptible ==
            old(here.nrUninterruptible) + if old(prev.state) == Uninterruptible then 1 else 0
  {
    assert here.Valid();
    ghost var b := SceneOf(here, other);
    StampAndStop(prev, here, other, me, signalPending, jiffies, decay);
    m1, m2 := PullKeeping(prev, here, other, me, signalPending, jiffies, decay, b);
  }

  method PickBeside(prev: Task, here: Runqueue, other: Runqueue)
    requires Pair(here, other) && prev == here.curr
    modifies here`active, here`expired, here`expiredTimestamp, prev`needResched, here`nrSwitches, here`curr
    ensures Both(here, other) && !prev.needResched
    ensures if here.nrRunning == 0 then here.curr == here.idle else Best(here, here.curr)
    ensures here.active.nrActive == 0 ==> here.expired.nrActive == 0
    ensures here.nrSwitches == old(here.nrSwitches) + if here.curr == prev then 0 else 1
    ensures if here.nrRunning != 0 && old(here.active.nrActive) == 0
            then here.active == old(here.expired) && here.expired == old(here.active)
            else here.active == old(here.active) && here.expired == old(here.expired)
    ensures here.expiredTimestamp ==
            if here.nrRunning == 0 || old(here.active.nrActive) == 0 then 0 else old(here.expiredTimestamp)
  {
    assert here.Sane() && other.Valid();
    PickAndSwitch(prev, here);
  }

  // Picking moves no task.
  method PickKeeping(prev: Task, here: Runqueue, other: Runqueue, signalPending: bool, ghost b: Scene, ghost m1: seq<Task>,
                     ghost m2: seq<Task>)
    requires Pair(here, other) && prev == here.curr && Taken(here, other, b, m1, m2) && Stopped(b, signalPending, m1 + m2)
    modifies here`active, here`expired, here`expiredTimestamp, prev`needResched, here`nrSwitches, here`curr
    ensures Both(here, other) && !prev.needResched
    ensures if here.nrRunning == 0 then here.curr == here.idle else Best(here, here.curr)
    ensures here.active.nrActive == 0 ==> here.expired.nrActive == 0
    ensures here.nrSwitches == old(here.nrSwitches) + if here.curr == prev then 0 else 1
    ensures if here.nrRunning != 0 && old(here.active.nrActive) == 0
            then here.active == old(here.expired) && here.expired == old(here.active)
            else here.active == old(here.active) && here.expired == old(here.expired)
    ensures here.expiredTimestamp ==
            if here.nrRunning == 0 || old(here.active.nrActive) == 0 then 0 else old(here.expiredTimestamp)
    ensures Taken(here, other, b, m1, m2) && Stopped(b, signalPending, m1 + m2)
  {
    PickBeside(prev, here, other);
  }

  /** One pass of schedule().  The processor is idle afterwards exactly when it had no task left and
      could not pull one; it pulls only then, and one task at most. */
  method ScheduleSmp(here: Runqueue, other: Runqueue, me: nat, signalPending: bool, jiffies: int, decay: int)
      returns (ghost m1: seq<Task>, ghost m2: seq<Task>)
    requires Both(here, other) && me < 2 && |here.prevNrRunning| == 2
    modifies here`curr, here`nrSwitches, here`active, here`expired, here`expiredTimestamp, here`nrRunning,
             here`nrUninterruptible, here`tasks, here`prevNrRunning, here.curr`state, here.curr`inArray,
             here.curr`needResched, here.curr`sleepTimestamp, here.active`nrActive, here.active`bitmap,
             here.active`queue, here.active`slot, here.expired`nrActive, here.expired`bitmap, here.expired`queue,
             here.expired`slot, here.shortPr`nrActive, here.shortPr`bitmap, here.shortPr`queue, here.shortPr`slot,
             other.tasks`inArray, other.expired`nrActive, other.expired`bitmap, other.expired`queue,
             other.expired`slot, other.active`nrActive, other.active`bitmap, other.active`queue, other.active`slot,
             other`nrRunning, other`tasks
    ensures Both(here, other)
    ensures if here.nrRunning == 0 then here.curr == here.idle else Best(here, here.curr)
    ensures (here.active.nrActive == 0 ==> here.expired.nrActive == 0) && !old(here.curr).needResched
    ensures old(here.curr).sleepTimestamp == jiffies
    ensures here.nrUninterruptible ==
            old(here.nrUninterruptible) + if old(here.curr.state) == Uninterruptible then 1 else 0
    ensures here.nrSwitches == old(here.nrSwitches) + if here.curr == old(here.curr) then 0 else 1
    ensures if here.nrRunning != 0 && old(here.active).nrActive == 0
            then here.active == old(here.expired) && here.expired == old(here.active)
            else here.active == old(here.active) && here.expired == old(here.expired)
    ensures here.expiredTimestamp ==
            if here.nrRunning == 0 || old(here.active).nrActive == 0 then 0 else old(here.expiredTimestamp)
    ensures |old(other.expired.queue)| == |old(other.active.queue)| == MAX_PRIO
    ensures var left := old(here.nrRunning) - if old(Leaves(here.curr.state, signalPending)) then 1 else 0;
            && here.nrRunning == left + |m1 + m2|
            && (left != 0 ==> m1 + m2 == [])
            && (left == 0 ==>
                  IdlePull(old(Candidates(other, Movable(other, me, jiffies, decay))), m1 + m2, old(other.nrRunning)))
    ensures Taken(here, other, old(SceneOf(here, other)), m1, m2)
    ensures Stopped(old(SceneOf(here, other)), signalPending, m1 + m2)
  {
    var prev := here.curr;
    ghost var b := SceneOf(here, other);
    m1, m2 := StopAndPull(prev, here, other, me, signalPending, jiffies, decay);
    PickKeeping(prev, here, other, signalPending, b, m1, m2);
  }

  // ---- scheduler_tick() --------------------------------------------------------------------------------

  // Ticks between two balancings of a busy and of an idle processor.
  function BusyPeriod(hz: Hz): int { hz / 4 }

  function IdlePeriod(hz: Hz): (n: int)
    ensures n > 0
  {
    if hz / 1000 == 0 then 1 else hz / 1000
  }

  method TickBeside(here: Runqueue, other: Runqueue, me: nat, jiffies: int, decay: int)
    requires Both(here, other)
    modifies here.curr`inArray, here.curr`policy, here.curr`staticPrio, here.curr`timeLeft, here.curr`sleepAvg,
             here.curr`prio, here.curr`timeSlice, here.curr`needResched, here`expiredTimestamp, here.active`nrActive,
             here.active`bitmap, here.active`queue, here.active`slot, here.expired`nrActive, here.expired`bitmap,
             here.expired`queue, here.expired`slot, here.shortPr`nrActive, here.shortPr`bitmap, here.shortPr`queue,
             here.shortPr`slot
    ensures Both(here, other)
    ensures other.active.queue == old(other.active.queue) && other.expired.queue == old(other.expired.queue)
    ensures Movable(other, me, jiffies, decay) == old(Movable(other, me, jiffies, decay))
    ensures here.curr.needResched == NeedIn(old(TickSceneOf(here)), jiffies, here.nrRunning, here.hz)
    ensures AfterTick(here, old(TickSceneOf(here)), jiffies, here.nrRunning, here.active.queue)
  {
    assert here.Valid() && other.Valid();
    TickCurrent(here, jiffies);
  }

  // load_balance() keeps both processors in order when the current task here is.
  method BalanceBoth(here: Runqueue, other: Runqueue, me: nat, idle: bool, jiffies: int, decay: int)
      returns (ghost m1: seq<Task>, ghost m2: seq<Task>)
    requires Both(here, other) && me < 2 && |here.prevNrRunning| == 2
    modifies other.tasks`inArray, other.expired`nrActive, other.expired`bitmap, other.expired`queue,
             other.expired`slot, other.active`nrActive, other.active`bitmap, other.active`queue, other.active`slot,
             other`nrRunning, other`tasks, here`nrRunning, here`tasks, here.active`nrActive, here.active`bitmap,
             here.active`queue, here.active`slot, here.curr`needResched, here`prevNrRunning
    ensures Both(here, other)
    ensures Moved(here, other, m1, m2, old(other.expired.queue), old(Snapshot(other.active, here, other)))
    ensures |old(other.expired.queue)| == |old(other.active.queue)| == MAX_PRIO && |here.prevNrRunning| == 2
    ensures FirstOf(old(Candidates(other, Movable(other, me, jiffies, decay))), m1 + m2,
                    Allowance(idle, Load(old(other.nrRunning), old(here.prevNrRunning)[1 - me], idle),
                              OwnLoad(old(here.nrRunning), old(here.prevNrRunning)[me], idle), old(other.nrRunning)))
  {
    assert here.Valid() && other.Valid();
    ghost var able, came;
    m1, m2, able, came := Rebalance(here, other, me, idle, jiffies, decay);
    assert here.Sane() && here.Current();
  }

  method BalanceIf(here: Runqueue, other: Runqueue, me: nat, idle: bool, due: bool, jiffies: int, decay: int)
      returns (ghost m1: seq<Task>, ghost m2: seq<Task>)
    requires Both(here, other) && me < 2 && |here.prevNrRunning| == 2
    modifies other.tasks`inArray, other.expired`nrActive, other.expired`bitmap, other.expired`queue,
             other.expired`slot, other.active`nrActive, other.active`bitmap, other.active`queue, other.active`slot,
             other`nrRunning, other`tasks, here`nrRunning, here`tasks, here.active`nrActive, here.active`bitmap,
             here.active`queue, here.active`slot, here.curr`needResched, here`prevNrRunning
    ensures Both(here, other)
    ensures Moved(here, other, m1, m2, old(other.expired.queue), old(Snapshot(other.active, here, other)))
    ensures here.expired.queue == old(here.expired.queue) && here.shortPr.queue == old(here.shortPr.queue)
    ensures |old(other.expired.queue)| == |old(other.active.queue)| == MAX_PRIO
    ensures if !due then m1 + m2 == []
            else FirstOf(old(Candidates(other, Movable(other, me, jiffies, decay))), m1 + m2,
                         Allowance(idle, Load(old(other.nrRunning), old(here.prevNrRunning)[1 - me], idle),
                                   OwnLoad(old(here.nrRunning), old(here.prevNrRunning)[me], idle),
                                   old(other.nrRunning)))
  {
    assert here.Valid() && other.Valid();
    TwoArrays(here, other);
    m1, m2 := [], [];
    assert m1 + m2 == [];
    if due {
      m1, m2 := BalanceBoth(here, other, me, idle, jiffies, decay);
    }
  }

  // Balancing leaves what the tick has done.
  method BalanceAfter(here: Runqueue, other: Runqueue, me: nat, idle: bool, due: bool, jiffies: int, decay: int,
                      ghost b: TickScene)
      returns (ghost m1: seq<Task>, ghost m2: seq<Task>)
    requires Both(here, other) && me < 2 && |here.prevNrRunning| == 2
    requires AfterTick(here, b, jiffies, here.nrRunning, here.active.queue)
    modifies other.tasks`inArray, other.expired`nrActive, other.expired`bitmap, other.expired`queue,
             other.expired`slot, other.active`nrActive, other.active`bitmap, other.active`queue, other.active`slot,
             other`nrRunning, other`tasks, here`nrRunning, here`tasks, here.active`nrActive, here.active`bitmap,
             here.active`queue, here.active`slot, here.curr`needResched, here`prevNrRunning
    ensures Both(here, other)
    ensures Moved(here, other, m1, m2, old(other.expired.queue), old(Snapshot(other.active, here, other)))
    ensures |old(other.expired.queue)| == |old(other.active.queue)| == MAX_PRIO
    ensures if !due then m1 + m2 == []
            else FirstOf(old(Candidates(other, Movable(other, me, jiffies, decay))), m1 + m2,
                         Allowance(idle, Load(old(other.nrRunning), old(here.prevNrRunning)[1 - me], idle),
                                   OwnLoad(old(here.nrRunning), old(here.prevNrRunning)[me], idle),
                                   old(other.nrRunning)))
    ensures AfterTick(here, b, jiffies, old(here.nrRunning), old(here.active.queue))
  {
    m1, m2 := BalanceIf(here, other, me, idle, due, jiffies, decay);
  }

  // Whether this tick balances.
  predicate Balances(idle: bool, onCpu: bool, jiffies: int, hz: Hz) {
    if idle then jiffies % IdlePeriod(hz) == 0 else onCpu && jiffies % BusyPeriod(hz) == 0
  }

  // An idle processor balances every tick, or every millisecond if ticks are shorter; one on which a task
  // runs, four times a second.
  lemma BalancingIsDue(idle: bool, onCpu: bool, jiffies: int, hz: Hz)
    ensures idle && hz < 2000 ==> Balances(idle, onCpu, jiffies, hz)
    ensures idle && 2000 <= hz ==> (Balances(idle, onCpu, jiffies, hz) <==> jiffies % (hz / 1000) == 0)
    ensures !idle ==> (Balances(idle, onCpu, jiffies, hz) <==> onCpu && jiffies % (hz / 4) == 0)
  {
  }

  /** The timer interrupt with its balancing.  The current task is treated as by the tick alone, and
      marked besides when a task with a better prio has been pulled. */
  method TickSmp(here: Runqueue, other: Runqueue, me: nat, jiffies: int, decay: int)
      returns (ghost active: Queues, ghost m1: seq<Task>, ghost m2: seq<Task>)
    requires Both(here, other) && me < 2 && |here.prevNrRunning| == 2
    modifies here.curr`inArray, here.curr`policy, here.curr`staticPrio, here.curr`timeLeft, here.curr`sleepAvg,
             here.curr`prio, here.curr`timeSlice, here.curr`needResched, here`expiredTimestamp, here.active`nrActive,
             here.active`bitmap, here.active`queue, here.active`slot, here.expired`nrActive, here.expired`bitmap,
             here.expired`queue, here.expired`slot, here.shortPr`nrActive, here.shortPr`bitmap, here.shortPr`queue,
             here.shortPr`slot, here`nrRunning, here`tasks, here`prevNrRunning, other.tasks`inArray,
             other.expired`nrActive, other.expired`bitmap, other.expired`queue, other.expired`slot,
             other.active`nrActive, other.active`bitmap, other.active`queue, other.active`slot, other`nrRunning,
             other`tasks
    ensures Both(here, other)
    ensures AfterTick(here, old(TickSceneOf(here)), jiffies, old(here.nrRunning), active)
    ensures here.active.queue == AddedAll(active, m1 + m2)
    ensures here.curr.needResched ==
            (NeedIn(old(TickSceneOf(here)), jiffies, old(here.nrRunning), here.hz) || Better(m1 + m2, here.curr))
    ensures other.expired.queue == WithoutAll(old(other.expired.queue), m1)
    ensures other.active.queue == WithoutAll(old(other.active.queue), m2)
    ensures here.nrRunning == old(here.nrRunning) + |m1 + m2| && other.nrRunning == old(other.nrRunning) - |m1 + m2|
    ensures |old(other.expired.queue)| == |old(other.active.queue)| == MAX_PRIO
    ensures var idle := old(here.curr == here.idle);
            if !Balances(idle, old(OnCpu(here)), jiffies, here.hz) then m1 + m2 == []
            else FirstOf(old(Candidates(other, Movable(other, me, jiffies, decay))), m1 + m2,
                         Allowance(idle, Load(old(other.nrRunning), old(here.prevNrRunning)[1 - me], idle),
                                   OwnLoad(old(here.nrRunning), old(here.prevNrRunning)[me], idle),
                                   old(other.nrRunning)))
  {
    var p := here.curr;
    var idle := p == here.idle;
    var onCpu := !idle && (p.inArray == here.active || p.inArray == here.shortPr);
    ghost var b := TickSceneOf(here);
    TickBeside(here, other, me, jiffies, decay);
    active := here.active.queue;
    m1, m2 := BalanceAfter(here, other, me, idle, Balances(idle, onCpu, jiffies, here.hz), jiffies, decay, b);
  }

  // ---- try_to_wake_up() --------------------------------------------------------------------------------

  lemma Swap(here: Runqueue, there: Runqueue)
    requires Both(here, there)
    ensures Both(there, here)
  {
    assert here.Valid() && there.Valid();
  }

  // A task that is in no queue belongs to another processor from now on.
  method Migrate(p: Task, here: Runqueue, there: Runqueue)
    requires Both(here, there) && p in there.tasks && p.inArray == null
    modifies here`tasks, there`tasks
    ensures Both(here, there) && here.tasks == old(here.tasks) + {p} && there.tasks == old(there.tasks) - {p}
  {
    assert here.Valid() && there.Valid();
    Aside(p, there.Trio(), there.tasks);
    SoundBut(there.tasks, p, there.hz);
    here.tasks := here.tasks + {p};
    there.tasks := there.tasks - {p};
    assert here.tasks - {p} == old(here.tasks);
    Back(p, here.Trio(), here.tasks);
    SoundAgain(here.tasks, p, here.hz);
    assert here.Valid() && there.Valid();
  }

  // What a wake-up of p does on the runqueue it happens on.
  ghost predicate Woken(p: Task, rq: Runqueue, asleep: bool, qa: Queues, qs: Queues, need: bool)
    reads p`inArray, p`policy, p`prio, p`staticPrio, p`shortPrio, p`timeLeft, p`timeSlice, p`sleepAvg, p`state,
          rq`active, rq`curr, rq.active`queue, rq.shortPr`queue, rq.curr`needResched, rq.curr`policy, rq.curr`prio,
          rq.curr`staticPrio, rq.curr`shortPrio, rq.curr`timeLeft, rq.curr`timeSlice, rq.curr`sleepAvg
  {
    && p.state == Running
    && (asleep ==> p.inArray == if p.policy == SCHED_SHORT then rq.shortPr else rq.active)
    && rq.active.queue == AddedIf(qa, asleep && p.policy != SCHED_SHORT, Key(p), p)
    && rq.shortPr.queue == AddedIf(qs, asleep && p.policy == SCHED_SHORT, Key(p), p)
    && rq.curr.needResched == (need || (asleep && Preempts(Now(p), Now(rq.curr))))
  }

  method WakeBeside(p: Task, rq: Runqueue, other: Runqueue, jiffies: int) returns (success: bool)
    requires Both(rq, other) && p in rq.tasks
    modifies p`inArray, p`sleepAvg, p`prio, p`state, rq.active`nrActive, rq.active`bitmap, rq.active`queue,
             rq.active`slot, rq.shortPr`nrActive, rq.shortPr`bitmap, rq.shortPr`queue, rq.shortPr`slot, rq`nrRunning,
             rq`nrUninterruptible, rq.curr`needResched
    ensures Both(rq, other) && success == (old(p.inArray) == null)
    ensures Now(p) == if success then Slept(old(Now(p)), Elapsed(jiffies, p.sleepTimestamp), rq.hz) else old(Now(p))
    ensures !success ==> p.inArray == old(p.inArray)
    ensures Woken(p, rq, success, old(rq.active.queue), old(rq.shortPr.queue), old(rq.curr.needResched))
    ensures rq.nrUninterruptible == old(rq.nrUninterruptible) - if success && old(p.state) == Uninterruptible then 1 else 0
    ensures other.active.queue == old(other.active.queue) && other.shortPr.queue == old(other.shortPr.queue)
    ensures other.curr.needResched == old(other.curr.needResched)
  {
    assert rq.Valid() && other.Valid();
    assert rq.curr != other.curr;
    success := TryToWakeUp(p, rq, jiffies);
  }

  // Whether a wake-up takes the task along to the waking processor.
  predicate Follows(p: Task, here: int, sync: bool)
    reads p`inArray, p`cpusAllowed
  {
    p.inArray == null && sync && here in p.cpusAllowed
  }

  /** A synchronous wake-up takes a sleeping task of another processor along if it may run here;
      any other happens where the task is.  The other runqueue loses at most the sleeping task. */
  method TryToWakeUpSmp(p: Task, here: Runqueue, there: Runqueue, me: int, sync: bool, jiffies: int) returns (success: bool)
    requires Both(here, there) && p in there.tasks
    modifies p`inArray, p`sleepAvg, p`prio, p`state, here.active`nrActive, here.active`bitmap, here.active`queue,
             here.active`slot, here.shortPr`nrActive, here.shortPr`bitmap, here.shortPr`queue, here.shortPr`slot,
             here`nrRunning, here`nrUninterruptible, here.curr`needResched, here`tasks, there.active`nrActive,
             there.active`bitmap, there.active`queue, there.active`slot, there.shortPr`nrActive, there.shortPr`bitmap,
             there.shortPr`queue, there.shortPr`slot, there`nrRunning, there`nrUninterruptible,
             there.curr`needResched, there`tasks
    ensures Both(here, there) && success == (old(p.inArray) == null)
    ensures Now(p) == if success then Slept(old(Now(p)), Elapsed(jiffies, p.sleepTimestamp), here.hz) else old(Now(p))
    ensures here.nrUninterruptible + there.nrUninterruptible == old(here.nrUninterruptible + there.nrUninterruptible)
              - if success && old(p.state) == Uninterruptible then 1 else 0
    ensures if old(p.inArray == null && sync && me in p.cpusAllowed)
            then here.tasks == old(here.tasks) + {p} && there.tasks == old(there.tasks) - {p}
            else here.tasks == old(here.tasks) && there.tasks == old(there.tasks)
    ensures var follows := old(Follows(p, me, sync));
            var rq, other := if follows then here else there, if follows then there else here;
            && Woken(p, rq, success, old(rq.active.queue), old(rq.shortPr.queue), old(rq.curr.needResched))
            && other.active.queue == old(other.active.queue) && other.shortPr.queue == old(other.shortPr.queue)
            && other.curr.needResched == old(other.curr.needResched)
  {
    if p.inArray == null && sync && there.curr != p && me in p.cpusAllowed {
      Migrate(p, here, there);
      success := WakeBeside(p, here, there, jiffies);
    } else {
      assert there.Valid();
      Swap(here, there);
      success := WakeBeside(p, there, here, jiffies);
      Swap(there, here);
    }
  }
}
