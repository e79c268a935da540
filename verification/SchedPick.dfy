/** schedule(): the previous task leaves if it is going to sleep, and the best runnable task
    is next. */
module SchedPick {
  import opened RunQueues
  import opened Scheduler

  // The first set bit of an array names its first queue with a task.
  lemma FirstQueue(a: PrioArray)
    requires a.Valid()
    ensures var k := FirstSet(a.bitmap, 0);
            && (k < MAX_PRIO ==> a.queue[k] != [] && a.queue[k][0] in a.slot && a.slot[a.queue[k][0]] == k)
            && (a.nrActive == 0 <==> k == MAX_PRIO)
    ensures forall t :: t in a.slot ==> FirstSet(a.bitmap, 0) <= a.slot[t]
  {
    var k := FirstSet(a.bitmap, 0);
    if k < MAX_PRIO {
      assert QueueOk(a.bitmap, a.queue, a.slot, k);
      assert a.queue[k][0] in a.queue[k];
      TotalAtLeast(a.queue, k);
    } else {
      forall j | 0 <= j < MAX_PRIO ensures a.queue[j] == [] {
        assert QueueOk(a.bitmap, a.queue, a.slot, j);
      }
      NoneQueued(a.queue);
    }
    forall t | t in a.slot ensures k <= a.slot[t] {
      assert InSlot(a.queue, a.slot, t);
      assert QueueOk(a.bitmap, a.queue, a.slot, a.slot[t]);
    }
  }

  // Of the queued tasks that are not expired none comes before p, and p is first in its queue.
  ghost predicate Best(rq: Runqueue, p: Task)
    reads rq`active, rq`tasks, rq.active`queue, rq.shortPr`queue, rq.tasks`inArray, rq.tasks`policy, rq.tasks`prio,
          rq.tasks`staticPrio, rq.tasks`shortPrio, rq.tasks`timeLeft, rq.tasks`timeSlice, rq.tasks`sleepAvg
  {
    && p in rq.tasks && p.inArray in {rq.active, rq.shortPr}
    && p == Head(if p.inArray == rq.active then rq.active.queue else rq.shortPr.queue, Key(p))
    && forall t {:trigger Now(t)} :: t in rq.tasks && t.inArray in {rq.active, rq.shortPr} ==> Rank(Now(p)) <= Rank(Now(t))
  }

  function Head(q: Queues, k: int): Task? {
    if 0 <= k < |q| && q[k] != [] then q[k][0] else null
  }

  /** The best task in words: of its own kind it has the least prio or short_prio, real-time tasks come
      before SHORT ones and these before SCHED_OTHER ones, and it is the first in its queue. */
  lemma BestInWords(rq: Runqueue, p: Task, t: Task)
    requires rq.Consistent(rq.tasks) && Best(rq, p) && t in rq.tasks && t.inArray in {rq.active, rq.shortPr}
    ensures p.policy in {SCHED_FIFO, SCHED_RR} && t.policy in {SCHED_FIFO, SCHED_RR} ==> p.prio <= t.prio
    ensures p.policy == SCHED_SHORT ==> t.policy in {SCHED_SHORT, SCHED_OTHER}
    ensures p.policy == SCHED_SHORT && t.policy == SCHED_SHORT ==> p.shortPrio <= t.shortPrio
    ensures p.policy == SCHED_OTHER ==> t.policy == SCHED_OTHER && p.prio <= t.prio
    ensures var q, k := if p.policy == SCHED_SHORT then rq.shortPr.queue else rq.active.queue,
                        if p.policy == SCHED_SHORT then p.shortPrio else p.prio;
            0 <= k < |q| && q[k] != [] && q[k][0] == p
  {
    SoundBut(rq.tasks, p, rq.hz);
    SoundBut(rq.tasks, t, rq.hz);
    RankInWords(Now(t), Now(p), rq.hz);
    assert Home(rq.Trio(), p);
  }

  // A queued task is in a slot under its key.
  lemma QueuedUnder(rq: Runqueue, t: Task, a: PrioArray)
    requires rq.Consistent(rq.tasks) && a in {rq.active, rq.expired, rq.shortPr}
    ensures t in rq.tasks && t.inArray == a ==> t in a.slot && a.slot[t] == Key(t) && Suits(rq.Trio(), a, t)
    ensures t in a.slot ==> t in rq.tasks && t.inArray == a
    ensures a.Valid()
  {
    assert Filed(a, rq.tasks);
    assert t in rq.tasks ==> Home(rq.Trio(), t);
  }

  // The queue schedule() takes the head of holds the best task.
  lemma BestOfActive(rq: Runqueue, p: Task)
    requires rq.Consistent(rq.tasks) && FirstSet(rq.active.bitmap, 0) < MAX_PRIO
    requires p == Head(rq.active.queue, FirstSet(rq.active.bitmap, 0))
    requires FirstSet(rq.active.bitmap, 0) < MAX_RT_PRIO || FirstSet(rq.shortPr.bitmap, 0) == MAX_PRIO
    ensures Best(rq, p)
  {
    assert Filed(rq.active, rq.tasks) && Filed(rq.shortPr, rq.tasks);
    FirstQueue(rq.active);
    FirstQueue(rq.shortPr);
    QueuedUnder(rq, p, rq.active);
    forall t | t in rq.tasks && t.inArray in {rq.active, rq.shortPr} ensures Rank(Now(p)) <= Rank(Now(t)) {
      QueuedUnder(rq, t, rq.active);
      QueuedUnder(rq, t, rq.shortPr);
    }
  }

  lemma BestOfShort(rq: Runqueue, p: Task)
    requires rq.Consistent(rq.tasks) && FirstSet(rq.shortPr.bitmap, 0) < MAX_PRIO
    requires p == Head(rq.shortPr.queue, FirstSet(rq.shortPr.bitmap, 0))
    requires FirstSet(rq.active.bitmap, 0) >= MAX_RT_PRIO
    ensures Best(rq, p)
  {
    assert Filed(rq.active, rq.tasks) && Filed(rq.shortPr, rq.tasks);
    FirstQueue(rq.active);
    FirstQueue(rq.shortPr);
    QueuedUnder(rq, p, rq.shortPr);
    forall t | t in rq.tasks && t.inArray in {rq.active, rq.shortPr} ensures Rank(Now(p)) <= Rank(Now(t)) {
      QueuedUnder(rq, t, rq.active);
      QueuedUnder(rq, t, rq.shortPr);
    }
  }

  // With something to run and nothing active, there is a task in one of the other two arrays.
  lemma SomeQueue(rq: Runqueue)
    requires rq.Consistent(rq.tasks)
    ensures rq.nrRunning == 0 <==> rq.active.nrActive == rq.expired.nrActive == rq.shortPr.nrActive == 0
  {
    assert Filed(rq.active, rq.tasks) && Filed(rq.expired, rq.tasks) && Filed(rq.shortPr, rq.tasks);
  }

  lemma NothingQueued(rq: Runqueue, t: Task)
    requires rq.Consistent(rq.tasks) && rq.nrRunning == 0 && t in rq.tasks
    ensures t.inArray == null
  {
    SomeQueue(rq);
    assert Home(rq.Trio(), t);
    QueuedUnder(rq, t, rq.active);
    QueuedUnder(rq, t, rq.expired);
    QueuedUnder(rq, t, rq.shortPr);
    FirstQueue(rq.active);
    FirstQueue(rq.expired);
    FirstQueue(rq.shortPr);
  }

  // The head of the queue schedule() decides for.
  method Choose(rq: Runqueue) returns (next: Task)
    requires rq.Consistent(rq.tasks) && rq.nrRunning != 0 && (rq.active.nrActive == 0 ==> rq.expired.nrActive == 0)
    ensures Best(rq, next)
  {
    assert Filed(rq.active, rq.tasks) && Filed(rq.shortPr, rq.tasks);
    FirstQueue(rq.active);
    FirstQueue(rq.shortPr);
    SomeQueue(rq);
    var idx := FirstSet(rq.active.bitmap, 0);
    if idx >= MAX_RT_PRIO {
      var idxShort := FirstSet(rq.shortPr.bitmap, 0);
      if idxShort < MAX_PRIO {
        next := rq.shortPr.queue[idxShort][0];
        BestOfShort(rq, next);
      } else {
        next := rq.active.queue[idx][0];
        BestOfActive(rq, next);
      }
    } else {
      next := rq.active.queue[idx][0];
      BestOfActive(rq, next);
    }
  }

  // Whether the previous task leaves the runqueue.
  predicate Leaves(state: RunState, signalPending: bool) {
    state != Running && !(state == Interruptible && signalPending)
  }

  // The previous task sleeps now, unless it is runnable or has a signal to handle.
  method StopPrevious(prev: Task, rq: Runqueue, signalPending: bool)
    requires rq.Valid() && prev == rq.curr
    modifies prev`state, prev`inArray, rq`nrRunning, rq`nrUninterruptible, rq.active`nrActive, rq.active`bitmap,
             rq.active`queue, rq.active`slot, rq.expired`nrActive, rq.expired`bitmap, rq.expired`queue,
             rq.expired`slot, rq.shortPr`nrActive, rq.shortPr`bitmap, rq.shortPr`queue, rq.shortPr`slot
    ensures rq.Consistent(rq.tasks)
    ensures prev.inArray == if old(Leaves(prev.state, signalPending)) then null else old(prev.inArray)
    ensures prev.state == if old(Leaves(prev.state, signalPending)) then old(prev.state) else Running
    ensures rq.nrRunning == old(rq.nrRunning) - if old(Leaves(prev.state, signalPending)) then 1 else 0
    ensures rq.nrUninterruptible ==
            old(rq.nrUninterruptible) + if old(prev.state) == Uninterruptible then 1 else 0
    ensures var gone := if old(Leaves(prev.state, signalPending)) then old(prev.inArray) else null;
            && rq.active.queue == WithoutIf(old(rq.active.queue), gone == rq.active, Key(prev), prev)
            && rq.expired.queue == WithoutIf(old(rq.expired.queue), gone == rq.expired, Key(prev), prev)
            && rq.shortPr.queue == WithoutIf(old(rq.shortPr.queue), gone == rq.shortPr, Key(prev), prev)
  {
    if prev.state == Interruptible && signalPending {
      prev.state := Running;
    } else if prev.state != Running {
      SoundBut(rq.tasks, prev, rq.hz);
      DeactivateTask(prev, rq);
      SoundAgain(rq.tasks, prev, rq.hz);
      Back(prev, rq.Trio(), rq.tasks);
    }
  }

  // Active and expired change places when nothing is active.
  method SwapIfEmpty(rq: Runqueue)
    requires rq.Consistent(rq.tasks)
    modifies rq`active, rq`expired, rq`expiredTimestamp
    ensures rq.Consistent(rq.tasks) && (rq.active.nrActive == 0 ==> rq.expired.nrActive == 0)
    ensures if old(rq.active.nrActive) == 0
            then rq.active == old(rq.expired) && rq.expired == old(rq.active) && rq.expiredTimestamp == 0
            else rq.active == old(rq.active) && rq.expired == old(rq.expired)
                 && rq.expiredTimestamp == old(rq.expiredTimestamp)
  {
    if rq.active.nrActive == 0 {
      Swapped(rq.Trio(), rq.tasks);
      var a := rq.active;
      rq.active := rq.expired;
      rq.expired := a;
      rq.expiredTimestamp := 0;
    }
  }

  method PickNext(rq: Runqueue) returns (next: Task)
    requires rq.Consistent(rq.tasks)
    modifies rq`active, rq`expired, rq`expiredTimestamp
    ensures rq.Consistent(rq.tasks) && (rq.active.nrActive == 0 ==> rq.expired.nrActive == 0)
    ensures if rq.nrRunning != 0 && old(rq.active.nrActive) == 0
            then rq.active == old(rq.expired) && rq.expired == old(rq.active)
            else rq.active == old(rq.active) && rq.expired == old(rq.expired)
    ensures rq.expiredTimestamp == if rq.nrRunning == 0 || old(rq.active.nrActive) == 0 then 0 else old(rq.expiredTimestamp)
    ensures if rq.nrRunning == 0 then next == rq.idle else Best(rq, next)
  {
    SomeQueue(rq);
    if rq.nrRunning == 0 {
      next := rq.idle;
      rq.expiredTimestamp := 0;
    } else {
      SwapIfEmpty(rq);
      next := Choose(rq);
    }
  }

  method SwitchTasks(prev: Task, next: Task, rq: Runqueue)
    requires rq.Consistent(rq.tasks) && prev == rq.curr && (if rq.nrRunning == 0 then next == rq.idle else Best(rq, next))
    modifies prev`needResched, rq`nrSwitches, rq`curr
    ensures rq.Valid() && rq.curr == next && !prev.needResched
    ensures if rq.nrRunning == 0 then next == rq.idle else Best(rq, next)
    ensures rq.nrSwitches == old(rq.nrSwitches) + if next == prev then 0 else 1
  {
    prev.needResched := false;
    if prev != next {
      rq.nrSwitches := rq.nrSwitches + 1;
      rq.curr := next;
    }
  }

  method PickAndSwitch(prev: Task, rq: Runqueue)
    requires rq.Consistent(rq.tasks) && prev == rq.curr
    modifies rq`active, rq`expired, rq`expiredTimestamp, prev`needResched, rq`nrSwitches, rq`curr
    ensures rq.Valid() && (if rq.nrRunning == 0 then rq.curr == rq.idle else Best(rq, rq.curr))
    ensures (rq.active.nrActive == 0 ==> rq.expired.nrActive == 0) && !prev.needResched
    ensures rq.nrSwitches == old(rq.nrSwitches) + if rq.curr == prev then 0 else 1
    ensures if rq.nrRunning != 0 && old(rq.active.nrActive) == 0
            then rq.active == old(rq.expired) && rq.expired == old(rq.active)
            else rq.active == old(rq.active) && rq.expired == old(rq.expired)
    ensures rq.expiredTimestamp == if rq.nrRunning == 0 || old(rq.active.nrActive) == 0 then 0 else old(rq.expiredTimestamp)
  {
    var next := PickNext(rq);
    SwitchTasks(prev, next, rq);
  }

  /** One pass of schedule().  The new current task is idle exactly when nothing is runnable;
      otherwise it is first in its queue and no task of the active and SHORT arrays ranks before
      it, and there are expired tasks only behind active ones. */
  method Schedule(rq: Runqueue, signalPending: bool, jiffies: int)
    requires rq.Valid()
    modifies rq`curr, rq`nrSwitches, rq`active, rq`expired, rq`expiredTimestamp, rq`nrRunning, rq`nrUninterruptible,
             rq.curr`state, rq.curr`inArray, rq.curr`needResched, rq.curr`sleepTimestamp, rq.active`nrActive,
             rq.active`bitmap, rq.active`queue, rq.active`slot, rq.expired`nrActive, rq.expired`bitmap,
             rq.expired`queue, rq.expired`slot, rq.shortPr`nrActive, rq.shortPr`bitmap, rq.shortPr`queue,
             rq.shortPr`slot
    ensures rq.Valid()
    ensures if rq.nrRunning == 0 then rq.curr == rq.idle else Best(rq, rq.curr)
    ensures (rq.active.nrActive == 0 ==> rq.expired.nrActive == 0)
    ensures (rq.active != old(rq.active) ==> rq.expired.nrActive == 0)
    ensures !old(rq.curr).needResched && old(rq.curr).sleepTimestamp == jiffies
    ensures rq.nrSwitches == old(rq.nrSwitches) + if rq.curr == old(rq.curr) then 0 else 1
    ensures old(rq.curr).inArray == if old(Leaves(rq.curr.state, signalPending)) then null else old(rq.curr.inArray)
    ensures old(rq.curr).state == if old(Leaves(rq.curr.state, signalPending)) then old(rq.curr.state) else Running
    ensures rq.nrRunning == old(rq.nrRunning) - if old(Leaves(rq.curr.state, signalPending)) then 1 else 0
    ensures rq.nrUninterruptible ==
            old(rq.nrUninterruptible) + if old(rq.curr.state) == Uninterruptible then 1 else 0
    ensures if rq.nrRunning != 0 && old(rq.active).nrActive == 0
            then rq.active == old(rq.expired) && rq.expired == old(rq.active)
            else rq.active == old(rq.active) && rq.expired == old(rq.expired)
    ensures rq.expiredTimestamp ==
            if rq.nrRunning == 0 || old(rq.active).nrActive == 0 then 0 else old(rq.expiredTimestamp)
    ensures var gone := if old(Leaves(rq.curr.state, signalPending)) then old(rq.curr.inArray) else null;
            && old(rq.active).queue == WithoutIf(old(rq.active.queue), gone == old(rq.active), old(Key(rq.curr)),
                                                 old(rq.curr))
            && old(rq.expired).queue == WithoutIf(old(rq.expired.queue), gone == old(rq.expired), old(Key(rq.curr)),
                    old(rq.curr))
            && rq.shortPr.queue == WithoutIf(old(rq.shortPr.queue), gone == rq.shortPr, old(Key(rq.curr)), old(rq.curr))
    // In words: the previous task leaves when it is not runnable and has no signal that ends its sleep.
    ensures var state := old(rq.curr.state);
            if state in {Uninterruptible, Stopped} || (state == Interruptible && !signalPending)
            then old(rq.curr).inArray == null && rq.nrRunning == old(rq.nrRunning) - 1
            else old(rq.curr).inArray == old(rq.curr.inArray) && old(rq.curr).state == Running
                 && rq.nrRunning == old(rq.nrRunning)
  {
    var prev := rq.curr;
    prev.sleepTimestamp := jiffies;
    StopPrevious(prev, rq, signalPending);
    PickAndSwitch(prev, rq);
  }

  ghost function Marked(rq: Runqueue): set<Task>
    reads rq`tasks, rq.tasks`needResched, rq.idle`needResched
  {
    set t | t in rq.tasks + {rq.idle} && t.needResched
  }

  // A pass clears the mark of the task it was called by, and sets none.
  method PassClears(rq: Runqueue, signalPending: bool, jiffies: int)
    requires rq.Valid()
    modifies rq`curr, rq`nrSwitches, rq`active, rq`expired, rq`expiredTimestamp, rq`nrRunning, rq`nrUninterruptible,
             rq.curr`state, rq.curr`inArray, rq.curr`needResched, rq.curr`sleepTimestamp, rq.active`nrActive,
             rq.active`bitmap, rq.active`queue, rq.active`slot, rq.expired`nrActive, rq.expired`bitmap,
             rq.expired`queue, rq.expired`slot, rq.shortPr`nrActive, rq.shortPr`bitmap, rq.shortPr`queue,
             rq.shortPr`slot
    ensures rq.Valid() && (if rq.nrRunning == 0 then rq.curr == rq.idle else Best(rq, rq.curr))
    ensures Marked(rq) == old(Marked(rq)) - {old(rq.curr)}
    ensures {rq.active, rq.expired} == {old(rq.active), old(rq.expired)}
  {
    ghost var m := Marked(rq);
    Schedule(rq, signalPending, jiffies);
    assert forall t :: t in rq.tasks + {rq.idle} ==> (t in Marked(rq) <==> t in m && t != old(rq.curr));
  }

  /** schedule() as a whole: it passes again as long as the task it has switched to is marked, which
      ends because every pass clears one mark.  `pending` are the tasks with a signal to handle. */
  method ScheduleUntilUnmarked(rq: Runqueue, pending: set<Task>, jiffies: int)
    requires rq.Valid()
    modifies rq`curr, rq`nrSwitches, rq`active, rq`expired, rq`expiredTimestamp, rq`nrRunning, rq`nrUninterruptible,
             rq.tasks`state, rq.tasks`inArray, rq.tasks`needResched, rq.tasks`sleepTimestamp, rq.idle`state,
             rq.idle`inArray, rq.idle`needResched, rq.idle`sleepTimestamp, rq.active`nrActive, rq.active`bitmap,
             rq.active`queue, rq.active`slot, rq.expired`nrActive, rq.expired`bitmap, rq.expired`queue,
             rq.expired`slot, rq.shortPr`nrActive, rq.shortPr`bitmap, rq.shortPr`queue, rq.shortPr`slot
    ensures rq.Valid() && !rq.curr.needResched
    ensures if rq.nrRunning == 0 then rq.curr == rq.idle else Best(rq, rq.curr)
    ensures Marked(rq) <= old(Marked(rq))
  {
    PassClears(rq, rq.curr in pending, jiffies);
    while rq.curr.needResched
      invariant rq.Valid() && (if rq.nrRunning == 0 then rq.curr == rq.idle else Best(rq, rq.curr))
      invariant Marked(rq) <= old(Marked(rq)) && {rq.active, rq.expired} == {old(rq.active), old(rq.expired)}
      decreases |Marked(rq)|
    {
      assert rq.curr in Marked(rq);
      PassClears(rq, rq.curr in pending, jiffies);
    }
  }
}
