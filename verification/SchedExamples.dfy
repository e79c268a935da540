/** Small runqueues on which the scheduler does not do what its comments or its names suggest. */
module SchedExamples {
  import opened Common
  import opened RunQueues
  import opened SchedMath
  import opened Scheduler
  import opened SchedPick
  import opened SchedPolicy
  import opened ShortCalls

  const CHILD := Fields(SCHED_OTHER, 125, 120, -1, 0, 10, 0)

  lemma NewChild()
    ensures Forked(Fields(SCHED_OTHER, 120, 120, -1, 0, 10, 0), 100) == CHILD
  {
    BonusRange(0, 100);
  }

  method EmptyRunqueue() returns (rq: Runqueue)
    ensures rq.Valid() && rq.tasks == {} && rq.hz == 100 && rq.curr == rq.idle && rq.idle.pid == 0
    ensures fresh(rq) && fresh(rq.idle) && fresh(rq.active) && fresh(rq.expired) && fresh(rq.shortPr)
  {
    var idle := new Task(0, MAX_PRIO, 1, {});
    idle.state := Running;
    rq := new Runqueue(100, idle, 1);
  }

  method AddChild(pid: int, rq: Runqueue) returns (p: Task)
    requires rq.Valid() && rq.hz == 100
    modifies rq`tasks, rq`nrRunning, rq.active`nrActive, rq.active`bitmap, rq.active`queue, rq.active`slot,
             rq.shortPr`nrActive, rq.shortPr`bitmap, rq.shortPr`queue, rq.shortPr`slot
    ensures rq.Valid() && fresh(p) && rq.tasks == old(rq.tasks) + {p} && Now(p) == CHILD
    ensures p.inArray == rq.active && !p.needResched && p.pid == pid
  {
    p := new Task(pid, 120, 10, {});
    NewChild();
    assert Now(p) == Fields(SCHED_OTHER, 120, 120, -1, 0, 10, 0);
    WakeUpForked(p, rq, 0);
  }

  method TwoChildren() returns (rq: Runqueue, a: Task, b: Task)
    ensures rq.Valid() && rq.tasks == {a, b} && a != b && rq.curr == rq.idle
    ensures fresh(rq) && fresh(a) && fresh(b) && fresh(rq.idle) && fresh(rq.active) && fresh(rq.expired)
    ensures fresh(rq.shortPr)
    ensures Now(a) == Now(b) == CHILD && !a.needResched && !b.needResched && a.inArray == b.inArray == rq.active
    ensures rq.idle.pid == 0 && a.pid == 1 && b.pid == 2 && rq.hz == 100
  {
    rq := EmptyRunqueue();
    a := AddChild(1, rq);
    b := AddChild(2, rq);
  }

  // Two new children after one pass of schedule().
  method TwoTasks() returns (rq: Runqueue, other: Task)
    ensures rq.Valid() && rq.curr in rq.tasks && other in rq.tasks && other != rq.curr && !rq.curr.needResched
    ensures fresh(rq) && fresh(rq.curr) && fresh(other) && fresh(rq.active) && fresh(rq.expired) && fresh(rq.shortPr)
    ensures Now(rq.curr) == Now(other) == CHILD && rq.curr.inArray == other.inArray == rq.active
    ensures rq.tasks == {rq.curr, other} && DistinctPids(rq.tasks + {rq.idle}) && rq.curr.pid >= 0
  {
    var a, b;
    rq, a, b := TwoChildren();
    QueuedUnder(rq, a, rq.active);
    assert InSlot(rq.active.queue, rq.active.slot, a);
    TotalAtLeast(rq.active.queue, 125);
    Schedule(rq, false, 0);
    if rq.nrRunning == 0 {
      NothingQueued(rq, a);
    }
    other := if rq.curr == a then b else a;
  }

  /** The other task, queued and runnable, gets the best nice value and outranks the current one,
      which is not marked. */
  method NiceMissesReschedule() returns (rq: Runqueue, p: Task)
    ensures rq.Valid() && p in rq.tasks && p.inArray == rq.active && rq.curr in rq.tasks && p != rq.curr
    ensures Rank(Now(p)) < Rank(Now(rq.curr)) && !rq.curr.needResched
  {
    rq, p := TwoTasks();
    SetUserNice(p, -20, rq);
  }

  /** A SHORT task that ranks behind the current SHORT one preempts it, because its prio, which does
      not order SHORT tasks, is smaller. */
  lemma NeedlessReschedule(hz: Hz)
    ensures var p := Fields(SCHED_SHORT, 110, 110, 10, 1, 10, 0);
            var c := Fields(SCHED_SHORT, 120, 120, 5, 1, 10, 0);
            Sound(p, hz) && Sound(c, hz) && Rank(c) < Rank(p) && Preempts(p, c)
  {
  }

  // The current task becomes SHORT.
  method OneShort() returns (rq: Runqueue, other: Task)
    ensures rq.Valid() && rq.tasks == {rq.curr, other} && rq.curr.pid >= 0 && DistinctPids(rq.tasks + {rq.idle})
    ensures fresh(rq) && fresh(rq.curr) && fresh(other) && fresh(rq.active) && fresh(rq.expired) && fresh(rq.shortPr)
    ensures other != rq.curr && Now(other) == CHILD && other.inArray == rq.active
    ensures rq.curr.policy == SCHED_SHORT && rq.curr.inArray == rq.shortPr && rq.curr.shortPrio == 10
  {
    rq, other := TwoTasks();
    var r := SetScheduler(1, rq.curr, SCHED_SHORT, Some(Param(0, 100, 10)), true, true, true, rq, rq.curr, 0);
  }

  // Then the other one does, with the better short_prio.
  method TwoShort() returns (rq: Runqueue, other: Task)
    ensures rq.Valid() && rq.tasks == {rq.curr, other} && rq.curr.pid >= 0 && DistinctPids(rq.tasks + {rq.idle})
    ensures rq.curr.policy == other.policy == SCHED_SHORT && rq.curr.inArray == other.inArray == rq.shortPr
    ensures rq.curr.shortPrio == 10 && other.shortPrio == 5
  {
    rq, other := OneShort();
    var r := SetScheduler(2, other, SCHED_SHORT, Some(Param(0, 100, 5)), true, true, true, rq, rq.curr, 0);
  }

  // Then the current one is not first in the order of the SHORT tasks.
  lemma OtherIsFirst(rq: Runqueue, other: Task)
    requires rq.Valid() && rq.tasks == {rq.curr, other}
    requires rq.curr.policy == other.policy == SCHED_SHORT && rq.curr.inArray == other.inArray == rq.shortPr
    requires rq.curr.shortPrio == 10 && other.shortPrio == 5
    ensures ShortOrder(rq.shortPr.queue) != [] && ShortOrder(rq.shortPr.queue)[0] != rq.curr
  {
    FirstIsBest(rq, rq.curr);
    assert Filed(rq.active, rq.tasks);
    FirstQueue(rq.active);
    if FirstSet(rq.active.bitmap, 0) < MAX_PRIO {
      QueuedUnder(rq, rq.active.queue[FirstSet(rq.active.bitmap, 0)][0], rq.active);
    }
    assert !(Rank(Now(rq.curr)) <= Rank(Now(other)));
  }

  /** The current one is told to be in place 0 all the same. */
  method CurrentIsNotFirst() returns (rq: Runqueue, place: int)
    ensures rq.Valid() && rq.curr in rq.tasks && rq.curr.policy == SCHED_SHORT && rq.curr.inArray == rq.shortPr
    ensures place == 0 && ShortOrder(rq.shortPr.queue) != [] && ShortOrder(rq.shortPr.queue)[0] != rq.curr
  {
    var other;
    rq, other := TwoShort();
    SoundBut(rq.tasks, rq.curr, rq.hz);
    assert rq.tasks + {rq.idle} + {rq.curr} == rq.tasks + {rq.idle};
    place := ShortPlaceInQueue(rq.curr.pid, rq.curr, rq);
    OtherIsFirst(rq, other);
  }
}
