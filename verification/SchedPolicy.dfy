/** set_user_nice, setscheduler, and the start of a new task. */
module SchedPolicy {
  import opened Common
  import opened RunQueues
  import opened SchedMath
  import opened Scheduler

  // ---- set_user_nice ---------------------------------------------------------------------------------

  // Nice values run from -20 to 19, static priorities from 100 to 139.
  function NiceToPrio(nice: int): int {
    MAX_RT_PRIO + nice + 20
  }

  // A SHORT task keeps its nice value; so does any task asked for one out of range.
  predicate KeepsNice(f: Fields, nice: int) {
    f.policy == SCHED_SHORT || f.staticPrio == NiceToPrio(nice) || nice < -20 || nice > 19
  }

  function Niced(f: Fields, nice: int): Fields {
    if KeepsNice(f, nice) then f
    else if f.prio < MAX_RT_PRIO then f.(staticPrio := NiceToPrio(nice))
    else f.(staticPrio := NiceToPrio(nice), prio := NiceToPrio(nice))
  }

  lemma NicedIsSound(f: Fields, nice: int, hz: Hz)
    requires Sound(f, hz)
    ensures Sound(Niced(f, nice), hz) && Niced(f, nice).policy == f.policy
    ensures f.policy == SCHED_SHORT ==> Niced(f, nice) == f
  {
  }

  // p goes from under key k, if it leaves, and joins the tail under key k', if it comes.
  function Shifted(q: Queues, leaves: bool, k: int, comes: bool, k': int, p: Task): Queues {
    AddedIf(WithoutIf(q, leaves, k, p), comes, k', p)
  }

  lemma ShiftedLast(q: Queues, leaves: bool, k: int, k': int, p: Task)
    requires 0 <= k' < |Shifted(q, leaves, k, true, k', p)|
    ensures LastOf(Shifted(q, leaves, k, true, k', p), k') == p
  {
  }

  // A queued task is requeued under its new priority.
  method Renice(p: Task, nice: int, rq: Runqueue)
    requires rq.Valid() && p in rq.tasks && !KeepsNice(Now(p), nice) && p.policy == SCHED_OTHER && p.inArray != null
    modifies p`staticPrio, p`prio, p`inArray, rq.active`nrActive, rq.active`bitmap, rq.active`queue, rq.active`slot,
             rq.expired`nrActive, rq.expired`bitmap, rq.expired`queue, rq.expired`slot
    ensures rq.Valid() && p.inArray == old(p.inArray)
    ensures Now(p) == old(Now(p)).(staticPrio := NiceToPrio(nice), prio := NiceToPrio(nice))
    ensures rq.active.queue == Shifted(old(rq.active.queue), p.inArray == rq.active, old(p.prio),
                                       p.inArray == rq.active, p.prio, p)
    ensures rq.expired.queue == Shifted(old(rq.expired.queue), p.inArray == rq.expired, old(p.prio),
                                        p.inArray == rq.expired, p.prio, p)
  {
    ghost var r := rq.Trio();
    SoundBut(rq.tasks, p, rq.hz);
    assert Home(r, p);
    var a := p.inArray;
    Leave(p, a, r, rq.tasks);
    p.staticPrio := NiceToPrio(nice);
    p.prio := NiceToPrio(nice);
    Enter(p, a, r, rq.tasks - {p});
    assert rq.tasks - {p} + {p} == rq.tasks;
    SoundAgain(rq.tasks, p, rq.hz);
  }

  method SetNice(p: Task, nice: int, rq: Runqueue)
    requires rq.Valid() && p in rq.tasks && !KeepsNice(Now(p), nice) && p.policy == SCHED_OTHER && p.inArray != null
    modifies p`staticPrio, p`prio, p`inArray, rq.curr`needResched, rq.active`nrActive, rq.active`bitmap,
             rq.active`queue, rq.active`slot, rq.expired`nrActive, rq.expired`bitmap, rq.expired`queue, rq.expired`slot
    ensures rq.Valid() && p.inArray == old(p.inArray)
    ensures Now(p) == old(Now(p)).(staticPrio := NiceToPrio(nice), prio := NiceToPrio(nice))
    ensures rq.active.queue == Shifted(old(rq.active.queue), p.inArray == rq.active, old(p.prio),
                                       p.inArray == rq.active, p.prio, p)
    ensures rq.expired.queue == Shifted(old(rq.expired.queue), p.inArray == rq.expired, old(p.prio),
                                        p.inArray == rq.expired, p.prio, p)
    ensures LastOf(p.inArray.queue, p.prio) == p
    ensures rq.curr.needResched == (old(rq.curr.needResched) || p == rq.curr)
  {
    Renice(p, nice, rq);
    ghost var a := p.inArray;
    assert Home(rq.Trio(), p) && Filed(a, rq.tasks);
    ShiftedLast(if a == rq.active then old(rq.active.queue) else old(rq.expired.queue), true, old(p.prio), p.prio, p);
    if NiceToPrio(nice) < p.staticPrio || p == rq.curr {
      rq.curr.needResched := true;
    }
  }

  /** The current task is marked for rescheduling when it is the one that changes.  It is not
      when another task gains a better priority than it: by the time the old static priority is
      compared with the new one, it has been overwritten. */
  method SetUserNice(p: Task, nice: int, rq: Runqueue)
    requires rq.Valid() && p in rq.tasks
    modifies p`staticPrio, p`prio, p`inArray, rq.curr`needResched, rq.active`nrActive, rq.active`bitmap,
             rq.active`queue, rq.active`slot, rq.expired`nrActive, rq.expired`bitmap, rq.expired`queue, rq.expired`slot
    ensures rq.Valid() && p.inArray == old(p.inArray) && Now(p) == Niced(old(Now(p)), nice)
    ensures var moves := !old(KeepsNice(Now(p), nice) || RtTask(p));
            && rq.active.queue == Shifted(old(rq.active.queue), moves && p.inArray == rq.active, old(p.prio),
                                          moves && p.inArray == rq.active, p.prio, p)
            && rq.expired.queue == Shifted(old(rq.expired.queue), moves && p.inArray == rq.expired, old(p.prio),
                                           moves && p.inArray == rq.expired, p.prio, p)
    ensures rq.curr.needResched ==
            (old(rq.curr.needResched) || (p == rq.curr && !old(KeepsNice(Now(p), nice) || RtTask(p))))
    // In words: a SHORT task, a nice value out of range and the old one change nothing;
    ensures old(p.policy) == SCHED_SHORT || nice < -20 || 19 < nice || old(p.staticPrio) == 120 + nice ==>
              p.staticPrio == old(p.staticPrio) && p.prio == old(p.prio)
              && rq.curr.needResched == old(rq.curr.needResched)
              && rq.active.queue == old(rq.active.queue) && rq.expired.queue == old(rq.expired.queue)
    // any other task gets the static priority, and a SCHED_OTHER one the priority and the last place there.
    ensures old(p.policy) != SCHED_SHORT && -20 <= nice <= 19 && old(p.staticPrio) != 120 + nice ==>
              && p.staticPrio == 120 + nice && p.prio == (if p.policy == SCHED_OTHER then 120 + nice else old(p.prio))
              && (p.policy == SCHED_OTHER && p.inArray != null ==> LastOf(p.inArray.queue, 120 + nice) == p)
              && rq.curr.needResched == (old(rq.curr.needResched) || (p.policy == SCHED_OTHER && p == rq.curr))
  {
    SoundBut(rq.tasks, p, rq.hz);
    NicedIsSound(Now(p), nice, rq.hz);
    if p.policy == SCHED_SHORT {
      return;
    }
    if p.staticPrio - MAX_RT_PRIO - 20 == nice || nice < -20 || nice > 19 {
      return;
    }
    if RtTask(p) {
      p.staticPrio := NiceToPrio(nice);
      SoundAgain(rq.tasks, p, rq.hz);
    } else if p.inArray != null {
      SetNice(p, nice, rq);
    } else {
      Aside(p, rq.Trio(), rq.tasks);
      p.staticPrio := NiceToPrio(nice);
      p.prio := NiceToPrio(nice);
      Back(p, rq.Trio(), rq.tasks);
      SoundAgain(rq.tasks, p, rq.hz);
    }
  }

  // ---- setscheduler ------------------------------------------------------------------------------------

  datatype Param = Param(priority: int, requestedTime: int, shortPrio: int)

  datatype Status = Done | EINVAL | EFAULT | ESRCH | EPERM

  // What a caller may ask for a task of policy `from`.
  predicate Allowed(from: int, to: int, lp: Param, capable: bool, owner: bool) {
    && from != SCHED_SHORT && (owner || capable)
    && (to == SCHED_SHORT ==> from == SCHED_OTHER && 1 <= lp.requestedTime <= 3000 && 0 <= lp.shortPrio <= 139)
    && (to in {SCHED_FIFO, SCHED_RR} ==> capable && 1 <= lp.priority <= 99)
    && (to == SCHED_OTHER ==> lp.priority == 0)
    && to in {SCHED_OTHER, SCHED_FIFO, SCHED_RR, SCHED_SHORT}
  }

  // A negative policy stands for the one the task has.
  function Target(policy: int, from: int): int {
    if policy < 0 then from else policy
  }

  // The checks, in their order.
  method CheckPolicy(from: int, policy: int, lp: Param, capable: bool, owner: bool) returns (r: Status)
    requires from in {SCHED_OTHER, SCHED_FIFO, SCHED_RR, SCHED_SHORT}
    ensures r in {Done, EINVAL, EPERM}
    ensures r == Done <==> Allowed(from, Target(policy, from), lp, capable, owner)
    // In words:
    ensures var to := if policy < 0 then from else policy;
            r == Done <==>
              && from != SCHED_SHORT && (owner || capable) && to in {SCHED_OTHER, SCHED_FIFO, SCHED_RR, SCHED_SHORT}
              && (to == SCHED_SHORT ==> from == SCHED_OTHER && 1 <= lp.requestedTime <= 3000 && 0 <= lp.shortPrio <= 139)
              && (to in {SCHED_FIFO, SCHED_RR} ==> capable && 1 <= lp.priority <= 99)
              && (to == SCHED_OTHER ==> lp.priority == 0)
    ensures var to := if policy < 0 then from else policy;
            r == EINVAL <==>
              || (policy == SCHED_SHORT && !(1 <= lp.requestedTime <= 3000 && 0 <= lp.shortPrio <= 139))
              || (from != SCHED_SHORT && policy != SCHED_SHORT
                  && (to !in {SCHED_OTHER, SCHED_FIFO, SCHED_RR} || !(0 <= lp.priority <= 99)
                      || (to == SCHED_OTHER && lp.priority != 0) || (to != SCHED_OTHER && lp.priority == 0)))
    ensures policy == SCHED_SHORT && !(1 <= lp.requestedTime <= 3000 && 0 <= lp.shortPrio <= 139) ==> r == EINVAL
    ensures from == SCHED_SHORT && policy != SCHED_SHORT ==> r == EPERM
    ensures from in {SCHED_FIFO, SCHED_RR} && policy == SCHED_SHORT && r != EINVAL ==> r == EPERM
  {
    if policy == SCHED_SHORT
       && (lp.requestedTime < 1 || lp.requestedTime > 3000 || lp.shortPrio < 0 || lp.shortPrio > 139) {
      return EINVAL;
    }
    if from == SCHED_SHORT || (from != SCHED_OTHER && policy == SCHED_SHORT) {
      return EPERM;
    }
    var to := policy;
    if policy < 0 {
      to := from;
    } else if policy != SCHED_FIFO && policy != SCHED_RR && policy != SCHED_OTHER && policy != SCHED_SHORT {
      return EINVAL;
    }
    if to != SCHED_SHORT {
      if lp.priority < 0 || lp.priority > MAX_USER_RT_PRIO - 1 {
        return EINVAL;
      }
      if (to == SCHED_OTHER) != (lp.priority == 0) {
        return EINVAL;
      }
    }
    if (to == SCHED_FIFO || to == SCHED_RR) && !capable {
      return EPERM;
    }
    if !owner && !capable {
      return EPERM;
    }
    return Done;
  }

  // The fields with the new policy.
  function WithPolicy(f: Fields, to: int, lp: Param, hz: Hz): Fields {
    if to == SCHED_SHORT then
      f.(policy := to, shortPrio := lp.shortPrio,
         timeLeft := if lp.requestedTime < 0 then 0 else TimeLeftFor(lp.requestedTime, hz))
    else f.(policy := to, prio := if to == SCHED_OTHER then f.staticPrio else MAX_USER_RT_PRIO - 1 - lp.priority)
  }

  lemma WithPolicyIsSound(f: Fields, to: int, lp: Param, capable: bool, owner: bool, hz: Hz)
    requires Sound(f, hz) && Allowed(f.policy, to, lp, capable, owner)
    ensures Sound(WithPolicy(f, to, lp, hz), hz)
  {
    if to == SCHED_SHORT {
      RequestedTime(lp.requestedTime, hz);
    }
  }

  method AssignPolicy(p: Task, to: int, lp: Param, hz: Hz)
    requires Allowed(p.policy, to, lp, true, true) && Sound(Now(p), hz)
    modifies p`policy, p`rtPriority, p`prio, p`shortPrio, p`requestedTime, p`timeLeft
    ensures Now(p) == WithPolicy(old(Now(p)), to, lp, hz) && Sound(Now(p), hz)
    ensures p.policy == to && p.rtPriority == lp.priority
    ensures p.requestedTime == if to == SCHED_SHORT then lp.requestedTime else old(p.requestedTime)
  {
    WithPolicyIsSound(Now(p), to, lp, true, true, hz);
    p.policy := to;
    p.rtPriority := lp.priority;
    if to != SCHED_OTHER && p.policy != SCHED_SHORT {
      p.prio := MAX_USER_RT_PRIO - 1 - p.rtPriority;
    } else if to == SCHED_SHORT {
      p.shortPrio := lp.shortPrio;
      p.requestedTime := lp.requestedTime;
      p.timeLeft := if lp.requestedTime * hz / 1000 == 0 then 1 else lp.requestedTime * hz / 1000;
    } else {
      p.prio := p.staticPrio;
    }
  }

  // A queued task is taken out, changed and activated again; another is only changed.
  method ChangeQueued(p: Task, to: int, lp: Param, rq: Runqueue, jiffies: int)
    requires rq.Valid() && p in rq.tasks && p.inArray != null && Allowed(p.policy, to, lp, true, true)
    modifies p`policy, p`rtPriority, p`prio, p`shortPrio, p`requestedTime, p`timeLeft, p`sleepAvg, p`inArray,
             rq`nrRunning, rq`nrUninterruptible, rq.active`nrActive, rq.active`bitmap, rq.active`queue, rq.active`slot,
             rq.expired`nrActive, rq.expired`bitmap, rq.expired`queue, rq.expired`slot, rq.shortPr`nrActive,
             rq.shortPr`bitmap, rq.shortPr`queue, rq.shortPr`slot
    ensures rq.Valid()
    ensures Now(p) == Slept(WithPolicy(old(Now(p)), to, lp, rq.hz), Elapsed(jiffies, p.sleepTimestamp), rq.hz)
    ensures p.inArray == if to == SCHED_SHORT then rq.shortPr else rq.active
    ensures rq.active.queue == Shifted(old(rq.active.queue), old(p.inArray) == rq.active, old(Key(p)),
                                       p.inArray == rq.active, Key(p), p)
    ensures rq.expired.queue == Shifted(old(rq.expired.queue), old(p.inArray) == rq.expired, old(Key(p)),
                                        p.inArray == rq.expired, Key(p), p)
    ensures rq.shortPr.queue == Shifted(old(rq.shortPr.queue), old(p.inArray) == rq.shortPr, old(Key(p)),
                                        p.inArray == rq.shortPr, Key(p), p)
    ensures rq.nrRunning == old(rq.nrRunning)
    ensures rq.nrUninterruptible == old(rq.nrUninterruptible) + if p.state == Uninterruptible then 1 else 0
    ensures p.policy == to && p.rtPriority == lp.priority
    ensures p.requestedTime == if to == SCHED_SHORT then lp.requestedTime else old(p.requestedTime)
  {
    SoundBut(rq.tasks, p, rq.hz);
    DeactivateTask(p, rq);
    AssignPolicy(p, to, lp, rq.hz);
    ActivateTask(p, rq, jiffies);
  }

  method ChangeSleeping(p: Task, to: int, lp: Param, rq: Runqueue)
    requires rq.Valid() && p in rq.tasks && p.inArray == null && Allowed(p.policy, to, lp, true, true)
    modifies p`policy, p`rtPriority, p`prio, p`shortPrio, p`requestedTime, p`timeLeft
    ensures rq.Valid() && Now(p) == WithPolicy(old(Now(p)), to, lp, rq.hz)
    ensures p.policy == to && p.rtPriority == lp.priority
    ensures p.requestedTime == if to == SCHED_SHORT then lp.requestedTime else old(p.requestedTime)
  {
    SoundBut(rq.tasks, p, rq.hz);
    Aside(p, rq.Trio(), rq.tasks);
    AssignPolicy(p, to, lp, rq.hz);
    Back(p, rq.Trio(), rq.tasks);
    SoundAgain(rq.tasks, p, rq.hz);
  }

  method ChangeEither(p: Task, to: int, lp: Param, rq: Runqueue, jiffies: int)
    requires rq.Valid() && p in rq.tasks && Allowed(p.policy, to, lp, true, true)
    modifies p`policy, p`rtPriority, p`prio, p`shortPrio, p`requestedTime, p`timeLeft, p`sleepAvg, p`inArray,
             rq`nrRunning, rq`nrUninterruptible, rq.active`nrActive, rq.active`bitmap,
             rq.active`queue, rq.active`slot, rq.expired`nrActive, rq.expired`bitmap, rq.expired`queue,
             rq.expired`slot, rq.shortPr`nrActive, rq.shortPr`bitmap, rq.shortPr`queue, rq.shortPr`slot
    ensures rq.Valid() && p.policy == to && p.rtPriority == lp.priority && rq.nrRunning == old(rq.nrRunning)
    ensures p.requestedTime == if to == SCHED_SHORT then lp.requestedTime else old(p.requestedTime)
    ensures rq.nrUninterruptible ==
            old(rq.nrUninterruptible) + if old(p.inArray) != null && p.state == Uninterruptible then 1 else 0
    ensures Now(p) == Reassigned(old(Now(p)), to, lp, old(p.inArray) != null, Elapsed(jiffies, p.sleepTimestamp), rq.hz)
    ensures p.inArray == if old(p.inArray) == null then null else if to == SCHED_SHORT then rq.shortPr else rq.active
    ensures rq.active.queue == Shifted(old(rq.active.queue), old(p.inArray) == rq.active, old(Key(p)),
                                       p.inArray == rq.active, Key(p), p)
    ensures rq.expired.queue == Shifted(old(rq.expired.queue), old(p.inArray) == rq.expired, old(Key(p)),
                                        p.inArray == rq.expired, Key(p), p)
    ensures rq.shortPr.queue == Shifted(old(rq.shortPr.queue), old(p.inArray) == rq.shortPr, old(Key(p)),
                                        p.inArray == rq.shortPr, Key(p), p)
  {
    if p.inArray != null {
      ChangeQueued(p, to, lp, rq, jiffies);
    } else {
      ChangeSleeping(p, to, lp, rq);
    }
  }

  method ChangePolicy(p: Task, to: int, lp: Param, rq: Runqueue, current: Task, jiffies: int)
    requires rq.Valid() && p in rq.tasks && Allowed(p.policy, to, lp, true, true)
    modifies p`policy, p`rtPriority, p`prio, p`shortPrio, p`requestedTime, p`timeLeft, p`sleepAvg, p`inArray,
             current`needResched, rq`nrRunning, rq`nrUninterruptible, rq.active`nrActive, rq.active`bitmap,
             rq.active`queue, rq.active`slot, rq.expired`nrActive, rq.expired`bitmap, rq.expired`queue,
             rq.expired`slot, rq.shortPr`nrActive, rq.shortPr`bitmap, rq.shortPr`queue, rq.shortPr`slot
    ensures rq.Valid() && p.policy == to && p.rtPriority == lp.priority && rq.nrRunning == old(rq.nrRunning)
    ensures p.requestedTime == if to == SCHED_SHORT then lp.requestedTime else old(p.requestedTime)
    ensures rq.nrUninterruptible ==
            old(rq.nrUninterruptible) + if old(p.inArray) != null && p.state == Uninterruptible then 1 else 0
    ensures Now(p) == Reassigned(old(Now(p)), to, lp, old(p.inArray) != null, Elapsed(jiffies, p.sleepTimestamp), rq.hz)
    ensures p.inArray == if old(p.inArray) == null then null else if to == SCHED_SHORT then rq.shortPr else rq.active
    ensures rq.active.queue == Shifted(old(rq.active.queue), old(p.inArray) == rq.active, old(Key(p)),
                                       p.inArray == rq.active, Key(p), p)
    ensures rq.expired.queue == Shifted(old(rq.expired.queue), old(p.inArray) == rq.expired, old(Key(p)),
                                        p.inArray == rq.expired, Key(p), p)
    ensures rq.shortPr.queue == Shifted(old(rq.shortPr.queue), old(p.inArray) == rq.shortPr, old(Key(p)),
                                        p.inArray == rq.shortPr, Key(p), p)
    ensures current.needResched == (old(current.needResched) || to == SCHED_SHORT)
  {
    ChangeEither(p, to, lp, rq, jiffies);
    if p.policy == SCHED_SHORT {
      current.needResched := true;
    }
  }

  // A queued task is also credited with the time since it last ran.
  function Reassigned(f: Fields, to: int, lp: Param, queued: bool, sleepTime: int, hz: Hz): Fields {
    if queued then Slept(WithPolicy(f, to, lp, hz), sleepTime, hz) else WithPolicy(f, to, lp, hz)
  }

  /** SHORT is for good: the call fails for a SHORT task, and only a SCHED_OTHER task becomes
      one, with at least one tick of time. */
  lemma ShortStaysShort(f: Fields, to: int, lp: Param, capable: bool, owner: bool, queued: bool, sleepTime: int, hz: Hz)
    requires Sound(f, hz)
    ensures f.policy == SCHED_SHORT ==> !Allowed(f.policy, to, lp, capable, owner)
    ensures Allowed(f.policy, to, lp, capable, owner) ==>
              var g := Reassigned(f, to, lp, queued, sleepTime, hz);
              && Sound(g, hz) && g.policy == to && g.staticPrio == f.staticPrio
              && (to == SCHED_SHORT ==> f.policy == SCHED_OTHER && g.shortPrio == lp.shortPrio && g.prio == f.prio
                                        && 1 <= g.timeLeft
                                        && (g.timeLeft == 1 || g.timeLeft * 1000 <= lp.requestedTime * hz))
              && (to in {SCHED_FIFO, SCHED_RR} ==> g.prio == 99 - lp.priority)
  {
    if Allowed(f.policy, to, lp, capable, owner) {
      WithPolicyIsSound(f, to, lp, capable, owner, hz);
      SleptIsSound(WithPolicy(f, to, lp, hz), sleepTime, hz);
    }
  }

  /** The fields after a change of policy, in numbers.  A queued task that is SCHED_OTHER
      afterwards is credited with the time since it last ran. */
  lemma PolicyInWords(f: Fields, to: int, lp: Param, queued: bool, sleepTime: nat, hz: Hz)
    requires Sound(f, hz) && Allowed(f.policy, to, lp, true, true) && f.sleepAvg + sleepTime < 0x1_0000_0000
    ensures var g := Reassigned(f, to, lp, queued, sleepTime, hz);
            && (to in {SCHED_FIFO, SCHED_RR} ==> g == f.(policy := to, prio := 99 - lp.priority))
            && (to == SCHED_SHORT ==>
                  g == f.(policy := to, shortPrio := lp.shortPrio,
                          timeLeft := if lp.requestedTime * hz < 1000 then 1 else lp.requestedTime * hz / 1000))
            && (to == SCHED_OTHER ==>
                  var slept := if queued then sleepTime else 0;
                  var x := f.staticPrio + 5 - 5 * g.sleepAvg / hz;
                  && g.policy == SCHED_OTHER && g.staticPrio == f.staticPrio
                  && g.sleepAvg == (if slept == 0 || f.sleepAvg + slept <= 2 * hz then f.sleepAvg + slept else 2 * hz)
                  && g.prio == if slept == 0 then f.staticPrio else if x < 100 then 100 else if x > 139 then 139 else x)
  {
    WithPolicyIsSound(f, to, lp, true, true, hz);
    if to == SCHED_SHORT {
      RequestedTime(lp.requestedTime, hz);
    } else {
      SleepIsCredited(WithPolicy(f, to, lp, hz), sleepTime, hz);
    }
  }

  // `lp` is what the caller passed, if anything, and `readable` whether it can be read.  The task
  // marked in the end is the caller's, `current`, which may be another one than rq's current task.
  method SetScheduler(pid: int, p: Task?, policy: int, lp: Option<Param>, readable: bool, capable: bool, owner: bool,
                      rq: Runqueue, current: Task, jiffies: int)
      returns (r: Status)
    requires rq.Valid() && (p != null ==> p in rq.tasks)
    modifies (if p == null then {} else {p})`policy, (if p == null then {} else {p})`rtPriority,
             (if p == null then {} else {p})`prio, (if p == null then {} else {p})`shortPrio,
             (if p == null then {} else {p})`requestedTime, (if p == null then {} else {p})`timeLeft,
             (if p == null then {} else {p})`sleepAvg, (if p == null then {} else {p})`inArray, current`needResched,
             rq`nrRunning, rq`nrUninterruptible, rq.active`nrActive, rq.active`bitmap, rq.active`queue, rq.active`slot,
             rq.expired`nrActive, rq.expired`bitmap, rq.expired`queue, rq.expired`slot, rq.shortPr`nrActive,
             rq.shortPr`bitmap, rq.shortPr`queue, rq.shortPr`slot
    ensures rq.Valid()
    ensures r == Done <==> pid >= 0 && lp != None && readable && p != null
                           && Allowed(old(p.policy), Target(policy, old(p.policy)), lp.value, capable, owner)
    ensures lp == None || pid < 0 ==> r == EINVAL
    ensures lp != None && pid >= 0 && !readable ==> r == EFAULT
    ensures lp != None && pid >= 0 && readable && p == null ==> r == ESRCH
    ensures r == Done ==> Now(p) == Reassigned(old(Now(p)), Target(policy, old(p.policy)), lp.value,
                                               old(p.inArray) != null,
                                               Elapsed(jiffies, p.sleepTimestamp), rq.hz)
    ensures r == Done ==>
              && p.policy == (if policy < 0 then old(p.policy) else policy) && p.staticPrio == old(p.staticPrio)
              && (p.policy in {SCHED_FIFO, SCHED_RR} ==> p.prio == 99 - lp.value.priority)
              && (p.policy == SCHED_OTHER && p.inArray == null ==> p.prio == p.staticPrio)
              && (p.policy == SCHED_SHORT ==> p.prio == old(p.prio) && p.shortPrio == lp.value.shortPrio)
    ensures r == Done ==> p.rtPriority == lp.value.priority
    ensures r == Done ==>
              p.requestedTime == if p.policy == SCHED_SHORT then lp.value.requestedTime else old(p.requestedTime)
    ensures r == Done ==>
              p.inArray ==
              if old(p.inArray) == null then null else if p.policy == SCHED_SHORT then rq.shortPr else rq.active
    ensures r == Done ==> rq.active.queue == Shifted(old(rq.active.queue), old(p.inArray) == rq.active, old(Key(p)),
                                                     p.inArray == rq.active, Key(p), p)
    ensures r == Done ==> rq.expired.queue == Shifted(old(rq.expired.queue), old(p.inArray) == rq.expired, old(Key(p)),
                                                      p.inArray == rq.expired, Key(p), p)
    ensures r == Done ==> rq.shortPr.queue == Shifted(old(rq.shortPr.queue), old(p.inArray) == rq.shortPr, old(Key(p)),
                                                      p.inArray == rq.shortPr, Key(p), p)
    ensures r == Done ==> current.needResched == (old(current.needResched) || p.policy == SCHED_SHORT)
    ensures rq.nrRunning == old(rq.nrRunning)
    ensures rq.nrUninterruptible == old(rq.nrUninterruptible)
              + if r == Done && old(p.inArray) != null && p.state == Uninterruptible then 1 else 0
    ensures r != Done && p != null ==> Now(p) == old(Now(p)) && p.inArray == old(p.inArray)
    ensures r != Done && p != null ==> p.rtPriority == old(p.rtPriority) && p.requestedTime == old(p.requestedTime)
    ensures r != Done ==> rq.active.queue == old(rq.active.queue) && rq.expired.queue == old(rq.expired.queue)
                          && rq.shortPr.queue == old(rq.shortPr.queue) && current.needResched == old(current.needResched)
  {
    if lp == None || pid < 0 {
      return EINVAL;
    }
    if !readable {
      return EFAULT;
    }
    if p == null {
      return ESRCH;
    }
    SoundBut(rq.tasks, p, rq.hz);
    r := CheckPolicy(p.policy, policy, lp.value, capable, owner);
    if r == Done {
      ChangePolicy(p, if policy < 0 then p.policy else policy, lp.value, rq, current, jiffies);
    }
  }

  // ---- wake_up_forked_process --------------------------------------------------------------------------

  method AgeChild(p: Task, hz: Hz)
    requires Sound(Now(p), hz) && p.policy != SCHED_SHORT
    modifies p`sleepAvg, p`prio
    ensures Now(p) == Forked(old(Now(p)), hz) && Sound(Now(p), hz)
  {
    ForkedIsSound(Now(p), hz);
    if !RtTask(p) {
      p.sleepAvg := p.sleepAvg * 95 / 100;
      p.prio := EffectivePrio(Now(p), hz);
    }
  }

  /** A new child joins the runqueue with 95% of its sleep average.  do_fork starts no SHORT
      children. */
  method WakeUpForked(p: Task, rq: Runqueue, jiffies: int)
    requires rq.Valid() && p !in rq.tasks && p != rq.idle && p.inArray == null && Sound(Now(p), rq.hz)
    requires p.policy != SCHED_SHORT
    modifies p`state, p`sleepAvg, p`prio, p`inArray, rq`tasks, rq`nrRunning, rq.active`nrActive, rq.active`bitmap,
             rq.active`queue, rq.active`slot, rq.shortPr`nrActive, rq.shortPr`bitmap, rq.shortPr`queue, rq.shortPr`slot
    ensures rq.Valid() && rq.tasks == old(rq.tasks) + {p} && p.state == Running
    ensures p.inArray == rq.active && rq.active.queue == Added(old(rq.active.queue), Key(p), p)
    ensures rq.shortPr.queue == old(rq.shortPr.queue)
    ensures rq.nrRunning == old(rq.nrRunning) + 1
    ensures Now(p) == Slept(Forked(old(Now(p)), rq.hz), Elapsed(jiffies, p.sleepTimestamp), rq.hz)
  {
    p.state := Running;
    AgeChild(p, rq.hz);
    rq.tasks := rq.tasks + {p};
    assert rq.tasks - {p} == old(rq.tasks);
    ActivateTask(p, rq, jiffies);
  }

  function Forked(f: Fields, hz: Hz): Fields {
    if f.prio < MAX_RT_PRIO then f
    else
      var g := f.(sleepAvg := f.sleepAvg * 95 / 100);
      g.(prio := EffectivePrio(g, hz))
  }

  // What do_fork leaves a SCHED_OTHER child of its sleep average, and the priority it gives.
  lemma ForkInWords(f: Fields, hz: Hz)
    requires Sound(f, hz) && f.policy != SCHED_SHORT
    ensures var g := Forked(f, hz);
            if f.policy != SCHED_OTHER then g == f
            else
              var x := f.staticPrio + 5 - 5 * g.sleepAvg / hz;
              && 100 * g.sleepAvg <= 95 * f.sleepAvg < 100 * g.sleepAvg + 100
              && g == f.(sleepAvg := g.sleepAvg, prio := if x < 100 then 100 else if x > 139 then 139 else x)
  {
    EffectiveInWords(Forked(f, hz), hz);
  }

  lemma ForkedIsSound(f: Fields, hz: Hz)
    requires Sound(f, hz) && f.policy != SCHED_SHORT
    ensures Sound(Forked(f, hz), hz)
  {
    if f.prio >= MAX_RT_PRIO {
      DynamicPriority(f.(sleepAvg := f.sleepAvg * 95 / 100), hz);
    }
  }
}
