/** Activation and deactivation of a task, the wake-up and the tick. */
module Scheduler {
  import opened Common
  import opened RunQueues
  import opened SchedMath

  // ---- activate_task and deactivate_task -------------------------------------------------------------

  // The bonus for the time slept.
  method Reward(p: Task, hz: Hz, jiffies: int)
    requires Sound(Now(p), hz)
    modifies p`sleepAvg, p`prio
    ensures Now(p) == Slept(old(Now(p)), Elapsed(jiffies, p.sleepTimestamp), hz) && Sound(Now(p), hz)
  {
    var sleepTime := Elapsed(jiffies, p.sleepTimestamp);
    SleptIsSound(Now(p), sleepTime, hz);
    if !RtTask(p) && sleepTime != 0 && p.policy != SCHED_SHORT {
      p.sleepAvg := (p.sleepAvg + sleepTime) % WORD;
      if p.sleepAvg > 2 * hz {
        p.sleepAvg := 2 * hz;
      }
      p.prio := EffectivePrio(Now(p), hz);
    }
  }

  method ActivateTask(p: Task, rq: Runqueue, jiffies: int)
    requires p in rq.tasks && p.inArray == null && Sound(Now(p), rq.hz) && rq.Consistent(rq.tasks - {p}) && p != rq.idle
    modifies p`inArray, p`sleepAvg, p`prio, rq.active`nrActive, rq.active`bitmap, rq.active`queue, rq.active`slot,
             rq.shortPr`nrActive, rq.shortPr`bitmap, rq.shortPr`queue, rq.shortPr`slot, rq`nrRunning
    ensures Now(p) == Slept(old(Now(p)), Elapsed(jiffies, p.sleepTimestamp), rq.hz)
    ensures p.inArray == (if p.policy == SCHED_SHORT then rq.shortPr else rq.active)
    ensures rq.active.queue == AddedIf(old(rq.active.queue), p.policy != SCHED_SHORT, Key(p), p)
    ensures rq.shortPr.queue == AddedIf(old(rq.shortPr.queue), p.policy == SCHED_SHORT, Key(p), p)
    ensures rq.nrRunning == old(rq.nrRunning) + 1
    ensures rq.Consistent(rq.tasks)
  {
    var a := if p.policy == SCHED_SHORT then rq.shortPr else rq.active;
    Reward(p, rq.hz, jiffies);
    Enter(p, a, rq.Trio(), rq.tasks - {p});
    assert rq.tasks - {p} + {p} == rq.tasks;
    rq.nrRunning := rq.nrRunning + 1;
    SoundAgain(rq.tasks, p, rq.hz);
  }

  // The array p is in loses it.
  method DeactivateTask(p: Task, rq: Runqueue)
    requires p in rq.tasks && p.inArray != null && rq.Consistent(rq.tasks)
    modifies p`inArray, rq.active`nrActive, rq.active`bitmap, rq.active`queue, rq.active`slot, rq.expired`nrActive,
             rq.expired`bitmap, rq.expired`queue, rq.expired`slot, rq.shortPr`nrActive, rq.shortPr`bitmap,
             rq.shortPr`queue, rq.shortPr`slot, rq`nrRunning, rq`nrUninterruptible
    ensures p.inArray == null
    ensures rq.active.queue == WithoutIf(old(rq.active.queue), old(p.inArray) == rq.active, Key(p), p)
    ensures rq.expired.queue == WithoutIf(old(rq.expired.queue), old(p.inArray) == rq.expired, Key(p), p)
    ensures rq.shortPr.queue == WithoutIf(old(rq.shortPr.queue), old(p.inArray) == rq.shortPr, Key(p), p)
    ensures rq.nrRunning == old(rq.nrRunning) - 1
    ensures rq.nrUninterruptible == old(rq.nrUninterruptible) + if p.state == Uninterruptible then 1 else 0
    ensures rq.Consistent(rq.tasks - {p}) && p != rq.idle
  {
    assert Home(rq.Trio(), p);
    SoundBut(rq.tasks, p, rq.hz);
    rq.nrRunning := rq.nrRunning - 1;
    if p.state == Uninterruptible {
      rq.nrUninterruptible := rq.nrUninterruptible + 1;
    }
    Leave(p, p.inArray, rq.Trio(), rq.tasks);
    p.inArray := null;
  }

  // ---- try_to_wake_up -----------------------------------------------------------------------------------

  // The order schedule() runs tasks in: real-time, SHORT, SCHED_OTHER, idle.
  function Rank(f: Fields): int {
    if f.policy == SCHED_SHORT then MAX_RT_PRIO + f.shortPrio
    else if f.prio < MAX_RT_PRIO then f.prio
    else MAX_PRIO + f.prio
  }

  /** That order, spelt out. */
  lemma RankInWords(p: Fields, c: Fields, hz: Hz)
    requires Sound(p, hz) && Sound(c, hz)
    ensures p.policy in {SCHED_FIFO, SCHED_RR} ==>
              (Rank(p) < Rank(c) <==> c.policy in {SCHED_SHORT, SCHED_OTHER} || p.prio < c.prio)
    ensures p.policy == SCHED_SHORT ==>
              (Rank(p) < Rank(c) <==> c.policy == SCHED_OTHER || (c.policy == SCHED_SHORT && p.shortPrio < c.shortPrio))
    ensures p.policy == SCHED_OTHER ==> (Rank(p) < Rank(c) <==> c.policy == SCHED_OTHER && p.prio < c.prio)
  {
  }

  // The condition try_to_wake_up reschedules under, p being the woken task and c the current one.
  predicate Preempts(p: Fields, c: Fields) {
    || (p.policy == SCHED_SHORT && c.policy == SCHED_OTHER)
    || (p.policy == SCHED_SHORT && c.policy == SCHED_SHORT && p.shortPrio < c.shortPrio)
    || (p.policy != SCHED_SHORT && p.prio < MAX_RT_PRIO && c.policy == SCHED_SHORT)
    || p.prio < c.prio
  }

  /** A woken task that outranks the current one always preempts it.  One that does not preempts
      exactly when the current task is SHORT and the woken one, not real-time, has the smaller
      prio, a field that does not order SHORT tasks. */
  lemma PreemptsIff(p: Fields, c: Fields, hz: Hz)
    requires Sound(p, hz) && (Sound(c, hz) || (c.policy == SCHED_OTHER && c.prio == MAX_PRIO))
    ensures Rank(p) < Rank(c) ==> Preempts(p, c)
    ensures Rank(p) >= Rank(c) ==>
              (Preempts(p, c) <==> c.policy == SCHED_SHORT && p.policy in {SCHED_SHORT, SCHED_OTHER} && p.prio < c.prio)
  {
  }

  method ReschedIfPreempted(p: Task, curr: Task)
    modifies curr`needResched
    ensures curr.needResched == (old(curr.needResched) || Preempts(Now(p), Now(curr)))
  {
    if (p.policy == SCHED_SHORT && curr.policy == SCHED_OTHER) ||
       (p.policy == SCHED_SHORT && curr.policy == SCHED_SHORT && p.shortPrio < curr.shortPrio) ||
       (RtTask(p) && curr.policy == SCHED_SHORT) {
      curr.needResched := true;
    } else if p.prio < curr.prio {
      curr.needResched := true;
    }
  }

  method WakeSleeper(p: Task, rq: Runqueue, jiffies: int)
    requires rq.Valid() && p in rq.tasks && p.inArray == null
    modifies rq.curr`needResched, p`inArray, p`sleepAvg, p`prio, rq.active`nrActive, rq.active`bitmap, rq.active`queue,
             rq.active`slot, rq.shortPr`nrActive, rq.shortPr`bitmap, rq.shortPr`queue, rq.shortPr`slot, rq`nrRunning,
             rq`nrUninterruptible
    ensures rq.Valid()
    ensures Now(p) == Slept(old(Now(p)), Elapsed(jiffies, p.sleepTimestamp), rq.hz)
    ensures p.inArray == (if p.policy == SCHED_SHORT then rq.shortPr else rq.active)
    ensures rq.active.queue == AddedIf(old(rq.active.queue), p.policy != SCHED_SHORT, Key(p), p)
    ensures rq.shortPr.queue == AddedIf(old(rq.shortPr.queue), p.policy == SCHED_SHORT, Key(p), p)
    ensures rq.nrUninterruptible == old(rq.nrUninterruptible) - if p.state == Uninterruptible then 1 else 0
    ensures rq.curr.needResched == (old(rq.curr.needResched) || Preempts(Now(p), Now(rq.curr)))
  {
    Aside(p, rq.Trio(), rq.tasks);
    SoundBut(rq.tasks, p, rq.hz);
    if p.state == Uninterruptible {
      rq.nrUninterruptible := rq.nrUninterruptible - 1;
    }
    ActivateTask(p, rq, jiffies);
    ReschedIfPreempted(p, rq.curr);
  }

  method TryToWakeUp(p: Task, rq: Runqueue, jiffies: int) returns (success: bool)
    requires rq.Valid() && p in rq.tasks
    modifies p`inArray, p`sleepAvg, p`prio, p`state, rq.active`nrActive, rq.active`bitmap, rq.active`queue,
             rq.active`slot, rq.shortPr`nrActive, rq.shortPr`bitmap, rq.shortPr`queue, rq.shortPr`slot, rq`nrRunning,
             rq`nrUninterruptible, rq.curr`needResched
    ensures rq.Valid() && success == (old(p.inArray) == null) && p.state == Running
    ensures Now(p) == if success then Slept(old(Now(p)), Elapsed(jiffies, p.sleepTimestamp), rq.hz) else old(Now(p))
    ensures p.inArray == (if !success then old(p.inArray) else if p.policy == SCHED_SHORT then rq.shortPr else rq.active)
    ensures rq.active.queue == AddedIf(old(rq.active.queue), success && p.policy != SCHED_SHORT, Key(p), p)
    ensures rq.shortPr.queue == AddedIf(old(rq.shortPr.queue), success && p.policy == SCHED_SHORT, Key(p), p)
    ensures rq.nrUninterruptible == old(rq.nrUninterruptible) - if success && old(p.state) == Uninterruptible then 1 else 0
    ensures rq.curr.needResched == (old(rq.curr.needResched) || (success && Preempts(Now(p), Now(rq.curr))))
  {
    success := false;
    if p.inArray == null {
      WakeSleeper(p, rq, jiffies);
      success := true;
    }
    p.state := Running;
  }

  // ---- scheduler_tick --------------------------------------------------------------------------------------

  // How the queues change when p, under key k, is treated so and has key k' after.
  predicate TickMoves(o: Outcome, p: Task, k: int, k': int, a: Queues, e: Queues, s: Queues, a': Queues, e': Queues,
                      s': Queues) {
    match o
    case Stays => a' == a && e' == e && s' == s
    case Again => a' == Added(Without(a, k, p), k', p) && e' == e && s' == s
    case Expires => a' == Without(a, k, p) && e' == Added(e, k', p) && s' == s
    case Demoted => a' == Added(a, k', p) && e' == e && s' == Without(s, k, p)
  }

  // A real-time task: round robin only.
  method TickRealTime(p: Task, rq: Runqueue)
    requires rq.Valid() && p == rq.curr != rq.idle && RtTask(p)
    modifies p`inArray, p`timeSlice, p`needResched, rq.active`nrActive, rq.active`bitmap, rq.active`queue,
             rq.active`slot
    ensures rq.Valid() && Now(p) == Ticked(old(Now(p)), rq.hz)
    ensures p.needResched == (old(p.needResched) || OutcomeOf(old(Now(p)), false, rq.hz) != Stays)
    ensures TickMoves(OutcomeOf(old(Now(p)), false, rq.hz), p, old(Key(p)), Key(p), old(rq.active.queue),
                      old(rq.expired.queue), old(rq.shortPr.queue),
                      rq.active.queue, rq.expired.queue, rq.shortPr.queue)
  {
    SoundBut(rq.tasks, p, rq.hz);
    TickedIsSound(Now(p), rq.hz);
    assert Home(rq.Trio(), p);
    if p.policy == SCHED_RR {
      p.timeSlice := Less(p.timeSlice);
      if p.timeSlice == 0 {
        p.timeSlice := TaskTimeslice(p.staticPrio, rq.hz);
        p.needResched := true;
        Leave(p, rq.active, rq.Trio(), rq.tasks);
        Enter(p, rq.active, rq.Trio(), rq.tasks - {p});
        assert rq.tasks - {p} + {p} == rq.tasks;
      }
    }
    SoundAgain(rq.tasks, p, rq.hz);
  }

  method Refill(p: Task, hz: Hz)
    requires p.policy == SCHED_OTHER && Sound(Now(p).(timeSlice := 1), hz)
    modifies p`prio, p`timeSlice
    ensures Now(p) == Renewed(old(Now(p)), hz)
    ensures Sound(Now(p), hz)
  {
    DynamicPriority(Now(p).(timeSlice := 1), hz);
    SliceRange(p.staticPrio, p.staticPrio, hz);
    p.prio := EffectivePrio(Now(p), hz);
    p.timeSlice := TaskTimeslice(p.staticPrio, hz);
  }

  // A task that is out of its queue joins the expired or the active tasks.
  method Rejoin(p: Task, rq: Runqueue, jiffies: int) returns (starving: bool)
    requires Placed(rq.Trio(), rq.tasks - {p}) && p in rq.tasks && p.policy == SCHED_OTHER && Sound(Now(p), rq.hz)
    modifies p`inArray, rq`expiredTimestamp, rq.active`nrActive, rq.active`bitmap, rq.active`queue, rq.active`slot,
             rq.expired`nrActive, rq.expired`bitmap, rq.expired`queue, rq.expired`slot
    ensures Placed(rq.Trio(), rq.tasks)
    ensures rq.active.nrActive + rq.expired.nrActive == old(rq.active.nrActive) + old(rq.expired.nrActive) + 1
    ensures starving == ExpiredStarving(old(rq.expiredTimestamp), jiffies, rq.nrRunning, rq.hz)
    ensures p.inArray == if !Interactive(Now(p)) || starving then rq.expired else rq.active
    ensures rq.expiredTimestamp ==
            if p.inArray == rq.expired && old(rq.expiredTimestamp) == 0 then jiffies else old(rq.expiredTimestamp)
    ensures rq.active.queue == AddedIf(old(rq.active.queue), p.inArray == rq.active, Key(p), p)
    ensures rq.expired.queue == AddedIf(old(rq.expired.queue), p.inArray == rq.expired, Key(p), p)
  {
    starving := ExpiredStarving(rq.expiredTimestamp, jiffies, rq.nrRunning, rq.hz);
    var target := rq.active;
    if !Interactive(Now(p)) || starving {
      if rq.expiredTimestamp == 0 {
        rq.expiredTimestamp := jiffies;
      }
      target := rq.expired;
    }
    Enter(p, target, rq.Trio(), rq.tasks - {p});
    assert rq.tasks - {p} + {p} == rq.tasks;
  }

  // The slice of p is used up: it gets a new one and joins the expired tasks, or the active ones
  // again when it is interactive and no expired task starves.
  method EndSlice(p: Task, rq: Runqueue, jiffies: int) returns (starving: bool)
    requires Placed(rq.Trio(), rq.tasks) && rq.Tally() && p in rq.tasks && p.inArray == rq.active
    requires p.policy == SCHED_OTHER
    requires Sound(Now(p).(timeSlice := 1), rq.hz)
    modifies p`inArray, p`prio, p`timeSlice, p`needResched, rq`expiredTimestamp, rq.active`nrActive, rq.active`bitmap,
             rq.active`queue, rq.active`slot, rq.expired`nrActive, rq.expired`bitmap, rq.expired`queue, rq.expired`slot
    ensures Placed(rq.Trio(), rq.tasks) && rq.Tally() && p.needResched && Sound(Now(p), rq.hz)
    ensures starving == ExpiredStarving(old(rq.expiredTimestamp), jiffies, rq.nrRunning, rq.hz)
    ensures Now(p) == Renewed(old(Now(p)), rq.hz)
    ensures p.inArray == if !Interactive(Now(p)) || starving then rq.expired else rq.active
    ensures rq.expiredTimestamp ==
            if p.inArray == rq.expired && old(rq.expiredTimestamp) == 0 then jiffies else old(rq.expiredTimestamp)
    ensures TickMoves(if p.inArray == rq.expired then Expires else Again, p, old(Key(p)), Key(p),
                      old(rq.active.queue), old(rq.expired.queue), old(rq.shortPr.queue),
                      rq.active.queue, rq.expired.queue, rq.shortPr.queue)
  {
    Leave(p, rq.active, rq.Trio(), rq.tasks);
    p.needResched := true;
    Refill(p, rq.hz);
    starving := Rejoin(p, rq, jiffies);
  }

  // The new fields of a SHORT task that has used its time.
  method Demote(p: Task, hz: Hz)
    requires p.policy == SCHED_SHORT && Sound(Now(p).(timeLeft := 1), hz) && p.timeLeft == 0
    modifies p`policy, p`staticPrio, p`sleepAvg, p`prio, p`timeSlice
    ensures Now(p) == Ticked(old(Now(p)).(timeLeft := 1), hz) && Sound(Now(p), hz) && p.policy == SCHED_OTHER
  {
    Demotion(Now(p).(timeLeft := 1), hz);
    p.policy := SCHED_OTHER;
    p.staticPrio := if p.staticPrio + 7 < MAX_PRIO - 1 then p.staticPrio + 7 else MAX_PRIO - 1;
    p.sleepAvg := hz;
    p.prio := EffectivePrio(Now(p), hz);
    p.timeSlice := TaskTimeslice(p.staticPrio, hz);
  }

  // A SHORT task has used its time: it becomes SCHED_OTHER.
  method EndShort(p: Task, rq: Runqueue)
    requires Placed(rq.Trio(), rq.tasks) && rq.Tally() && p in rq.tasks && p.inArray == rq.shortPr
    requires p.policy == SCHED_SHORT
    requires Sound(Now(p).(timeLeft := 1), rq.hz) && p.timeLeft == 0
    modifies p`inArray, p`policy, p`staticPrio, p`sleepAvg, p`prio, p`timeSlice, p`needResched, rq.active`nrActive,
             rq.active`bitmap, rq.active`queue, rq.active`slot, rq.shortPr`nrActive, rq.shortPr`bitmap,
             rq.shortPr`queue, rq.shortPr`slot
    ensures Placed(rq.Trio(), rq.tasks) && rq.Tally() && p.needResched && p.inArray == rq.active
    ensures Now(p) == Ticked(old(Now(p)).(timeLeft := 1), rq.hz) && Sound(Now(p), rq.hz)
    ensures rq.shortPr.queue == Without(old(rq.shortPr.queue), p.shortPrio, p)
    ensures rq.active.queue == Added(old(rq.active.queue), p.prio, p)
  {
    ghost var r := rq.Trio();
    Leave(p, rq.shortPr, r, rq.tasks);
    Demote(p, rq.hz);
    p.needResched := true;
    Enter(p, rq.active, r, rq.tasks - {p});
    assert rq.tasks - {p} + {p} == rq.tasks;
  }

  // A tick of running costs.
  method Charge(p: Task)
    modifies p`sleepAvg, p`timeSlice
    ensures Now(p) == Charged(old(Now(p)))
  {
    if p.sleepAvg != 0 {
      p.sleepAvg := p.sleepAvg - 1;
    }
    p.timeSlice := Less(p.timeSlice);
  }

  method TickOther(p: Task, rq: Runqueue, jiffies: int)
    requires rq.Valid() && p == rq.curr != rq.idle && p.policy == SCHED_OTHER && p.inArray == rq.active
    modifies p`inArray, p`prio, p`timeSlice, p`sleepAvg, p`needResched, rq`expiredTimestamp, rq.active`nrActive,
             rq.active`bitmap, rq.active`queue, rq.active`slot, rq.expired`nrActive, rq.expired`bitmap,
             rq.expired`queue, rq.expired`slot
    ensures rq.Valid() && Now(p) == Ticked(old(Now(p)), rq.hz)
    ensures var o := OutcomeOf(old(Now(p)), ExpiredStarving(old(rq.expiredTimestamp), jiffies, rq.nrRunning, rq.hz),
                               rq.hz);
            && p.needResched == (old(p.needResched) || o != Stays)
            && rq.expiredTimestamp == (if o == Expires && old(rq.expiredTimestamp) == 0 then jiffies
                                       else old(rq.expiredTimestamp))
            && TickMoves(o, p, old(Key(p)), Key(p), old(rq.active.queue), old(rq.expired.queue), old(rq.shortPr.queue),
                         rq.active.queue, rq.expired.queue, rq.shortPr.queue)
  {
    SoundBut(rq.tasks, p, rq.hz);
    TickedIsSound(Now(p), rq.hz);
    Charge(p);
    if p.timeSlice == 0 {
      var starving := EndSlice(p, rq, jiffies);
    }
    SoundAgain(rq.tasks, p, rq.hz);
  }

  method TickShort(p: Task, rq: Runqueue)
    requires rq.Valid() && p == rq.curr != rq.idle && p.policy == SCHED_SHORT
    modifies p`inArray, p`policy, p`staticPrio, p`timeLeft, p`sleepAvg, p`prio, p`timeSlice, p`needResched,
             rq.active`nrActive, rq.active`bitmap, rq.active`queue, rq.active`slot, rq.shortPr`nrActive,
             rq.shortPr`bitmap, rq.shortPr`queue, rq.shortPr`slot
    ensures rq.Valid() && Now(p) == Ticked(old(Now(p)), rq.hz)
    ensures p.needResched == (old(p.needResched) || OutcomeOf(old(Now(p)), false, rq.hz) != Stays)
    ensures TickMoves(OutcomeOf(old(Now(p)), false, rq.hz), p, old(Key(p)), Key(p), old(rq.active.queue),
                      old(rq.expired.queue), old(rq.shortPr.queue),
                      rq.active.queue, rq.expired.queue, rq.shortPr.queue)
  {
    SoundBut(rq.tasks, p, rq.hz);
    assert Home(rq.Trio(), p);
    TickedIsSound(Now(p), rq.hz);
    p.timeLeft := Less(p.timeLeft);
    if p.timeLeft == 0 {
      EndShort(p, rq);
    }
    SoundAgain(rq.tasks, p, rq.hz);
  }

  // Whether a tick finds the current task where it can use up its slice.
  ghost predicate OnCpu(rq: Runqueue)
    reads rq, rq.curr`inArray
  {
    rq.curr != rq.idle && (rq.curr.inArray == rq.active || rq.curr.inArray == rq.shortPr)
  }

  // Where a tick starts from.
  datatype TickScene = TickScene(f: Fields, onCpu: bool, idle: bool, need: bool, stamp: int, key: int, qa: Queues,
                                 qe: Queues, qs: Queues)

  ghost function TickSceneOf(rq: Runqueue): TickScene
    reads rq, rq.curr, rq.active`queue, rq.expired`queue, rq.shortPr`queue
  {
    TickScene(Now(rq.curr), OnCpu(rq), rq.curr == rq.idle, rq.curr.needResched, rq.expiredTimestamp, Key(rq.curr),
              rq.active.queue, rq.expired.queue, rq.shortPr.queue)
  }

  function OutcomeIn(b: TickScene, jiffies: int, nrRunning: int, hz: Hz): Outcome {
    if b.onCpu then OutcomeOf(b.f, ExpiredStarving(b.stamp, jiffies, nrRunning, hz), hz) else Stays
  }

  function NeedIn(b: TickScene, jiffies: int, nrRunning: int, hz: Hz): bool {
    b.need || (!b.idle && !b.onCpu) || OutcomeIn(b, jiffies, nrRunning, hz) != Stays
  }

  // What the tick has done to the current task, `active` being the active queues right after it.
  ghost predicate AfterTick(rq: Runqueue, b: TickScene, jiffies: int, nrRunning: int, active: Queues)
    reads rq`curr, rq`expired, rq`expiredTimestamp, rq.expired`queue, rq.shortPr`queue, rq.curr`policy, rq.curr`prio,
          rq.curr`staticPrio, rq.curr`shortPrio, rq.curr`timeLeft, rq.curr`timeSlice, rq.curr`sleepAvg
  {
    var o := OutcomeIn(b, jiffies, nrRunning, rq.hz);
    && Now(rq.curr) == (if b.onCpu then Ticked(b.f, rq.hz) else b.f)
    && rq.expiredTimestamp == (if o == Expires && b.stamp == 0 then jiffies else b.stamp)
    && TickMoves(o, rq.curr, b.key, Key(rq.curr), b.qa, b.qe, b.qs, active, rq.expired.queue, rq.shortPr.queue)
  }

  // Where the current task is queued before a tick.
  ghost predicate Sits(rq: Runqueue, b: TickScene)
    reads rq`curr
  {
    && |b.qa| == |b.qe| == |b.qs| == MAX_PRIO && 0 <= b.key < MAX_PRIO && Sound(b.f, rq.hz) && b.onCpu && !b.idle
    && (if b.f.policy == SCHED_SHORT then NoDup(b.qs[b.key]) && rq.curr in b.qs[b.key]
        else NoDup(b.qa[b.key]) && rq.curr in b.qa[b.key])
    && b.key == if b.f.policy == SCHED_SHORT then b.f.shortPrio else b.f.prio
  }

  lemma RemovedSplits(l: seq<Task>, p: Task) returns (i: nat)
    requires NoDup(l) && p in l
    ensures i < |l| && l[i] == p && Removed(l, p) == l[..i] + l[i + 1..]
  {
    i :| 0 <= i < |l| && l[i] == p;
    RemovedAt(l, i);
  }

  /** A tick in words, as long as the task has time left: it keeps its place, and only its counters go
      down; a FIFO task has none. */
  lemma TickGoesOn(rq: Runqueue, b: TickScene, jiffies: int, nr: int, active: Queues)
    requires AfterTick(rq, b, jiffies, nr, active) && Sits(rq, b)
    requires b.f.policy in {SCHED_RR, SCHED_OTHER} ==> 1 < b.f.timeSlice
    requires b.f.policy == SCHED_SHORT ==> 1 < b.f.timeLeft
    ensures active == b.qa && rq.expired.queue == b.qe && rq.shortPr.queue == b.qs
    ensures NeedIn(b, jiffies, nr, rq.hz) == b.need
    ensures Now(rq.curr) ==
            if b.f.policy == SCHED_FIFO then b.f
            else if b.f.policy == SCHED_RR then b.f.(timeSlice := b.f.timeSlice - 1)
            else if b.f.policy == SCHED_SHORT then b.f.(timeLeft := b.f.timeLeft - 1)
            else b.f.(timeSlice := b.f.timeSlice - 1, sleepAvg := if b.f.sleepAvg == 0 then 0 else b.f.sleepAvg - 1)
  {
  }

  /** Round robin: the task whose slice is over is last in its queue, marked, and has a new slice. */
  lemma TickGoesRound(rq: Runqueue, b: TickScene, jiffies: int, nr: int, active: Queues) returns (i: nat)
    requires AfterTick(rq, b, jiffies, nr, active) && Sits(rq, b) && b.f.policy == SCHED_RR && b.f.timeSlice == 1
    ensures var p, l := rq.curr, b.qa[b.f.prio];
            && i < |l| && l[i] == p && active == b.qa[b.f.prio := l[..i] + l[i + 1..] + [p]]
            && rq.expired.queue == b.qe && rq.shortPr.queue == b.qs && NeedIn(b, jiffies, nr, rq.hz)
            && Now(p) == b.f.(timeSlice := p.timeSlice)
            && 1 <= 10 * rq.hz / 1000 <= p.timeSlice <= 300 * rq.hz / 1000
  {
    i := RemovedSplits(b.qa[b.f.prio], rq.curr);
    SliceIsLinear(b.f.staticPrio, rq.hz);
  }

  lemma ExpiryFields(rq: Runqueue, b: TickScene, jiffies: int, nr: int, active: Queues)
    requires AfterTick(rq, b, jiffies, nr, active) && Sits(rq, b) && b.f.policy == SCHED_OTHER && b.f.timeSlice == 1
    ensures NeedIn(b, jiffies, nr, rq.hz)
    ensures var p := rq.curr;
            var x := p.staticPrio + 5 - 5 * p.sleepAvg / rq.hz;
            && p.sleepAvg == (if b.f.sleepAvg == 0 then 0 else b.f.sleepAvg - 1)
            && p.prio == (if x < 100 then 100 else if x > 139 then 139 else x)
            && Now(p) == b.f.(timeSlice := p.timeSlice, sleepAvg := p.sleepAvg, prio := p.prio)
            && 1 <= 10 * rq.hz / 1000 <= p.timeSlice <= 300 * rq.hz / 1000
  {
    SliceIsLinear(b.f.staticPrio, rq.hz);
    EffectiveInWords(Charged(b.f), rq.hz);
  }

  /** A SCHED_OTHER task whose slice is over is marked and gets a new slice and a new prio.  It is last
      among the expired tasks exactly when it is not interactive or the expired ones have waited for more
      than two seconds for each runnable task; otherwise it is last among the active ones. */
  lemma TickExpires(rq: Runqueue, b: TickScene, jiffies: int, nr: int, active: Queues) returns (i: nat, rest: Queues)
    requires AfterTick(rq, b, jiffies, nr, active) && Sits(rq, b) && b.f.policy == SCHED_OTHER && b.f.timeSlice == 1
    ensures i < |b.qa[b.f.prio]| && b.qa[b.f.prio][i] == rq.curr
    ensures rest == b.qa[b.f.prio := b.qa[b.f.prio][..i] + b.qa[b.f.prio][i + 1..]]
    ensures rq.shortPr.queue == b.qs && 0 <= rq.curr.prio < |rest| == |b.qe|
    ensures var p, nice := rq.curr, b.f.staticPrio - 120;
            var interactive := p.prio <= p.staticPrio - 2 - (if nice >= 0 then nice / 4 else -(-nice / 4));
            var starving := b.stamp != 0 && (jiffies - b.stamp) % 0x1_0000_0000 > 2 * rq.hz * nr;
            if !interactive || starving
            then active == rest && rq.expired.queue == b.qe[p.prio := b.qe[p.prio] + [p]]
                 && rq.expiredTimestamp == (if b.stamp == 0 then jiffies else b.stamp)
            else active == rest[p.prio := rest[p.prio] + [p]] && rq.expired.queue == b.qe
                 && rq.expiredTimestamp == b.stamp
  {
    i := RemovedSplits(b.qa[b.f.prio], rq.curr);
    rest := b.qa[b.f.prio := b.qa[b.f.prio][..i] + b.qa[b.f.prio][i + 1..]];
    EffectiveInWords(Charged(b.f), rq.hz);
  }

  // Entry |l| - 1 of queue k.
  function LastOf(q: Queues, k: int): (t: Task?)
    ensures t != null ==> 0 <= k < |q| && q[k] != [] && t == q[k][|q[k]| - 1]
  {
    if 0 <= k < |q| && q[k] != [] then q[k][|q[k]| - 1] else null
  }

  lemma ExpiresLast(rq: Runqueue, b: TickScene, jiffies: int, nr: int, active: Queues)
    requires AfterTick(rq, b, jiffies, nr, active) && Sits(rq, b) && b.f.policy == SCHED_OTHER && b.f.timeSlice == 1
    ensures var p, nice := rq.curr, rq.curr.staticPrio - 120;
            if p.prio > p.staticPrio - 2 - (if nice >= 0 then nice / 4 else -(-nice / 4))
               || (b.stamp != 0 && (jiffies - b.stamp) % 0x1_0000_0000 > 2 * rq.hz * nr)
            then LastOf(rq.expired.queue, p.prio) == p
            else LastOf(active, p.prio) == p && rq.expired.queue == b.qe
  {
    var i, rest := TickExpires(rq, b, jiffies, nr, active);
    ExpiryFields(rq, b, jiffies, nr, active);
  }

  /** A SHORT task whose time is over is SCHED_OTHER, marked, and last in its active queue, seven levels
      nicer. */
  lemma TickDemotes(rq: Runqueue, b: TickScene, jiffies: int, nr: int, active: Queues) returns (i: nat)
    requires AfterTick(rq, b, jiffies, nr, active) && Sits(rq, b) && b.f.policy == SCHED_SHORT && b.f.timeLeft == 1
    ensures var p, l := rq.curr, b.qs[b.f.shortPrio];
            && i < |l| && l[i] == p && rq.shortPr.queue == b.qs[b.f.shortPrio := l[..i] + l[i + 1..]]
            && 0 <= p.prio < |b.qa| && active == b.qa[p.prio := b.qa[p.prio] + [p]] && rq.expired.queue == b.qe
            && NeedIn(b, jiffies, nr, rq.hz)
            && p.policy == SCHED_OTHER && p.timeLeft == 0 && p.sleepAvg == rq.hz && p.prio == p.staticPrio
            && p.staticPrio == (if b.f.staticPrio + 7 <= 139 then b.f.staticPrio + 7 else 139)
            && 1 <= 10 * rq.hz / 1000 <= p.timeSlice <= 300 * rq.hz / 1000
  {
    i := RemovedSplits(b.qs[b.f.shortPrio], rq.curr);
    Demotion(b.f, rq.hz);
    SliceIsLinear(rq.curr.staticPrio, rq.hz);
  }

  lemma SitsThere(rq: Runqueue)
    requires rq.Valid() && OnCpu(rq)
    ensures Sits(rq, TickSceneOf(rq))
  {
    var p := rq.curr;
    SoundBut(rq.tasks, p, rq.hz);
    assert Home(rq.Trio(), p);
    assert Filed(rq.active, rq.tasks) && Filed(rq.expired, rq.tasks) && Filed(rq.shortPr, rq.tasks);
    var a := if p.policy == SCHED_SHORT then rq.shortPr else rq.active;
    assert InSlot(a.queue, a.slot, p) && QueueOk(a.bitmap, a.queue, a.slot, a.slot[p]);
  }

  // What happens to the current task.
  method TickCurrent(rq: Runqueue, jiffies: int)
    requires rq.Valid()
    modifies rq.curr`inArray, rq.curr`policy, rq.curr`staticPrio, rq.curr`timeLeft, rq.curr`sleepAvg, rq.curr`prio,
             rq.curr`timeSlice, rq.curr`needResched, rq`expiredTimestamp, rq.active`nrActive, rq.active`bitmap,
             rq.active`queue, rq.active`slot, rq.expired`nrActive, rq.expired`bitmap, rq.expired`queue,
             rq.expired`slot, rq.shortPr`nrActive, rq.shortPr`bitmap, rq.shortPr`queue, rq.shortPr`slot
    ensures rq.Valid() && AfterTick(rq, old(TickSceneOf(rq)), jiffies, rq.nrRunning, rq.active.queue)
    ensures rq.curr.needResched == NeedIn(old(TickSceneOf(rq)), jiffies, rq.nrRunning, rq.hz)
  {
    var p := rq.curr;
    if p == rq.idle {
      return;
    }
    if p.inArray != rq.active && p.inArray != rq.shortPr {
      p.needResched := true;
      return;
    }
    SoundBut(rq.tasks, p, rq.hz);
    assert Home(rq.Trio(), p);
    if RtTask(p) {
      TickRealTime(p, rq);
    } else if p.policy == SCHED_SHORT {
      TickShort(p, rq);
    } else {
      TickOther(p, rq, jiffies);
    }
  }

  /** The timer interrupt, without balancing. */
  method SchedulerTick(rq: Runqueue, jiffies: int)
    requires rq.Valid()
    modifies rq.curr`inArray, rq.curr`policy, rq.curr`staticPrio, rq.curr`timeLeft, rq.curr`sleepAvg, rq.curr`prio,
             rq.curr`timeSlice, rq.curr`needResched, rq`expiredTimestamp, rq.active`nrActive, rq.active`bitmap,
             rq.active`queue, rq.active`slot, rq.expired`nrActive, rq.expired`bitmap, rq.expired`queue,
             rq.expired`slot, rq.shortPr`nrActive, rq.shortPr`bitmap, rq.shortPr`queue, rq.shortPr`slot
    ensures rq.Valid() && AfterTick(rq, old(TickSceneOf(rq)), jiffies, rq.nrRunning, rq.active.queue)
    ensures rq.curr.needResched == NeedIn(old(TickSceneOf(rq)), jiffies, rq.nrRunning, rq.hz)
    // In words: with time left the current task keeps its place,
    ensures old(rq.curr != rq.idle && rq.curr.inArray in {rq.active, rq.shortPr}
                && (rq.curr.policy in {SCHED_RR, SCHED_OTHER} ==> 1 < rq.curr.timeSlice)
                && (rq.curr.policy == SCHED_SHORT ==> 1 < rq.curr.timeLeft)) ==>
              && rq.active.queue == old(rq.active.queue) && rq.expired.queue == old(rq.expired.queue)
              && rq.shortPr.queue == old(rq.shortPr.queue) && rq.curr.needResched == old(rq.curr.needResched)
    // a round-robin task whose slice is over is last in its queue, marked, and has a new slice,
    ensures old(rq.curr != rq.idle && rq.curr.inArray in {rq.active, rq.shortPr} && rq.curr.policy == SCHED_RR
                && rq.curr.timeSlice == 1) ==>
              && rq.curr.needResched && 10 * rq.hz / 1000 <= rq.curr.timeSlice <= 300 * rq.hz / 1000
              && rq.curr.prio == old(rq.curr.prio) && LastOf(rq.active.queue, rq.curr.prio) == rq.curr
              && rq.expired.queue == old(rq.expired.queue) && rq.shortPr.queue == old(rq.shortPr.queue)
    // a SCHED_OTHER one is last among the expired tasks exactly when it is not interactive or they starve,
    ensures old(rq.curr != rq.idle && rq.curr.inArray in {rq.active, rq.shortPr} && rq.curr.policy == SCHED_OTHER
                && rq.curr.timeSlice == 1) ==>
              var p, nice, stamp := rq.curr, rq.curr.staticPrio - 120, old(rq.expiredTimestamp);
              && p.needResched && 10 * rq.hz / 1000 <= p.timeSlice <= 300 * rq.hz / 1000
              && if p.prio > p.staticPrio - 2 - (if nice >= 0 then nice / 4 else -(-nice / 4))
                    || (stamp != 0 && (jiffies - stamp) % 0x1_0000_0000 > 2 * rq.hz * rq.nrRunning)
                 then LastOf(rq.expired.queue, p.prio) == p
                 else LastOf(rq.active.queue, p.prio) == p && rq.expired.queue == old(rq.expired.queue)
    // and a SHORT one whose time is over is SCHED_OTHER and last in its active queue.
    ensures old(rq.curr != rq.idle && rq.curr.inArray in {rq.active, rq.shortPr} && rq.curr.policy == SCHED_SHORT
                && rq.curr.timeLeft == 1) ==>
              && rq.curr.needResched && rq.curr.policy == SCHED_OTHER && rq.curr.prio == rq.curr.staticPrio
              && rq.curr.staticPrio == (if old(rq.curr.staticPrio) <= 132 then old(rq.curr.staticPrio) + 7 else 139)
              && LastOf(rq.active.queue, rq.curr.prio) == rq.curr && rq.expired.queue == old(rq.expired.queue)
  {
    ghost var b := TickSceneOf(rq);
    if OnCpu(rq) {
      SitsThere(rq);
    }
    TickCurrent(rq, jiffies);
    if b.onCpu {
      if b.f.policy == SCHED_RR && b.f.timeSlice == 1 {
        ghost var i := TickGoesRound(rq, b, jiffies, rq.nrRunning, rq.active.queue);
      } else if b.f.policy == SCHED_OTHER && b.f.timeSlice == 1 {
        ExpiresLast(rq, b, jiffies, rq.nrRunning, rq.active.queue);
        ExpiryFields(rq, b, jiffies, rq.nrRunning, rq.active.queue);
      } else if b.f.policy == SCHED_SHORT && b.f.timeLeft == 1 {
        ghost var i := TickDemotes(rq, b, jiffies, rq.nrRunning, rq.active.queue);
      } else {
        TickGoesOn(rq, b, jiffies, rq.nrRunning, rq.active.queue);
      }
    }
  }
}
