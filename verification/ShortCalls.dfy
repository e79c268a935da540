/** The system calls about SHORT tasks: remaining time and place in queue. */
module ShortCalls {
  import opened RunQueues
  import opened SchedMath
  import opened Scheduler
  import opened SchedPick

  const ESRCH := 3
  const EINVAL := 22

  // The first k queues one after the other.
  function Upto(q: Queues, k: nat): seq<Task>
    requires k <= |q|
  {
    if k == 0 then [] else Upto(q, k - 1) + q[k - 1]
  }

  lemma {:induction false} UptoPrefix(q: Queues, k: nat, n: nat)
    requires k <= n <= |q|
    ensures |Upto(q, k)| <= |Upto(q, n)| && Upto(q, n)[..|Upto(q, k)|] == Upto(q, k)
  {
    if k < n {
      UptoPrefix(q, k, n - 1);
      assert Upto(q, n)[..|Upto(q, k)|] == Upto(q, n - 1)[..|Upto(q, k)|];
    } else {
      assert Upto(q, n)[..|Upto(q, k)|] == Upto(q, n);
    }
  }

  lemma {:induction false} UptoHolds(q: Queues, k: nat, t: Task)
    requires k <= |q|
    ensures t in Upto(q, k) <==> exists j :: 0 <= j < k && t in q[j]
  {
    if k > 0 {
      UptoHolds(q, k - 1, t);
    }
  }

  lemma {:induction false} UptoEmpty(q: Queues, k: nat)
    requires k <= |q| && forall j :: 0 <= j < k ==> q[j] == []
    ensures Upto(q, k) == []
  {
    if k > 0 { UptoEmpty(q, k - 1); }
  }

  lemma {:induction false} UptoTotal(q: Queues, k: nat)
    requires k <= |q|
    ensures |Upto(q, k)| == Total(q[..k])
  {
    if k > 0 {
      UptoTotal(q, k - 1);
      TotalUpdate(q[..k], k - 1, []);
      TotalButLast(q[..k - 1]);
      assert q[..k][k - 1 := []] == q[..k - 1] + [[]];
    }
  }

  lemma {:induction false} TotalButLast(q: Queues)
    ensures Total(q + [[]]) == Total(q)
  {
    if q != [] {
      assert (q + [[]])[1..] == q[1..] + [[]];
      TotalButLast(q[1..]);
    }
  }

  /** The SHORT tasks of an array in the order schedule() would take them: by queue, then by
      arrival.  Every one is there once. */
  function ShortOrder(q: Queues): seq<Task> {
    Upto(q, |q|)
  }

  // Entry i of queue k.
  lemma PlaceOf(q: Queues, k: nat, i: nat)
    requires k < |q| && i < |q[k]|
    ensures |Upto(q, k)| + i < |ShortOrder(q)| && ShortOrder(q)[|Upto(q, k)| + i] == q[k][i]
  {
    UptoPrefix(q, k + 1, |q|);
    assert Upto(q, k + 1)[|Upto(q, k)| + i] == q[k][i];
  }

  // A task is in the order at one place only.
  lemma {:induction false} OnePlace(n: int, bits: seq<bool>, q: Queues, slot: map<Task, int>, k: nat, i: nat, j: nat)
    requires Indexed(n, bits, q, slot) && k <= MAX_PRIO && i < j < |Upto(q, k)|
    ensures Upto(q, k)[i] != Upto(q, k)[j]
  {
    var m := |Upto(q, k - 1)|;
    assert QueueOk(bits, q, slot, k - 1);
    if j < m {
      OnePlace(n, bits, q, slot, k - 1, i, j);
    } else if i < m {
      var t := Upto(q, k - 1)[i];
      UptoHolds(q, k - 1, t);
      var l :| 0 <= l < k - 1 && t in q[l];
      assert QueueOk(bits, q, slot, l);
      assert q[k - 1][j - m] in q[k - 1];
    }
  }

  lemma BestRanks(rq: Runqueue, p: Task, t: Task)
    requires Best(rq, p) && t in rq.tasks && t.inArray in {rq.active, rq.shortPr}
    ensures Rank(Now(p)) <= Rank(Now(t))
  {
  }

  /** What stands first in the order is what schedule() picks when no real-time task is queued. */
  lemma FirstIsBest(rq: Runqueue, p: Task)
    requires rq.Consistent(rq.tasks) && p in rq.tasks && p.inArray == rq.shortPr
    ensures |rq.active.bitmap| == |rq.shortPr.queue| == MAX_PRIO && |ShortOrder(rq.shortPr.queue)| > 0
    ensures Best(rq, p) <==> FirstSet(rq.active.bitmap, 0) >= MAX_RT_PRIO && p == ShortOrder(rq.shortPr.queue)[0]
  {
    var a := rq.shortPr;
    QueuedUnder(rq, p, a);
    QueuedUnder(rq, p, rq.active);
    FirstQueue(a);
    FirstQueue(rq.active);
    var k := FirstSet(a.bitmap, 0);
    assert k <= a.slot[p] && a.slot[p] < MAX_PRIO;
    forall j | 0 <= j < k ensures a.queue[j] == [] {
      assert QueueOk(a.bitmap, a.queue, a.slot, j);
    }
    UptoEmpty(a.queue, k);
    PlaceOf(a.queue, k, 0);
    var h := a.queue[k][0];
    QueuedUnder(rq, h, a);
    if Best(rq, p) {
      assert Rank(Now(p)) <= Rank(Now(h));
      var i := FirstSet(rq.active.bitmap, 0);
      if i < MAX_RT_PRIO {
        var t := rq.active.queue[i][0];
        QueuedUnder(rq, t, rq.active);
        BestRanks(rq, p, t);
      }
    } else if FirstSet(rq.active.bitmap, 0) >= MAX_RT_PRIO && p == h {
      BestOfShort(rq, p);
    }
  }

  // Process ids tell tasks apart.
  ghost predicate DistinctPids(s: set<Task>) {
    forall t, u :: t in s && u in s && t.pid == u.pid ==> t == u
  }

  /** For a SHORT task queued on this processor, other than the current one, the number of SHORT
      tasks before it; for any other, asleep or of another processor, the number in the queues here up
      to its own short_prio; 0 for the current task. */
  method ShortPlaceInQueue(pid: int, process: Task?, rq: Runqueue) returns (r: int)
    requires rq.Valid() && DistinctPids(rq.tasks + {rq.idle} + if process == null then {} else {process})
    requires process != null ==> process.pid == pid && Sound(Now(process), rq.hz)
    ensures pid < 0 || process == null ==> r == -ESRCH
    ensures pid >= 0 && process != null && process.policy != SCHED_SHORT ==> r == -EINVAL
    ensures pid >= 0 && process != null && process.policy == SCHED_SHORT ==>
              && (process == rq.curr ==> r == 0)
              && (process != rq.curr && process in rq.tasks && process.inArray != null ==>
                    0 <= r < |ShortOrder(rq.shortPr.queue)| && ShortOrder(rq.shortPr.queue)[r] == process)
              && (process != rq.curr && !(process in rq.tasks && process.inArray != null) ==>
                    0 <= process.shortPrio < |rq.shortPr.queue| && r == |Upto(rq.shortPr.queue, process.shortPrio + 1)|)
    // In words: the tasks with a better short_prio, and those before it in its own queue.
    ensures pid >= 0 && process != null && process.policy == SCHED_SHORT && process != rq.curr
            && process in rq.tasks && process.inArray != null ==>
              var q, k := rq.shortPr.queue, process.shortPrio;
              0 <= k < |q| && exists i :: 0 <= i < |q[k]| && q[k][i] == process && r == Total(q[..k]) + i
    ensures pid >= 0 && process != null && process.policy == SCHED_SHORT && process != rq.curr
            && !(process in rq.tasks && process.inArray != null) ==>
              0 <= process.shortPrio < |rq.shortPr.queue| && r == Total(rq.shortPr.queue[..process.shortPrio + 1])
  {
    if pid < 0 || process == null {
      return -ESRCH;
    }
    if process.policy != SCHED_SHORT {
      return -EINVAL;
    }
    if rq.curr.pid == pid {
      return 0;
    }
    ghost var a := rq.shortPr;
    QueuedUnder(rq, process, a);
    assert process in rq.tasks ==> Home(rq.Trio(), process);
    var counter := 0;
    var currPrio := 0;
    while currPrio <= process.shortPrio
      invariant 0 <= currPrio <= process.shortPrio + 1 && |a.queue| == MAX_PRIO
      invariant counter == |Upto(a.queue, currPrio)|
      invariant process in a.slot ==> currPrio <= process.shortPrio
    {
      var q := rq.shortPr.queue[currPrio];
      assert QueueOk(a.bitmap, a.queue, a.slot, currPrio);
      var i := 0;
      while i < |q|
        invariant 0 <= i <= |q| && counter == |Upto(a.queue, currPrio)| + i
        invariant process !in q[..i]
      {
        QueuedUnder(rq, q[i], a);
        assert q[i] in a.queue[currPrio];
        if q[i].pid == process.pid {
          PlaceOf(a.queue, currPrio, i);
          UptoTotal(a.queue, currPrio);
          return counter;
        } else {
          counter := counter + 1;
        }
        i := i + 1;
      }
      if process in a.slot {
        assert InSlot(a.queue, a.slot, process);
      }
      currPrio := currPrio + 1;
    }
    UptoTotal(a.queue, currPrio);
    return counter;
  }

  method ShortRemainingTime(pid: int, process: Task?, rq: Runqueue) returns (r: int)
    ensures pid < 0 || process == null ==> r == -ESRCH
    ensures pid >= 0 && process != null && process.policy != SCHED_SHORT ==> r == -EINVAL
    ensures pid >= 0 && process != null && process.policy == SCHED_SHORT ==>
              r == RemainingTime(process.timeLeft,
                                 rq.hz) && 0 <= r && r * rq.hz <= process.timeLeft * 1000 < (r + 1) * rq.hz
  {
    if pid < 0 || process == null {
      return -ESRCH;
    }
    if process.policy != SCHED_SHORT {
      return -EINVAL;
    }
    r := process.timeLeft * 1000 / rq.hz;
    assert process.timeLeft * 1000 == rq.hz * r + process.timeLeft * 1000 % rq.hz;
  }
}
