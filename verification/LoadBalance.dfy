/** Balancing: a processor pulls tasks from the busiest runqueue. */
module LoadBalance {
  import opened RunQueues
  import opened SchedMath
  import opened SchedPick

  // ---- moving one task --------------------------------------------------------------------------------

  // Two processors share no task and no array.
  ghost predicate Apart(x: Runqueue, y: Runqueue)
    reads x`active, x`expired, x`tasks, y`active, y`expired, y`tasks
  {
    && x != y && x.hz == y.hz && x.idle != y.idle && x.tasks !! y.tasks && x.idle !in y.tasks && y.idle !in x.tasks
    && {x.active, x.expired, x.shortPr} !! {y.active, y.expired, y.shortPr}
  }

  method DropFrom(next: Task, a: PrioArray, rq: Runqueue)
    requires rq.Valid() && next in rq.tasks && next.inArray == a && a in {rq.active, rq.expired} && next != rq.curr
    modifies a`nrActive, a`bitmap, a`queue, a`slot, rq`nrRunning, rq`tasks
    ensures rq.Valid() && rq.tasks == old(rq.tasks) - {next} && rq.nrRunning == old(rq.nrRunning) - 1
    ensures a.queue == Without(old(a.queue), Key(next), next)
    ensures Sound(Now(next), rq.hz) && next.policy != SCHED_SHORT && 0 <= Key(next) < MAX_PRIO
  {
    assert Home(rq.Trio(), next);
    SoundBut(rq.tasks, next, rq.hz);
    Leave(next, a, rq.Trio(), rq.tasks);
    rq.nrRunning := rq.nrRunning - 1;
    rq.tasks := rq.tasks - {next};
  }

  method AddTo(next: Task, rq: Runqueue)
    requires rq.Sane() && next !in rq.tasks && next != rq.idle && Sound(Now(next), rq.hz) && next.policy != SCHED_SHORT
    requires 0 <= Key(next) < MAX_PRIO
    modifies next`inArray, rq.active`nrActive, rq.active`bitmap, rq.active`queue, rq.active`slot, rq`nrRunning, rq`tasks
    ensures rq.Sane() && rq.tasks == old(rq.tasks) + {next} && rq.nrRunning == old(rq.nrRunning) + 1
    ensures rq.active.queue == Added(old(rq.active.queue), Key(next), next) && next.inArray == rq.active
  {
    rq.nrRunning := rq.nrRunning + 1;
    Enter(next, rq.active, rq.Trio(), rq.tasks);
    rq.tasks := rq.tasks + {next};
    assert rq.tasks - {next} == old(rq.tasks);
    SoundAgain(rq.tasks, next, rq.hz);
  }

  // Adding a task here leaves the other processor as it is.
  method AddBeside(next: Task, here: Runqueue, other: Runqueue)
    requires here.Sane() && other.Valid() && Apart(here, other) && next !in other.tasks && next != other.idle
    requires next !in here.tasks && next != here.idle && Sound(Now(next), here.hz) && next.policy != SCHED_SHORT
    requires 0 <= Key(next) < MAX_PRIO
    modifies next`inArray, here.active`nrActive, here.active`bitmap, here.active`queue, here.active`slot,
             here`nrRunning, here`tasks
    ensures here.Sane() && other.Valid() && Apart(here, other)
    ensures here.tasks == old(here.tasks) + {next} && here.nrRunning == old(here.nrRunning) + 1
    ensures here.active.queue == Added(old(here.active.queue), Key(next), next) && next.inArray == here.active
  {
    ghost var r, s := other.Trio(), other.tasks;
    assert Filed(r.active, s) && Filed(r.expired, s) && Filed(r.short, s);
    AddTo(next, here);
    assert Filed(r.active, s) && Filed(r.expired, s) && Filed(r.short, s);
    forall t | t in s ensures Home(r, t) {
      assert old(Home(r, t));
    }
  }

  method DropBeside(next: Task, a: PrioArray, rq: Runqueue, other: Runqueue)
    requires rq.Valid() && other.Sane() && Apart(other, rq)
    requires next in rq.tasks && next.inArray == a && a in {rq.active, rq.expired} && next != rq.curr
    modifies a`nrActive, a`bitmap, a`queue, a`slot, rq`nrRunning, rq`tasks
    ensures rq.Valid() && other.Sane() && Apart(other, rq)
    ensures rq.tasks == old(rq.tasks) - {next} && rq.nrRunning == old(rq.nrRunning) - 1
    ensures a.queue == Without(old(a.queue), Key(next), next)
    ensures Sound(Now(next), rq.hz) && next.policy != SCHED_SHORT && 0 <= Key(next) < MAX_PRIO
  {
    ghost var r, s := other.Trio(), other.tasks;
    assert Filed(r.active, s) && Filed(r.expired, s) && Filed(r.short, s);
    DropFrom(next, a, rq);
    assert Filed(r.active, s) && Filed(r.expired, s) && Filed(r.short, s);
    forall t | t in s ensures Home(r, t) {
      assert old(Home(r, t));
    }
  }

  method MoveTask(next: Task, a: PrioArray, here: Runqueue, busiest: Runqueue)
    requires here.Sane() && busiest.Valid() && Apart(here, busiest)
    requires next in busiest.tasks && next.inArray == a && a in {busiest.active, busiest.expired} && next != busiest.curr
    modifies next`inArray, a`nrActive, a`bitmap, a`queue, a`slot, busiest`nrRunning, busiest`tasks,
             here`nrRunning, here`tasks, here.active`nrActive, here.active`bitmap, here.active`queue, here.active`slot
    ensures here.Sane() && busiest.Valid() && Apart(here, busiest)
    ensures here.tasks == old(here.tasks) + {next} && busiest.tasks == old(busiest.tasks) - {next}
    ensures here.nrRunning == old(here.nrRunning) + 1 && busiest.nrRunning == old(busiest.nrRunning) - 1
    ensures a.queue == Without(old(a.queue), Key(next), next)
    ensures here.active.queue == Added(old(here.active.queue), Key(next), next) && next.inArray == here.active
  {
    DropBeside(next, a, busiest, here);
    AddBeside(next, here, busiest);
  }

  /** One task changes processor: out of its queue in `a`, to the tail of its queue in the active
      array of `here`. */
  method PullTask(next: Task, a: PrioArray, here: Runqueue, busiest: Runqueue)
    requires here.Sane() && busiest.Valid() && Apart(here, busiest)
    requires next in busiest.tasks && next.inArray == a && a in {busiest.active, busiest.expired} && next != busiest.curr
    modifies next`inArray, a`nrActive, a`bitmap, a`queue, a`slot, busiest`nrRunning, busiest`tasks, here`nrRunning,
             here`tasks, here.active`nrActive, here.active`bitmap, here.active`queue, here.active`slot,
             here.curr`needResched
    ensures here.Sane() && busiest.Valid() && Apart(here, busiest)
    ensures here.tasks == old(here.tasks) + {next} && busiest.tasks == old(busiest.tasks) - {next}
    ensures here.nrRunning == old(here.nrRunning) + 1 && busiest.nrRunning == old(busiest.nrRunning) - 1
    ensures a.queue == Without(old(a.queue), Key(next), next)
    ensures here.active.queue == Added(old(here.active.queue), Key(next), next) && next.inArray == here.active
    ensures here.curr.needResched == (old(here.curr.needResched) || next.prio < here.curr.prio)
  {
    MoveTask(next, a, here, busiest);
    if next.prio < here.curr.prio {
      here.curr.needResched := true;
    }
  }

  // ---- one queue, from its tail -------------------------------------------------------------------------

  // Not running, not cache-hot, and allowed on this processor.
  predicate CanMigrate(p: Task, curr: Task, cpu: int, jiffies: int, decay: int)
    reads p`sleepTimestamp, p`cpusAllowed
  {
    Elapsed(jiffies, p.sleepTimestamp) > decay && p != curr && cpu in p.cpusAllowed
  }

  ghost predicate Fair(can: set<Task>, t: Task, curr: Task, cpu: int, jiffies: int, decay: int)
    reads t`sleepTimestamp, t`cpusAllowed
  {
    t in can <==> CanMigrate(t, curr, cpu, jiffies, decay)
  }

  // `can` has those tasks of s that can migrate.
  ghost predicate Judged(can: set<Task>, s: set<Task>, curr: Task, cpu: int, jiffies: int, decay: int)
    reads s`sleepTimestamp, s`cpusAllowed
  {
    forall t {:trigger Fair(can, t, curr, cpu, jiffies, decay)} :: t in s ==> Fair(can, t, curr, cpu, jiffies, decay)
  }

  // The tasks of l that can migrate, last one first.
  function TailFirst(l: seq<Task>, can: set<Task>): seq<Task> {
    if l == [] then []
    else (if l[|l| - 1] in can then [l[|l| - 1]] else []) + TailFirst(l[..|l| - 1], can)
  }

  ghost function AddedAll(q: Queues, l: seq<Task>): Queues
    reads l`policy, l`prio, l`shortPrio
  {
    if l == [] then q else Added(AddedAll(q, l[..|l| - 1]), Key(l[|l| - 1]), l[|l| - 1])
  }

  ghost function WithoutAll(q: Queues, l: seq<Task>): Queues
    reads l`policy, l`prio, l`shortPrio
  {
    if l == [] then q else Without(WithoutAll(q, l[..|l| - 1]), Key(l[|l| - 1]), l[|l| - 1])
  }

  function Elems(l: seq<Task>): set<Task> {
    if l == [] then {} else Elems(l[..|l| - 1]) + {l[|l| - 1]}
  }

  // Whether one of them has a better prio than the current task.
  predicate Better(l: seq<Task>, curr: Task)
    reads l`prio, curr`prio
  {
    l != [] && (l[|l| - 1].prio < curr.prio || Better(l[..|l| - 1], curr))
  }

  lemma OneMore(q: Queues, l: seq<Task>, t: Task, curr: Task)
    ensures Elems(l + [t]) == Elems(l) + {t}
    ensures Better(l + [t], curr) == (Better(l, curr) || t.prio < curr.prio)
    ensures AddedAll(q, l + [t]) == Added(AddedAll(q, l), Key(t), t)
    ensures WithoutAll(q, l + [t]) == Without(WithoutAll(q, l), Key(t), t)
  {
    assert (l + [t])[..|l|] == l;
  }

  // Both runqueues are as they should be; the current task here may be on its way out.
  ghost predicate Pair(here: Runqueue, busiest: Runqueue)
    reads here`active, here`expired, here`nrRunning, here`tasks, here.active, here.expired, here.shortPr,
          busiest`active, busiest`expired, busiest`nrRunning, busiest`curr, busiest`tasks, busiest.active,
          busiest.expired, busiest.shortPr, here.tasks`inArray, here.tasks`policy, here.tasks`prio,
          here.tasks`staticPrio, here.tasks`shortPrio, here.tasks`timeLeft, here.tasks`timeSlice, here.tasks`sleepAvg,
          here.idle`policy, here.idle`prio, here.idle`state, busiest.tasks`inArray,
          busiest.tasks`policy, busiest.tasks`prio, busiest.tasks`staticPrio, busiest.tasks`shortPrio,
          busiest.tasks`timeLeft, busiest.tasks`timeSlice, busiest.tasks`sleepAvg, busiest.idle`policy,
          busiest.idle`prio, busiest.idle`state, busiest.curr`inArray
  {
    && Apart(here, busiest) && (forall x {:trigger x.Sane()} :: x == here ==> x.Sane())
    && (forall x {:trigger x.Valid()} :: x == busiest ==> x.Valid())
  }

  // Entry i of queue idx, the entries behind it being gone or passed over, moves.
  method MoveEntry(a: PrioArray, idx: nat, i: nat, here: Runqueue, busiest: Runqueue) returns (next: Task)
    requires Pair(here, busiest) && a in {busiest.active, busiest.expired} && idx < |a.queue| && i < |a.queue[idx]|
    requires a.queue[idx][i] != busiest.curr
    modifies busiest.tasks`inArray, a`nrActive, a`bitmap, a`queue, a`slot, busiest`nrRunning, busiest`tasks,
             here`nrRunning, here`tasks, here.active`nrActive, here.active`bitmap, here.active`queue, here.active`slot,
             here.curr`needResched
    ensures Pair(here, busiest) && next == old(a.queue[idx][i]) && next in old(busiest.tasks)
    ensures here.tasks == old(here.tasks) + {next} && busiest.tasks == old(busiest.tasks) - {next}
    ensures here.nrRunning == old(here.nrRunning) + 1 && busiest.nrRunning == old(busiest.nrRunning) - 1
    ensures Key(next) == idx && a.queue == Without(old(a.queue), idx, next)
    ensures idx < |a.queue| && i <= |a.queue[idx]| && a.queue[idx][..i] == old(a.queue[idx][..i])
    ensures here.active.queue == Added(old(here.active.queue), Key(next), next)
    ensures here.curr.needResched == (old(here.curr.needResched) || next.prio < here.curr.prio)
  {
    assert here.Sane() && busiest.Valid();
    next := a.queue[idx][i];
    QueuedUnder(busiest, next, a);
    assert QueueOk(a.bitmap, a.queue, a.slot, idx);
    assert next in a.queue[idx];
    RemovedAt(a.queue[idx], i);
    PullTask(next, a, here, busiest);
  }

  // How far a scan has come: `moved` are the first of `all`, `rest` is still to be seen, and
  // `budget` more of n may move.
  ghost predicate Partial(all: seq<Task>, moved: seq<Task>, rest: seq<Task>, n: int, budget: int) {
    all == moved + rest && |moved| + budget == n && 1 <= budget
  }

  // The scan is over: all that could move has, or as many as may.
  ghost predicate Finished(all: seq<Task>, moved: seq<Task>, n: int) {
    moved <= all && (|moved| == n || (moved == all && |moved| < n))
  }

  // The two runqueues before.
  datatype Before = Before(qa: Queues, qh: Queues, th: set<Task>, tb: set<Task>, nh: int, nb: int, need: bool)

  // The state after moving `moved` away.
  ghost predicate Pulled(a: PrioArray, here: Runqueue, busiest: Runqueue, moved: seq<Task>, b: Before)
    reads a`queue, here`active, here.active`queue, here`tasks, here`nrRunning, busiest`tasks, busiest`nrRunning
    reads moved`policy, moved`prio, moved`shortPrio, here`curr, here.curr`needResched, here.curr`prio
  {
    && a.queue == WithoutAll(b.qa, moved) && here.active.queue == AddedAll(b.qh, moved)
    && Elems(moved) <= b.tb && here.tasks == b.th + Elems(moved) && busiest.tasks == b.tb - Elems(moved)
    && here.nrRunning == b.nh + |moved| && busiest.nrRunning == b.nb - |moved|
    && here.curr.needResched == (b.need || Better(moved, here.curr))
  }

  lemma PulledOne(a: PrioArray, here: Runqueue, busiest: Runqueue, moved: seq<Task>, t: Task, b: Before, c: Before)
    requires c.qa == WithoutAll(b.qa, moved) && c.qh == AddedAll(b.qh, moved)
    requires Elems(moved) <= b.tb && c.th == b.th + Elems(moved) && c.tb == b.tb - Elems(moved) && t in c.tb
    requires c.nh == b.nh + |moved| && c.nb == b.nb - |moved| && c.need == (b.need || Better(moved, here.curr))
    requires a.queue == Without(c.qa, Key(t), t) && here.active.queue == Added(c.qh, Key(t), t)
    requires here.tasks == c.th + {t} && busiest.tasks == c.tb - {t}
    requires here.nrRunning == c.nh + 1 && busiest.nrRunning == c.nb - 1
    requires here.curr.needResched == (c.need || t.prio < here.curr.prio)
    ensures Pulled(a, here, busiest, moved + [t], b)
  {
    OneMore(b.qa, moved, t, here.curr);
    OneMore(b.qh, moved, t, here.curr);
  }

  ghost function Snapshot(a: PrioArray, here: Runqueue, busiest: Runqueue): Before
    reads a`queue, here`active, here.active`queue, here`tasks, here`nrRunning, busiest`tasks, busiest`nrRunning,
          here`curr, here.curr`needResched
  {
    Before(a.queue, here.active.queue, here.tasks, busiest.tasks, here.nrRunning, busiest.nrRunning,
           here.curr.needResched)
  }

  method MoveCounted(a: PrioArray, idx: nat, i: nat, here: Runqueue, busiest: Runqueue, ghost moved: seq<Task>,
                     ghost b: Before)
      returns (next: Task)
    requires Pair(here, busiest) && a in {busiest.active, busiest.expired} && idx < |a.queue| && i < |a.queue[idx]|
    requires a.queue[idx][i] != busiest.curr && Pulled(a, here, busiest, moved, b)
    modifies busiest.tasks`inArray, a`nrActive, a`bitmap, a`queue, a`slot, busiest`nrRunning, busiest`tasks,
             here`nrRunning, here`tasks, here.active`nrActive, here.active`bitmap, here.active`queue, here.active`slot,
             here.curr`needResched
    ensures Pair(here, busiest) && next == old(a.queue[idx][i]) && next in old(busiest.tasks)
    ensures Key(next) == idx && a.queue == Without(old(a.queue), idx, next)
    ensures idx < |a.queue| && i <= |a.queue[idx]| && a.queue[idx][..i] == old(a.queue[idx][..i])
    ensures busiest.tasks <= old(busiest.tasks) && Pulled(a, here, busiest, moved + [next], b)
  {
    ghost var c := Snapshot(a, here, busiest);
    next := MoveEntry(a, idx, i, here, busiest);
    PulledOne(a, here, busiest, moved, next, b, c);
  }

  function Budget(idle: bool, imbalance: int): int {
    if idle then 1 else imbalance
  }

  // What is to be seen of queue idx, from entry i - 1 to the head.
  lemma EntryIsTask(a: PrioArray, idx: nat, i: nat, here: Runqueue, busiest: Runqueue, can: set<Task>, rest: seq<Task>)
    requires Pair(here, busiest) && a in {busiest.active, busiest.expired} && idx < |a.queue| && i < |a.queue[idx]|
    ensures var t := a.queue[idx][i];
            && t in busiest.tasks
            && TailFirst(a.queue[idx][..i + 1], can) + rest
               == (if t in can then [t] else []) + (TailFirst(a.queue[idx][..i], can) + rest)
  {
    var t := a.queue[idx][i];
    assert busiest.Valid();
    QueuedUnder(busiest, t, a);
    assert QueueOk(a.bitmap, a.queue, a.slot, idx);
    assert t in a.queue[idx];
    assert a.queue[idx][..i + 1][..i] == a.queue[idx][..i];
  }

  lemma Shorter(l: seq<Task>, q: seq<Task>, i: nat)
    requires i < |l| && i < |q| && l[..i + 1] == q[..i + 1]
    ensures l[..i] == q[..i]
  {
    assert l[..i + 1][..i] == l[..i] && q[..i + 1][..i] == q[..i];
  }

  lemma QueueSeen(all: seq<Task>, moved: seq<Task>, q: seq<Task>, can: set<Task>, rest: seq<Task>, n: int, budget: int)
    requires Partial(all, moved, TailFirst(q[..0], can) + rest, n, budget)
    ensures Partial(all, moved, rest, n, budget)
  {
    assert TailFirst(q[..0], can) + rest == rest;
  }

  lemma Onward(all: seq<Task>, moved: seq<Task>, t: Task, rest: seq<Task>, n: int, idle: bool, left: int)
    requires Partial(all, moved, [t] + rest, n, Budget(idle, left))
    ensures if idle || left == 1 then Finished(all, moved + [t], n)
            else Partial(all, moved + [t], rest, n, Budget(idle, left - 1))
  {
    assert moved + ([t] + rest) == (moved + [t]) + rest;
  }

  // One entry is passed over or moved.
  method ScanEntry(a: PrioArray, idx: nat, i: nat, here: Runqueue, busiest: Runqueue, idle: bool, imbalance: int,
                   cpu: int,
                   jiffies: int, decay: int, ghost can: set<Task>, ghost all: seq<Task>, ghost moved0: seq<Task>,
                   ghost rest: seq<Task>, ghost n: int, ghost b: Before)
      returns (left: int, done: bool, ghost moved: seq<Task>)
    requires Pair(here, busiest) && a in {busiest.active, busiest.expired} && idx < |a.queue| && i < |a.queue[idx]|
    requires Judged(can, b.tb, busiest.curr, cpu, jiffies, decay) && Pulled(a, here, busiest, moved0, b)
    requires Partial(all, moved0, TailFirst(a.queue[idx][..i + 1], can) + rest, n, Budget(idle, imbalance))
    modifies busiest.tasks`inArray, a`nrActive, a`bitmap, a`queue, a`slot, busiest`nrRunning, busiest`tasks,
             here`nrRunning, here`tasks, here.active`nrActive, here.active`bitmap, here.active`queue, here.active`slot,
             here.curr`needResched
    ensures Pair(here, busiest) && Pulled(a, here, busiest, moved, b)
    ensures Judged(can, b.tb, busiest.curr, cpu, jiffies, decay)
    ensures busiest.tasks <= old(busiest.tasks) && |a.queue| == |old(a.queue)|
    ensures i <= |a.queue[idx]| && a.queue[idx][..i] == old(a.queue[idx])[..i]
    ensures forall k :: 0 <= k < |a.queue| && k != idx ==> a.queue[k] == old(a.queue[k])
    ensures if done then Finished(all, moved, n)
            else Partial(all, moved, TailFirst(old(a.queue[idx])[..i], can) + rest, n, Budget(idle, left))
  {
    left, done, moved := imbalance, false, moved0;
    var tmp := a.queue[idx][i];
    EntryIsTask(a, idx, i, here, busiest, can, rest);
    assert Fair(can, tmp, busiest.curr, cpu, jiffies, decay);
    assert tmp in can <==> CanMigrate(tmp, busiest.curr, cpu, jiffies, decay);
    if CanMigrate(tmp, busiest.curr, cpu, jiffies, decay) {
      Onward(all, moved0, tmp, TailFirst(a.queue[idx][..i], can) + rest, n, idle, imbalance);
      var next := MoveCounted(a, idx, i, here, busiest, moved, b);
      moved := moved + [next];
      left := left - 1;
      done := idle || left == 0;
    }
  }

  // From the tail of queue idx to its head.
  method ScanQueue(a: PrioArray, idx: nat, here: Runqueue, busiest: Runqueue, idle: bool, imbalance: int, cpu: int,
                   jiffies: int, decay: int, ghost can: set<Task>, ghost all: seq<Task>, ghost moved0: seq<Task>,
                   ghost rest: seq<Task>, ghost n: int, ghost b: Before)
      returns (left: int, done: bool, ghost moved: seq<Task>)
    requires Pair(here, busiest) && a in {busiest.active, busiest.expired} && idx < |a.queue|
    requires Judged(can, b.tb, busiest.curr, cpu, jiffies, decay) && Pulled(a, here, busiest, moved0, b)
    requires Partial(all, moved0, TailFirst(a.queue[idx], can) + rest, n, Budget(idle, imbalance))
    modifies busiest.tasks`inArray, a`nrActive, a`bitmap, a`queue, a`slot, busiest`nrRunning, busiest`tasks,
             here`nrRunning, here`tasks, here.active`nrActive, here.active`bitmap, here.active`queue, here.active`slot,
             here.curr`needResched
    ensures Pair(here, busiest) && Pulled(a, here, busiest, moved, b)
    ensures Judged(can, b.tb, busiest.curr, cpu, jiffies, decay)
    ensures busiest.tasks <= old(busiest.tasks) && |a.queue| == |old(a.queue)|
    ensures forall k :: 0 <= k < |a.queue| && k != idx ==> a.queue[k] == old(a.queue[k])
    ensures if done then Finished(all, moved, n) else Partial(all, moved, rest, n, Budget(idle, left))
  {
    left, done, moved := imbalance, false, moved0;
    var i := |a.queue[idx]|;
    ghost var q := a.queue[idx];
    assert q[..i] == q;
    while i > 0 && !done
      invariant 0 <= i <= |q| && idx < |a.queue| == |old(a.queue)| && i <= |a.queue[idx]| && a.queue[idx][..i] == q[..i]
      invariant forall k :: 0 <= k < |a.queue| && k != idx ==> a.queue[k] == old(a.queue[k])
      invariant Pair(here, busiest) && Pulled(a, here, busiest, moved, b) && busiest.tasks <= old(busiest.tasks)
      invariant Judged(can, b.tb, busiest.curr, cpu, jiffies, decay)
      invariant if done then Finished(all, moved, n)
                else Partial(all, moved, TailFirst(q[..i], can) + rest, n, Budget(idle, left))
    {
      i := i - 1;
      Shorter(a.queue[idx], q, i);
      left, done, moved := ScanEntry(a, idx, i, here, busiest, idle, left, cpu, jiffies, decay, can, all, moved, rest,
                                     n, b);
    }
    if !done {
      QueueSeen(all, moved, q, can, rest, n, Budget(idle, left));
    }
  }

  // ---- one array, from priority 0 -----------------------------------------------------------------------

  // What can move of the queues from k on.
  function From(q: Queues, k: nat, can: set<Task>): seq<Task>
    requires k <= |q|
    decreases |q| - k
  {
    if k == |q| then [] else TailFirst(q[k], can) + From(q, k + 1, can)
  }

  lemma {:induction false} SkipEmpty(q: Queues, i: nat, j: nat, can: set<Task>)
    requires i <= j <= |q| && forall k :: i <= k < j ==> q[k] == []
    ensures From(q, i, can) == From(q, j, can)
    decreases j - i
  {
    if i < j { SkipEmpty(q, i + 1, j, can); }
  }

  // Queues that have not been seen yet do not change what is left to see.
  lemma {:induction false} SameFrom(q: Queues, q': Queues, k: nat, can: set<Task>)
    requires k <= |q| == |q'| && forall j :: k <= j < |q| ==> q'[j] == q[j]
    ensures From(q', k, can) == From(q, k, can)
    decreases |q| - k
  {
    if k < |q| { SameFrom(q, q', k + 1, can); }
  }

  // From queue k on, nothing has changed.
  ghost predicate Ahead(q': Queues, q: Queues, k: nat) {
    |q'| == |q| == MAX_PRIO && k <= MAX_PRIO && forall j :: k <= j < MAX_PRIO ==> q'[j] == q[j]
  }

  // The bitmap leads from one queue with tasks to the next.
  lemma NextQueue(a: PrioArray, here: Runqueue, busiest: Runqueue, k: nat, q: Queues, can: set<Task>)
    requires Pair(here, busiest) && a in {busiest.active, busiest.expired} && k <= MAX_PRIO && |q| == MAX_PRIO
    requires Ahead(a.queue, q, k)
    ensures |a.bitmap| == MAX_PRIO && Ahead(a.queue, q, FirstSet(a.bitmap, k))
    ensures From(q, k, can) == From(q, FirstSet(a.bitmap, k), can)
  {
    assert busiest.Valid();
    assert Filed(a, busiest.tasks);
    forall j | k <= j < FirstSet(a.bitmap, k) ensures q[j] == [] {
      assert QueueOk(a.bitmap, a.queue, a.slot, j);
    }
    SkipEmpty(q, k, FirstSet(a.bitmap, k), can);
  }

  lemma Unfold(q: Queues, k: nat, can: set<Task>, rest: seq<Task>)
    requires k < |q|
    ensures From(q, k, can) + rest == TailFirst(q[k], can) + (From(q, k + 1, can) + rest)
  {
  }

  lemma TwoArrays(here: Runqueue, busiest: Runqueue)
    requires Pair(here, busiest)
    ensures busiest.active != busiest.expired && |busiest.active.queue| == |busiest.expired.queue| == MAX_PRIO
  {
    ArraySize(busiest.active, here, busiest);
    ArraySize(busiest.expired, here, busiest);
    assert busiest.Valid();
  }

  lemma ArraySize(a: PrioArray, here: Runqueue, busiest: Runqueue)
    requires Pair(here, busiest) && a in {busiest.active, busiest.expired}
    ensures |a.queue| == |a.bitmap| == MAX_PRIO
  {
    assert busiest.Valid();
    assert Filed(a, busiest.tasks);
  }

  // One queue, and the way to the next.
  method ScanNext(a: PrioArray, idx: nat, here: Runqueue, busiest: Runqueue, idle: bool, imbalance: int, cpu: int,
                  jiffies: int, decay: int, ghost can: set<Task>, ghost all: seq<Task>, ghost moved0: seq<Task>,
                  ghost rest: seq<Task>, ghost n: int, ghost b: Before, ghost q: Queues)
      returns (next: nat, left: int, done: bool, ghost moved: seq<Task>)
    requires Pair(here, busiest) && a in {busiest.active, busiest.expired}
    requires Judged(can, b.tb, busiest.curr, cpu, jiffies, decay) && Pulled(a, here, busiest, moved0, b)
    requires Ahead(a.queue, q, idx) && idx < MAX_PRIO
    requires Partial(all, moved0, From(q, idx, can) + rest, n, Budget(idle, imbalance))
    modifies busiest.tasks`inArray, a`nrActive, a`bitmap, a`queue, a`slot, busiest`nrRunning, busiest`tasks,
             here`nrRunning, here`tasks, here.active`nrActive, here.active`bitmap, here.active`queue, here.active`slot,
             here.curr`needResched
    ensures Pair(here, busiest) && Pulled(a, here, busiest, moved, b)
    ensures Judged(can, b.tb, busiest.curr, cpu, jiffies, decay) && busiest.tasks <= old(busiest.tasks)
    ensures if done then Finished(all, moved, n)
            else idx < next && Ahead(a.queue, q, next) && Partial(all, moved, From(q, next, can) + rest, n,
                                                                  Budget(idle, left))
  {
    Unfold(q, idx, can, rest);
    left, done, moved := ScanQueue(a, idx, here, busiest, idle, imbalance, cpu, jiffies, decay, can, all, moved0,
                                   From(q, idx + 1, can) + rest, n, b);
    next := idx;
    if !done {
      NextQueue(a, here, busiest, idx + 1, q, can);
      next := FirstSet(a.bitmap, idx + 1);
    }
  }

  method ScanArray(a: PrioArray, here: Runqueue, busiest: Runqueue, idle: bool, imbalance: int, cpu: int,
                   jiffies: int, decay: int, ghost can: set<Task>, ghost all: seq<Task>, ghost moved0: seq<Task>,
                   ghost rest: seq<Task>, ghost n: int, ghost b: Before)
      returns (left: int, done: bool, ghost moved: seq<Task>)
    requires Pair(here, busiest) && a in {busiest.active, busiest.expired}
    requires Judged(can, b.tb, busiest.curr, cpu, jiffies, decay) && Pulled(a, here, busiest, moved0, b)
    requires Partial(all, moved0, From(a.queue, 0, can) + rest, n, Budget(idle, imbalance))
    modifies busiest.tasks`inArray, a`nrActive, a`bitmap, a`queue, a`slot, busiest`nrRunning, busiest`tasks,
             here`nrRunning, here`tasks, here.active`nrActive, here.active`bitmap, here.active`queue, here.active`slot,
             here.curr`needResched
    ensures Pair(here, busiest) && Pulled(a, here, busiest, moved, b)
    ensures Judged(can, b.tb, busiest.curr, cpu, jiffies, decay)
    ensures busiest.tasks <= old(busiest.tasks)
    ensures if done then Finished(all, moved, n) else Partial(all, moved, rest, n, Budget(idle, left))
  {
    left, done, moved := imbalance, false, moved0;
    ghost var q := a.queue;
    ArraySize(a, here, busiest);
    NextQueue(a, here, busiest, 0, q, can);
    var idx := FirstSet(a.bitmap, 0);
    while idx < MAX_PRIO && !done
      invariant Pair(here, busiest) && Pulled(a, here, busiest, moved, b) && busiest.tasks <= old(busiest.tasks)
      invariant Judged(can, b.tb, busiest.curr, cpu, jiffies, decay)
      invariant if done then Finished(all, moved, n)
                else Ahead(a.queue, q, idx) && Partial(all, moved, From(q, idx, can) + rest, n, Budget(idle, left))
      decreases !done, MAX_PRIO - idx
    {
      idx, left, done, moved := ScanNext(a, idx, here, busiest, idle, left, cpu, jiffies, decay, can, all, moved,
                                         rest, n, b, q);
    }
    if !done {
      assert From(q, idx, can) + rest == rest;
    }
  }

  // ---- both arrays -----------------------------------------------------------------------------------------

  lemma {:induction false} FoldConcat(q: Queues, l: seq<Task>, m: seq<Task>, curr: Task)
    ensures AddedAll(AddedAll(q, l), m) == AddedAll(q, l + m)
    ensures Elems(l + m) == Elems(l) + Elems(m)
    ensures Better(l + m, curr) == (Better(l, curr) || Better(m, curr))
  {
    if m == [] {
      assert l + m == l;
    } else {
      var m', t := m[..|m| - 1], m[|m| - 1];
      FoldConcat(q, l, m', curr);
      assert m == m' + [t] && l + m == (l + m') + [t];
      OneMore(q, l + m', t, curr);
      OneMore(AddedAll(q, l), m', t, curr);
    }
  }

  lemma NothingThere(a: PrioArray, here: Runqueue, busiest: Runqueue, can: set<Task>)
    requires Pair(here, busiest) && a in {busiest.active, busiest.expired}
    ensures |a.queue| == MAX_PRIO && (a.nrActive == 0 ==> From(a.queue, 0, can) == [])
  {
    assert busiest.Valid();
    assert Filed(a, busiest.tasks);
    if a.nrActive == 0 {
      forall k | 0 <= k < MAX_PRIO ensures a.queue[k] == [] {
        TotalAtLeast(a.queue, k);
      }
      SkipEmpty(a.queue, 0, MAX_PRIO, can);
    }
  }

  /** What moving `m1` of the expired and then `m2` of the active tasks comes to. */
  ghost predicate Moved(here: Runqueue, busiest: Runqueue, m1: seq<Task>, m2: seq<Task>, qe: Queues, b: Before)
    reads here`active, here.active`queue, here`tasks, here`nrRunning, busiest`active, busiest`expired, busiest`tasks,
          busiest`nrRunning
    reads busiest.active`queue, busiest.expired`queue
    reads m1`policy, m1`prio, m1`shortPrio, m2`policy, m2`prio, m2`shortPrio, here`curr, here.curr`needResched,
          here.curr`prio
  {
    && busiest.expired.queue == WithoutAll(qe, m1) && busiest.active.queue == WithoutAll(b.qa, m2)
    && here.active.queue == AddedAll(b.qh, m1 + m2)
    && Elems(m1 + m2) <= b.tb && here.tasks == b.th + Elems(m1 + m2) && busiest.tasks == b.tb - Elems(m1 + m2)
    && here.nrRunning == b.nh + |m1 + m2| && busiest.nrRunning == b.nb - |m1 + m2|
    && here.curr.needResched == (b.need || Better(m1 + m2, here.curr))
  }

  // The expired tasks, if there are any.
  method ScanExpired(here: Runqueue, busiest: Runqueue, idle: bool, imbalance: int, cpu: int, jiffies: int, decay: int,
                     ghost can: set<Task>, ghost all: seq<Task>, ghost rest: seq<Task>)
      returns (left: int, done: bool, ghost moved: seq<Task>)
    requires Pair(here, busiest) && Judged(can, busiest.tasks, busiest.curr, cpu, jiffies, decay)
    requires |busiest.expired.queue| == MAX_PRIO && 1 <= Budget(idle, imbalance)
    requires all == From(busiest.expired.queue, 0, can) + rest
    requires busiest.active != busiest.expired
    modifies busiest.tasks`inArray, busiest.expired`nrActive, busiest.expired`bitmap, busiest.expired`queue,
             busiest.expired`slot, busiest`nrRunning, busiest`tasks, here`nrRunning, here`tasks, here.active`nrActive,
             here.active`bitmap, here.active`queue, here.active`slot, here.curr`needResched
    ensures Pair(here, busiest)
    ensures Moved(here, busiest, moved, [], old(busiest.expired.queue), old(Snapshot(busiest.active, here, busiest)))
    ensures Judged(can, busiest.tasks, busiest.curr, cpu, jiffies, decay) && busiest.tasks <= old(busiest.tasks)
    ensures busiest.active.queue == old(busiest.active.queue)
    ensures if done then Finished(all, moved, Budget(idle, imbalance))
            else Partial(all, moved, rest, Budget(idle, imbalance), Budget(idle, left))
  {
    ghost var b := Snapshot(busiest.expired, here, busiest);
    left, done, moved := imbalance, false, [];
    NothingThere(busiest.expired, here, busiest, can);
    if busiest.expired.nrActive != 0 {
      left, done, moved := ScanArray(busiest.expired, here, busiest, idle, imbalance, cpu, jiffies, decay, can, all,
                                     [], rest,
                                     Budget(idle, imbalance), b);
    }
    MovedFirst(here, busiest, moved, b, busiest.active.queue);
  }

  lemma BothScans(all: seq<Task>, m1: seq<Task>, rest: seq<Task>, m2: seq<Task>, n: int, budget: int)
    requires Partial(all, m1, rest, n, budget) && Finished(rest, m2, budget)
    ensures Finished(all, m1 + m2, n)
  {
    assert rest == m2 + rest[|m2|..];
    assert all == (m1 + m2) + rest[|m2|..];
  }

  lemma ScanOver(all: seq<Task>, moved: seq<Task>, n: int, budget: int)
    requires Partial(all, moved, [], n, budget)
    ensures Finished(all, moved, n)
  {
    assert moved + [] == moved;
  }

  // The active tasks.
  method ScanActive(here: Runqueue, busiest: Runqueue, idle: bool, imbalance: int, cpu: int, jiffies: int, decay: int,
                    ghost can: set<Task>)
      returns (ghost moved: seq<Task>)
    requires Pair(here, busiest) && Judged(can, busiest.tasks, busiest.curr, cpu, jiffies, decay)
    requires |busiest.active.queue| == MAX_PRIO && 1 <= Budget(idle, imbalance)
    modifies busiest.tasks`inArray, busiest.active`nrActive, busiest.active`bitmap, busiest.active`queue,
             busiest.active`slot, busiest`nrRunning, busiest`tasks, here`nrRunning, here`tasks, here.active`nrActive,
             here.active`bitmap, here.active`queue, here.active`slot, here.curr`needResched
    ensures Pair(here, busiest)
    ensures Pulled(busiest.active, here, busiest, moved, old(Snapshot(busiest.active, here, busiest)))
    ensures Finished(old(From(busiest.active.queue, 0, can)), moved, Budget(idle, imbalance))
  {
    ghost var b := Snapshot(busiest.active, here, busiest);
    ghost var all := From(busiest.active.queue, 0, can);
    assert all == [] + (all + []);
    var left, done;
    left, done, moved := ScanArray(busiest.active, here, busiest, idle, imbalance, cpu, jiffies, decay, can, all, [], [],
                                   Budget(idle, imbalance), b);
    if !done {
      ScanOver(all, moved, Budget(idle, imbalance), Budget(idle, left));
    }
  }

  // After the expired tasks alone.
  lemma MovedFirst(here: Runqueue, busiest: Runqueue, m1: seq<Task>, b: Before, qa: Queues)
    requires Pulled(busiest.expired, here, busiest, m1, b) && busiest.active.queue == qa
    ensures Moved(here, busiest, m1, [], b.qa, b.(qa := qa))
  {
    assert m1 + [] == m1;
  }

  lemma MovedBoth(here: Runqueue, busiest: Runqueue, m1: seq<Task>, m2: seq<Task>, qe: Queues, b: Before, c: Before)
    requires busiest.expired.queue == WithoutAll(qe, m1) && c.qa == b.qa && c.qh == AddedAll(b.qh, m1)
    requires Elems(m1) <= b.tb && c.th == b.th + Elems(m1) && c.tb == b.tb - Elems(m1)
    requires c.nh == b.nh + |m1| && c.nb == b.nb - |m1| && c.need == (b.need || Better(m1, here.curr))
    requires Pulled(busiest.active, here, busiest, m2, c)
    ensures Moved(here, busiest, m1, m2, qe, b)
  {
    FoldConcat(b.qh, m1, m2, here.curr);
  }

  // The active tasks after some expired ones.
  method ScanSecond(here: Runqueue, busiest: Runqueue, idle: bool, imbalance: int, cpu: int, jiffies: int, decay: int,
                    ghost can: set<Task>, ghost m1: seq<Task>, ghost qe: Queues, ghost b: Before)
      returns (ghost m2: seq<Task>)
    requires Pair(here, busiest) && Judged(can, busiest.tasks, busiest.curr, cpu, jiffies, decay)
    requires |busiest.active.queue| == MAX_PRIO && 1 <= Budget(idle, imbalance) && busiest.active != busiest.expired
    requires Moved(here, busiest, m1, [], qe, b)
    modifies busiest.tasks`inArray, busiest.active`nrActive, busiest.active`bitmap, busiest.active`queue,
             busiest.active`slot, busiest`nrRunning, busiest`tasks, here`nrRunning, here`tasks, here.active`nrActive,
             here.active`bitmap, here.active`queue, here.active`slot, here.curr`needResched
    ensures Pair(here, busiest) && Moved(here, busiest, m1, m2, qe, b)
    ensures Finished(old(From(busiest.active.queue, 0, can)), m2, Budget(idle, imbalance))
  {
    ghost var c := Snapshot(busiest.active, here, busiest);
    assert m1 + [] == m1;
    m2 := ScanActive(here, busiest, idle, imbalance, cpu, jiffies, decay, can);
    MovedBoth(here, busiest, m1, m2, qe, b, c);
  }

  /** Expired tasks first, then active ones; the best priority first, the tail of each queue first;
      until the budget is used up or no task is left that can migrate. */
  method MoveTasks(here: Runqueue, busiest: Runqueue, idle: bool, imbalance: int, cpu: int, jiffies: int, decay: int,
                   ghost can: set<Task>)
      returns (ghost m1: seq<Task>, ghost m2: seq<Task>)
    requires Pair(here, busiest) && Judged(can, busiest.tasks, busiest.curr, cpu, jiffies, decay)
    requires 1 <= Budget(idle, imbalance)
    modifies busiest.tasks`inArray, busiest.expired`nrActive, busiest.expired`bitmap, busiest.expired`queue,
             busiest.expired`slot, busiest.active`nrActive, busiest.active`bitmap, busiest.active`queue,
             busiest.active`slot, busiest`nrRunning, busiest`tasks, here`nrRunning, here`tasks, here.active`nrActive,
             here.active`bitmap, here.active`queue, here.active`slot, here.curr`needResched
    ensures Pair(here, busiest)
    ensures Moved(here, busiest, m1, m2, old(busiest.expired.queue), old(Snapshot(busiest.active, here, busiest)))
    ensures |old(busiest.expired.queue)| == |old(busiest.active.queue)| == MAX_PRIO
    ensures Finished(old(From(busiest.expired.queue, 0, can)) + old(From(busiest.active.queue, 0, can)), m1 + m2,
                     Budget(idle, imbalance))
  {
    TwoArrays(here, busiest);
    ghost var rest := From(busiest.active.queue, 0, can);
    ghost var all := From(busiest.expired.queue, 0, can) + rest;
    ghost var qe, b := busiest.expired.queue, Snapshot(busiest.active, here, busiest);
    var left, done;
    left, done, m1 := ScanExpired(here, busiest, idle, imbalance, cpu, jiffies, decay, can, all, rest);
    m2 := [];
    assert m1 + m2 == m1;
    if !done {
      m2 := ScanSecond(here, busiest, idle, left, cpu, jiffies, decay, can, m1, qe, b);
      BothScans(all, m1, rest, m2, Budget(idle, imbalance), Budget(idle, left));
    }
  }
}
