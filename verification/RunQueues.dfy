/** Tasks, priority arrays and runqueues of the scheduler, and the two operations every other
    one is built from: putting a task at the tail of its queue and taking it out. */
module RunQueues {
  import opened Common

  const MAX_USER_RT_PRIO := 100
  const MAX_RT_PRIO := 100
  const MAX_PRIO := 140

  const SCHED_OTHER := 0
  const SCHED_FIFO := 1
  const SCHED_RR := 2
  const SCHED_SHORT := 5

  // Timer interrupts a second.
  type Hz = h: int | 100 <= h witness 100

  datatype RunState = Running | Interruptible | Uninterruptible | Stopped

  class Task {
    const pid: int
    var policy: int
    var prio: int
    var staticPrio: int
    var rtPriority: int
    var shortPrio: int
    var requestedTime: int
    var timeLeft: nat
    var timeSlice: int
    var sleepAvg: nat
    var sleepTimestamp: int
    var cpusAllowed: set<int>
    var state: RunState
    var needResched: bool
    var inArray: PrioArray?

    // A task that is not queued yet, with the values a new child has.
    constructor (pid: int, staticPrio: int, timeSlice: int, cpusAllowed: set<int>)
      ensures policy == SCHED_OTHER && prio == this.staticPrio == staticPrio && this.timeSlice == timeSlice
      ensures inArray == null && !needResched && sleepAvg == 0 && state == Uninterruptible && this.pid == pid
      ensures shortPrio == -1 && timeLeft == 0 && sleepTimestamp == 0
    {
      this.pid, this.staticPrio, this.prio, this.timeSlice := pid, staticPrio, staticPrio, timeSlice;
      this.cpusAllowed := cpusAllowed;
      policy, rtPriority, shortPrio, requestedTime, timeLeft := SCHED_OTHER, 0, -1, 0, 0;
      sleepAvg, sleepTimestamp, state, needResched, inArray := 0, 0, Uninterruptible, false, null;
    }
  }

  /** nr_active counts the tasks of all queues; bit k is set when queue k has any.  `slot` says
      of every task in a queue in which one it is. */
  class PrioArray {
    var nrActive: int
    var bitmap: seq<bool>
    var queue: seq<seq<Task>>
    ghost var slot: map<Task, int>

    ghost predicate Valid()
      reads this`nrActive, this`bitmap, this`queue, this`slot
    {
      Indexed(nrActive, bitmap, queue, slot)
    }

    constructor ()
      ensures Valid() && slot == map[] && nrActive == 0
    {
      nrActive, slot := 0, map[];
      bitmap := seq(MAX_PRIO, k => false);
      queue := seq(MAX_PRIO, k => []);
      new;
      NoneQueued(queue);
    }
  }

  // ---- queues as values ---------------------------------------------------------------------------

  type Queues = seq<seq<Task>>

  function Total(q: Queues): nat {
    if q == [] then 0 else |q[0]| + Total(q[1..])
  }

  lemma {:induction false} NoneQueued(q: Queues)
    requires forall k :: 0 <= k < |q| ==> q[k] == []
    ensures Total(q) == 0
  {
    if q != [] { NoneQueued(q[1..]); }
  }

  lemma {:induction false} TotalUpdate(q: Queues, k: nat, l: seq<Task>)
    requires k < |q|
    ensures Total(q[k := l]) == Total(q) - |q[k]| + |l|
  {
    if k == 0 {
      assert q[0 := l][1..] == q[1..];
    } else {
      TotalUpdate(q[1..], k - 1, l);
      assert q[k := l][1..] == q[1..][k - 1 := l];
    }
  }

  lemma {:induction false} TotalAtLeast(q: Queues, k: nat)
    requires k < |q|
    ensures Total(q) >= |q[k]|
  {
    if k > 0 { TotalAtLeast(q[1..], k - 1); }
  }

  // The bits below `to` from `from` on that are set: the first of them, or `to` when there is none.
  function FirstSet(bits: seq<bool>, from: nat): (k: nat)
    requires from <= |bits|
    ensures from <= k <= |bits|
    ensures forall j :: from <= j < k ==> !bits[j]
    ensures k < |bits| ==> bits[k]
    decreases |bits| - from
  {
    if from == |bits| || bits[from] then from else FirstSet(bits, from + 1)
  }

  function Removed(l: seq<Task>, p: Task): seq<Task> {
    if l == [] then [] else if l[0] == p then l[1..] else [l[0]] + Removed(l[1..], p)
  }

  lemma RemovedIn(l: seq<Task>, p: Task, t: Task)
    requires NoDup(l) && p in l
    ensures t in Removed(l, p) <==> t in l && t != p
  {
    RemovedFacts(l, p);
  }

  // Taking out an entry keeps the order of the others.
  lemma {:induction false} RemovedAt(l: seq<Task>, i: nat)
    requires i < |l| && forall j :: 0 <= j < i ==> l[j] != l[i]
    ensures Removed(l, l[i]) == l[..i] + l[i + 1..]
  {
    if i > 0 {
      RemovedAt(l[1..], i - 1);
      assert l[1..][..i - 1] == l[1..i];
      assert [l[0]] + (l[1..i] + l[i + 1..]) == l[..i] + l[i + 1..];
    }
  }

  lemma RemovedFacts(l: seq<Task>, p: Task)
    requires NoDup(l) && p in l
    ensures |Removed(l, p)| == |l| - 1 && NoDup(Removed(l, p)) && p !in Removed(l, p)
    ensures forall t :: t != p ==> (t in Removed(l, p) <==> t in l)
  {
    var i :| 0 <= i < |l| && l[i] == p;
    RemovedAt(l, i);
    assert l == l[..i] + [l[i]] + l[i + 1..];
  }

  // Queue k has its bit, no task twice, and only tasks whose slot is k.
  ghost predicate QueueOk(bits: seq<bool>, q: Queues, slot: map<Task, int>, k: int)
    requires 0 <= k < |q| && |q| == |bits|
  {
    && (bits[k] <==> q[k] != []) && NoDup(q[k])
    && forall t {:trigger t in q[k]} :: t in q[k] ==> t in slot && slot[t] == k
  }

  ghost predicate InSlot(q: Queues, slot: map<Task, int>, t: Task) {
    t in slot && 0 <= slot[t] < |q| && t in q[slot[t]]
  }

  ghost predicate Indexed(n: int, bits: seq<bool>, q: Queues, slot: map<Task, int>) {
    && |q| == |bits| == MAX_PRIO && n == Total(q)
    && (forall k {:trigger QueueOk(bits, q, slot, k)} :: 0 <= k < MAX_PRIO ==> QueueOk(bits, q, slot, k))
    && (forall t {:trigger InSlot(q, slot, t)} :: t in slot ==> InSlot(q, slot, t))
  }

  function Added(q: Queues, k: int, p: Task): Queues {
    if 0 <= k < |q| then q[k := q[k] + [p]] else q
  }

  function Without(q: Queues, k: int, p: Task): Queues {
    if 0 <= k < |q| then q[k := Removed(q[k], p)] else q
  }

  function AddedIf(q: Queues, comes: bool, k: int, p: Task): Queues {
    if comes then Added(q, k, p) else q
  }

  function WithoutIf(q: Queues, leaves: bool, k: int, p: Task): Queues {
    if leaves then Without(q, k, p) else q
  }

  lemma IndexedAdded(n: int, bits: seq<bool>, q: Queues, slot: map<Task, int>, k: int, p: Task)
    requires Indexed(n, bits, q, slot) && 0 <= k < MAX_PRIO && p !in slot
    ensures Indexed(n + 1, bits[k := true], Added(q, k, p), slot[p := k])
  {
    TotalUpdate(q, k, q[k] + [p]);
    var bits', q', slot' := bits[k := true], Added(q, k, p), slot[p := k];
    forall j | 0 <= j < MAX_PRIO ensures QueueOk(bits', q', slot', j) {
      assert QueueOk(bits, q, slot, j);
      assert p !in q[j];
    }
    forall t | t in slot' ensures InSlot(q', slot', t) {
      if t == p {
        assert q'[k][|q[k]|] == p;
      } else {
        assert InSlot(q, slot, t);
      }
    }
  }

  lemma IndexedWithout(n: int, bits: seq<bool>, q: Queues, slot: map<Task, int>, p: Task)
    requires Indexed(n, bits, q, slot) && p in slot
    ensures var k := slot[p];
            0 <= k < MAX_PRIO && Indexed(n - 1, bits[k := Removed(q[k], p) != []], Without(q, k, p), slot - {p})
  {
    var k := slot[p];
    assert InSlot(q, slot, p);
    assert QueueOk(bits, q, slot, k);
    RemovedFacts(q[k], p);
    TotalUpdate(q, k, Removed(q[k], p));
    var bits', q', slot' := bits[k := Removed(q[k], p) != []], Without(q, k, p), slot - {p};
    forall j | 0 <= j < MAX_PRIO ensures QueueOk(bits', q', slot', j) {
      assert QueueOk(bits, q, slot, j);
      forall t | t in q'[j] ensures t in slot' && slot'[t] == j {
        if j == k { RemovedIn(q[k], p, t); }
        assert t in q[j];
      }
    }
    forall t | t in slot' ensures InSlot(q', slot', t) {
      assert InSlot(q, slot, t);
      RemovedIn(q[k], p, t);
    }
  }

  // ---- where tasks are queued -----------------------------------------------------------------------

  // short_prio for SCHED_SHORT, prio for the others.
  function Key(p: Task): int
    reads p`policy, p`prio, p`shortPrio
  {
    if p.policy == SCHED_SHORT then p.shortPrio else p.prio
  }

  predicate RtTask(p: Task)
    reads p`policy, p`prio
  {
    p.policy != SCHED_SHORT && p.prio < MAX_RT_PRIO
  }

  // The three arrays of a runqueue.
  datatype Arrays = Arrays(active: PrioArray, expired: PrioArray, short: PrioArray)

  // Which array takes a task: SHORT tasks have their own, real-time tasks are never expired.
  ghost predicate Suits(r: Arrays, a: PrioArray, p: Task)
    reads p`policy, p`prio, p`shortPrio
  {
    && 0 <= Key(p) < MAX_PRIO
    && (a == r.active || (a == r.expired && !RtTask(p)) || a == r.short)
    && (a == r.short <==> p.policy == SCHED_SHORT)
  }

  // p is queued in a, under its key, exactly if p->array says so.
  ghost predicate Here(a: PrioArray, p: Task)
    reads a`slot, p`policy, p`prio, p`shortPrio, p`inArray
  {
    (p in a.slot <==> p.inArray == a) && (p in a.slot ==> a.slot[p] == Key(p))
  }

  ghost predicate Filed(a: PrioArray, s: set<Task>)
    reads a`nrActive, a`bitmap, a`queue, a`slot
  {
    a.Valid() && a.slot.Keys <= s
  }

  ghost predicate Home(r: Arrays, p: Task)
    reads r.active`slot, r.expired`slot, r.short`slot, p`policy, p`prio, p`shortPrio, p`inArray
  {
    && Here(r.active, p) && Here(r.expired, p) && Here(r.short, p)
    && (p.inArray != null ==> Suits(r, p.inArray, p))
  }

  /** The three arrays hold tasks of s only; every task of s that is queued is in one queue, the
      right one, once. */
  ghost predicate Placed(r: Arrays, s: set<Task>)
    reads r.active, r.expired, r.short, s`policy, s`prio, s`shortPrio, s`inArray
  {
    && r.active != r.expired && r.active != r.short && r.expired != r.short
    && (forall a {:trigger Filed(a, s)} :: a in {r.active, r.expired, r.short} ==> Filed(a, s))
    && (forall t {:trigger Home(r, t)} :: t in s ==> Home(r, t))
  }

  // ---- enqueue_task and dequeue_task ---------------------------------------------------------------------

  method EnqueueTask(p: Task, a: PrioArray)
    requires a.Valid() && p !in a.slot && 0 <= Key(p) < MAX_PRIO
    modifies p`inArray, a`nrActive, a`bitmap, a`queue, a`slot
    ensures a.Valid() && a.slot == old(a.slot)[p := Key(p)]
    ensures p.inArray == a && a.nrActive == old(a.nrActive) + 1
    ensures a.queue == Added(old(a.queue), Key(p), p)
    // In words: at the tail of the queue of its short_prio or prio, whose bit is set.
    ensures var k, q := if p.policy == SCHED_SHORT then p.shortPrio else p.prio, old(a.queue);
            && 0 <= k < |q| == |old(a.bitmap)|
            && a.queue == q[k := q[k] + [p]] && a.bitmap == old(a.bitmap)[k := true]
  {
    IndexedAdded(a.nrActive, a.bitmap, a.queue, a.slot, Key(p), p);
    if p.policy == SCHED_SHORT {
      a.queue := a.queue[p.shortPrio := a.queue[p.shortPrio] + [p]];
      a.bitmap := a.bitmap[p.shortPrio := true];
      a.nrActive := a.nrActive + 1;
      p.inArray := a;
    } else {
      a.queue := a.queue[p.prio := a.queue[p.prio] + [p]];
      a.bitmap := a.bitmap[p.prio := true];
      a.nrActive := a.nrActive + 1;
      p.inArray := a;
    }
    a.slot := a.slot[p := Key(p)];
  }

  // p->array is left as it is.
  method DequeueTask(p: Task, a: PrioArray)
    requires a.Valid() && p in a.slot && a.slot[p] == Key(p)
    modifies a`nrActive, a`bitmap, a`queue, a`slot
    ensures a.Valid() && a.slot == old(a.slot) - {p}
    ensures a.nrActive == old(a.nrActive) - 1
    ensures a.queue == Without(old(a.queue), Key(p), p)
    // In words: its entry is gone, the others keep their order, and the bit says whether any is left.
    ensures var k, q := if p.policy == SCHED_SHORT then p.shortPrio else p.prio, old(a.queue);
            && 0 <= k < |q| == |old(a.bitmap)|
            && (exists i :: 0 <= i < |q[k]| && q[k][i] == p && a.queue == q[k := q[k][..i] + q[k][i + 1..]])
            && a.bitmap == old(a.bitmap)[k := |q[k]| > 1]
  {
    IndexedWithout(a.nrActive, a.bitmap, a.queue, a.slot, p);
    assert InSlot(a.queue, a.slot, p) && QueueOk(a.bitmap, a.queue, a.slot, Key(p));
    ghost var i :| 0 <= i < |a.queue[Key(p)]| && a.queue[Key(p)][i] == p;
    RemovedAt(a.queue[Key(p)], i);
    a.nrActive := a.nrActive - 1;
    a.queue := a.queue[Key(p) := Removed(a.queue[Key(p)], p)];
    if p.policy == SCHED_SHORT {
      if a.queue[p.shortPrio] == [] {
        a.bitmap := a.bitmap[p.shortPrio := false];
      }
    } else if a.queue[p.prio] == [] {
      a.bitmap := a.bitmap[p.prio := false];
    }
    assert a.bitmap == old(a.bitmap)[Key(p) := a.queue[Key(p)] != []];
    a.slot := a.slot - {p};
  }

  // The same two, seen from the arrays of a runqueue.
  method Enter(p: Task, a: PrioArray, ghost r: Arrays, ghost s: set<Task>)
    requires Placed(r, s) && p !in s && Suits(r, a, p)
    modifies p`inArray, a`nrActive, a`bitmap, a`queue, a`slot
    ensures p.inArray == a && a.nrActive == old(a.nrActive) + 1
    ensures a.queue == Added(old(a.queue), Key(p), p)
    ensures Placed(r, s + {p})
  {
    assert Filed(r.active, s) && Filed(r.expired, s) && Filed(r.short, s);
    EnqueueTask(p, a);
    forall t | t in s + {p} ensures Home(r, t) {
      assert t in s ==> old(Home(r, t));
    }
  }

  method Leave(p: Task, a: PrioArray, ghost r: Arrays, ghost s: set<Task>)
    requires Placed(r, s) && p in s && p.inArray == a
    modifies a`nrActive, a`bitmap, a`queue, a`slot
    ensures a.nrActive == old(a.nrActive) - 1
    ensures a.queue == Without(old(a.queue), Key(p), p)
    ensures Placed(r, s - {p})
  {
    assert Home(r, p);
    assert Filed(r.active, s) && Filed(r.expired, s) && Filed(r.short, s);
    DequeueTask(p, a);
    forall t | t in s - {p} ensures Home(r, t) {
      assert old(Home(r, t));
    }
  }

  // A task that is in no queue can be left out of account.
  lemma Aside(p: Task, r: Arrays, s: set<Task>)
    requires Placed(r, s) && p in s && p.inArray == null
    ensures Placed(r, s - {p})
  {
    assert Home(r, p);
    assert Filed(r.active, s) && Filed(r.expired, s) && Filed(r.short, s);
  }

  lemma Back(p: Task, r: Arrays, s: set<Task>)
    requires Placed(r, s - {p}) && p.inArray == null
    ensures Placed(r, s)
  {
    assert Filed(r.active, s - {p}) && Filed(r.expired, s - {p}) && Filed(r.short, s - {p});
    forall t | t in s ensures Home(r, t) {
      assert t == p || t in s - {p};
    }
  }

  // schedule() swaps active and expired when active is empty.
  lemma Swapped(r: Arrays, s: set<Task>)
    requires Placed(r, s) && r.active.nrActive == 0
    ensures Placed(Arrays(r.expired, r.active, r.short), s)
  {
    assert Filed(r.active, s) && Filed(r.expired, s) && Filed(r.short, s);
    forall t | t in s ensures Home(Arrays(r.expired, r.active, r.short), t) {
      assert Home(r, t);
      if t in r.active.slot {
        assert InSlot(r.active.queue, r.active.slot, t);
        TotalAtLeast(r.active.queue, r.active.slot[t]);
      }
    }
  }

  // ---- what the scheduler needs of each task -------------------------------------------------------------

  // The fields the scheduler computes with, as a value.
  datatype Fields = Fields(policy: int, prio: int, staticPrio: int, shortPrio: int, timeLeft: nat, timeSlice: int,
                           sleepAvg: nat)

  function Now(p: Task): Fields
    reads p`policy, p`prio, p`staticPrio, p`shortPrio, p`timeLeft, p`timeSlice, p`sleepAvg
  {
    Fields(p.policy, p.prio, p.staticPrio, p.shortPrio, p.timeLeft, p.timeSlice, p.sleepAvg)
  }

  predicate Sound(f: Fields, hz: Hz) {
    && MAX_RT_PRIO <= f.staticPrio < MAX_PRIO && f.sleepAvg <= 2 * hz && 1 <= f.timeSlice
    && f.policy in {SCHED_OTHER, SCHED_FIFO, SCHED_RR, SCHED_SHORT}
    && (if f.policy in {SCHED_FIFO, SCHED_RR} then 0 <= f.prio < MAX_RT_PRIO - 1 else MAX_RT_PRIO <= f.prio < MAX_PRIO)
    && (f.policy == SCHED_SHORT ==> 0 <= f.shortPrio < MAX_PRIO && 1 <= f.timeLeft)
  }

  ghost predicate SoundNow(t: Task, hz: Hz)
    reads t`policy, t`prio, t`staticPrio, t`shortPrio, t`timeLeft, t`timeSlice, t`sleepAvg
  {
    Sound(Now(t), hz)
  }

  ghost predicate AllSound(s: set<Task>, hz: Hz)
    reads s`policy, s`prio, s`staticPrio, s`shortPrio, s`timeLeft, s`timeSlice, s`sleepAvg
  {
    forall t {:trigger SoundNow(t, hz)} :: t in s ==> SoundNow(t, hz)
  }

  lemma SoundBut(s: set<Task>, p: Task, hz: Hz)
    requires AllSound(s, hz)
    ensures AllSound(s - {p}, hz) && (p in s ==> Sound(Now(p), hz))
  {
    assert p in s ==> SoundNow(p, hz);
  }

  lemma SoundAgain(s: set<Task>, p: Task, hz: Hz)
    requires AllSound(s - {p}, hz) && Sound(Now(p), hz)
    ensures AllSound(s, hz)
  {
    forall t | t in s ensures SoundNow(t, hz) {
      assert t == p || t in s - {p};
    }
  }

  // ---- runqueues ---------------------------------------------------------------------------------------------

  class Runqueue {
    const hz: Hz
    const idle: Task
    const shortPr: PrioArray
    var active: PrioArray
    var expired: PrioArray
    var curr: Task
    var nrRunning: int
    var nrSwitches: int
    var nrUninterruptible: int
    var expiredTimestamp: int
    var prevNrRunning: seq<int>
    ghost var tasks: set<Task>   // the tasks of this processor, queued or not

    ghost function Trio(): Arrays
      reads this`active, this`expired
    {
      Arrays(active, expired, shortPr)
    }

    // Everything but the current task.
    ghost predicate Consistent(s: set<Task>)
      reads this`active, this`expired, this`nrRunning, active, expired, shortPr, s`inArray, s`policy, s`prio,
            s`staticPrio, s`shortPrio, s`timeLeft, s`timeSlice, s`sleepAvg
      reads idle`policy, idle`prio, idle`state
    {
      Placed(Trio(), s) && AllSound(s, hz) && idle !in s && Tally()
    }

    // nr_running counts the queued tasks; the idle task is as init_idle left it.
    ghost predicate Tally()
      reads this`nrRunning, this`active, this`expired, active`nrActive, expired`nrActive, shortPr`nrActive
      reads idle`policy, idle`prio, idle`state
    {
      && nrRunning == active.nrActive + expired.nrActive + shortPr.nrActive
      && idle.policy == SCHED_OTHER && idle.prio == MAX_PRIO && idle.state == Running
    }

    // Its own tasks are in order; the current one may be on its way out.
    ghost predicate Sane()
      reads this`active, this`expired, this`nrRunning, this`tasks, active, expired, shortPr, tasks`inArray,
            tasks`policy, tasks`prio, tasks`staticPrio, tasks`shortPrio, tasks`timeLeft, tasks`timeSlice,
            tasks`sleepAvg
      reads idle`policy, idle`prio, idle`state
    {
      Consistent(tasks)
    }

    // The current task is the idle task or is in a queue.
    ghost predicate Current()
      reads this`curr, this`tasks, curr`inArray
    {
      curr == idle || (curr in tasks && curr.inArray != null)
    }

    /** What every operation of the scheduler keeps. */
    ghost predicate Valid()
      reads this`active, this`expired, this`nrRunning, this`curr, this`tasks, active, expired, shortPr, tasks`inArray,
            tasks`policy, tasks`prio, tasks`staticPrio, tasks`shortPrio, tasks`timeLeft, tasks`timeSlice,
            tasks`sleepAvg
      reads idle`policy, idle`prio, idle`state, curr`inArray
    {
      Consistent(tasks) && Current()
    }

    constructor (hz: Hz, idle: Task, cpus: nat)
      requires idle.policy == SCHED_OTHER && idle.prio == MAX_PRIO && idle.state == Running
      ensures Valid() && this.hz == hz && tasks == {} && nrRunning == 0 && curr == this.idle == idle
      ensures |prevNrRunning| == cpus
      ensures fresh(active) && fresh(expired) && fresh(shortPr)
    {
      this.hz, this.idle, curr := hz, idle, idle;
      active := new PrioArray();
      expired := new PrioArray();
      shortPr := new PrioArray();
      nrRunning, nrSwitches, nrUninterruptible, expiredTimestamp, tasks := 0, 0, 0, 0, {};
      prevNrRunning := seq(cpus, i => 0);
    }
  }
}
