/** load_balance(): which runqueue to pull from, how many tasks, and what the pull amounts to. */
module Balancer {
  import opened RunQueues
  import opened SchedMath
  import opened SchedPick
  import opened LoadBalance

  // ---- the busiest runqueue ---------------------------------------------------------------------------

  // Another processor's load: the smaller of its length now and at the last balancing.
  function Load(nrRunning: int, prev: int, idle: bool): (n: int)
    ensures n <= nrRunning && (idle ==> n == nrRunning) && (!idle ==> n <= prev && n in {nrRunning, prev})
  {
    if idle || nrRunning < prev then nrRunning else prev
  }

  // This processor's: the larger of the two.
  function OwnLoad(nrRunning: int, prev: int, idle: bool): (n: int)
    ensures n >= nrRunning && (idle ==> n == nrRunning) && (!idle ==> n >= prev && n in {nrRunning, prev})
  {
    if idle || nrRunning > prev then nrRunning else prev
  }

  /** The runqueue with the largest load above 1 among the others, the first of them if there are
      several; and this processor notes all lengths for the next time. */
  method FindBusiest(rqs: seq<Runqueue>, me: nat, here: Runqueue, idle: bool)
      returns (busiest: int, maxLoad: int, nrRunning: int)
    requires me < |rqs| && here == rqs[me] && |here.prevNrRunning| == |rqs|
    requires forall i, j :: 0 <= i < j < |rqs| ==> rqs[i] != rqs[j]
    modifies here`prevNrRunning
    ensures |here.prevNrRunning| == |rqs| && forall i :: 0 <= i < |rqs| ==> here.prevNrRunning[i] == rqs[i].nrRunning
    ensures nrRunning == OwnLoad(here.nrRunning, old(here.prevNrRunning)[me], idle)
    ensures -1 <= busiest < |rqs| && busiest != me && (busiest == -1 <==> maxLoad == 1) && 1 <= maxLoad
    ensures busiest >= 0 ==> maxLoad == Load(rqs[busiest].nrRunning, old(here.prevNrRunning)[busiest], idle)
    ensures forall i :: 0 <= i < |rqs| && i != me ==> Load(rqs[i].nrRunning, old(here.prevNrRunning)[i], idle) <= maxLoad
    ensures forall i :: 0 <= i < busiest && i != me ==> Load(rqs[i].nrRunning, old(here.prevNrRunning)[i], idle) < maxLoad
  {
    ghost var prev := here.prevNrRunning;
    nrRunning := if idle || here.nrRunning > here.prevNrRunning[me] then here.nrRunning else here.prevNrRunning[me];
    busiest, maxLoad := -1, 1;
    var i := 0;
    while i < |rqs|
      invariant 0 <= i <= |rqs| == |here.prevNrRunning|
      invariant forall j :: 0 <= j < i ==> here.prevNrRunning[j] == rqs[j].nrRunning
      invariant forall j :: i <= j < |rqs| ==> here.prevNrRunning[j] == prev[j]
      invariant -1 <= busiest < i && busiest != me && (busiest == -1 <==> maxLoad == 1) && 1 <= maxLoad
      invariant busiest >= 0 ==> maxLoad == Load(rqs[busiest].nrRunning, prev[busiest], idle)
      invariant forall j :: 0 <= j < i && j != me ==> Load(rqs[j].nrRunning, prev[j], idle) <= maxLoad
      invariant forall j :: 0 <= j < busiest && j != me ==> Load(rqs[j].nrRunning, prev[j], idle) < maxLoad
    {
      var src := rqs[i];
      var load := if idle || src.nrRunning < here.prevNrRunning[i] then src.nrRunning else here.prevNrRunning[i];
      here.prevNrRunning := here.prevNrRunning[i := src.nrRunning];
      if load > maxLoad && src != here {
        busiest, maxLoad := i, load;
      }
      i := i + 1;
    }
  }

  // ---- what may move ---------------------------------------------------------------------------------------

  lemma {:induction false} BackIsIn(l: seq<Task>, can: set<Task>, t: Task)
    requires t in TailFirst(l, can)
    ensures t in l && t in can
  {
    if t != l[|l| - 1] || t !in can {
      BackIsIn(l[..|l| - 1], can, t);
    }
  }

  lemma {:induction false} FromIsIn(q: Queues, k: nat, can: set<Task>, t: Task)
    requires k <= |q| && t in From(q, k, can)
    ensures t in can && exists j :: k <= j < |q| && t in q[j]
    decreases |q| - k
  {
    if t in TailFirst(q[k], can) {
      BackIsIn(q[k], can, t);
    } else {
      FromIsIn(q, k + 1, can, t);
    }
  }

  ghost function Movable(busiest: Runqueue, cpu: int, jiffies: int, decay: int): set<Task>
    reads busiest`tasks, busiest`curr, busiest.tasks`sleepTimestamp, busiest.tasks`cpusAllowed
  {
    set t | t in busiest.tasks && CanMigrate(t, busiest.curr, cpu, jiffies, decay)
  }

  // In the order load_balance looks at them.
  ghost function Candidates(busiest: Runqueue, can: set<Task>): seq<Task>
    reads busiest`active, busiest`expired, busiest.active`queue, busiest.expired`queue
  {
    From(busiest.expired.queue, 0, can) + From(busiest.active.queue, 0, can)
  }

  /** A task can move exactly when it is in the active or expired array there, not running, allowed on
      this processor, and has not run for more than `decay` ticks; it is then not SHORT. */
  lemma WhoMoves(here: Runqueue, busiest: Runqueue, cpu: int, jiffies: int, decay: int, t: Task)
    requires Pair(here, busiest) && t in busiest.tasks
    ensures t in Candidates(busiest, Movable(busiest, cpu, jiffies, decay)) <==>
              && t.inArray in {busiest.active, busiest.expired} && t != busiest.curr
              && cpu in t.cpusAllowed && (jiffies - t.sleepTimestamp) % 0x1_0000_0000 > decay
    ensures t in Candidates(busiest, Movable(busiest, cpu, jiffies, decay)) ==> t.policy != SCHED_SHORT
  {
    var can := Movable(busiest, cpu, jiffies, decay);
    if t in Candidates(busiest, can) {
      CandidateIs(here, busiest, cpu, jiffies, decay, t);
    } else if t.inArray in {busiest.active, busiest.expired} && t in can {
      var a := t.inArray;
      assert busiest.Valid();
      QueuedUnder(busiest, t, a);
      assert InSlot(a.queue, a.slot, t);
      InFrom(a.queue, 0, can, t, a.slot[t]);
    }
  }

  lemma {:induction false} InTailFirst(l: seq<Task>, can: set<Task>, t: Task)
    requires t in l && t in can
    ensures t in TailFirst(l, can)
  {
    if t != l[|l| - 1] {
      InTailFirst(l[..|l| - 1], can, t);
    }
  }

  lemma {:induction false} InFrom(q: Queues, k: nat, can: set<Task>, t: Task, j: int)
    requires k <= j < |q| && t in q[j] && t in can
    ensures t in From(q, k, can)
    decreases |q| - k
  {
    if k == j {
      InTailFirst(q[k], can, t);
    } else {
      InFrom(q, k + 1, can, t, j);
    }
  }

  // The order of the candidates of one queue and of one array.
  lemma {:induction false} TailOrder(l: seq<Task>, can: set<Task>, i: nat, j: nat) returns (x: nat, y: nat)
    requires i < j < |TailFirst(l, can)|
    ensures y < x < |l| && l[x] == TailFirst(l, can)[i] && l[y] == TailFirst(l, can)[j]
  {
    var last, rest := l[|l| - 1], l[..|l| - 1];
    if last !in can {
      x, y := TailOrder(rest, can, i, j);
    } else if i > 0 {
      x, y := TailOrder(rest, can, i - 1, j - 1);
    } else {
      x := |l| - 1;
      BackIsIn(rest, can, TailFirst(rest, can)[j - 1]);
      y :| 0 <= y < |rest| && rest[y] == TailFirst(rest, can)[j - 1];
    }
  }

  lemma {:induction false} FromAt(q: Queues, k: nat, can: set<Task>, i: nat) returns (a: nat, x: nat)
    requires k <= |q| && i < |From(q, k, can)|
    ensures k <= a < |q| && x < |q[a]| && q[a][x] == From(q, k, can)[i]
  {
    FromIsIn(q, k, can, From(q, k, can)[i]);
    a :| k <= a < |q| && From(q, k, can)[i] in q[a];
    x :| 0 <= x < |q[a]| && q[a][x] == From(q, k, can)[i];
  }

  lemma {:induction false} FromOrder(q: Queues, k: nat, can: set<Task>, i: nat, j: nat)
      returns (a: nat, x: nat, b: nat, y: nat)
    requires k <= |q| && i < j < |From(q, k, can)|
    ensures k <= a <= b < |q| && x < |q[a]| && y < |q[b]| && (a == b ==> y < x)
    ensures q[a][x] == From(q, k, can)[i] && q[b][y] == From(q, k, can)[j]
    decreases |q| - k
  {
    var n := |TailFirst(q[k], can)|;
    if i >= n {
      a, x, b, y := FromOrder(q, k + 1, can, i - n, j - n);
    } else if j < n {
      x, y := TailOrder(q[k], can, i, j);
      a, b := k, k;
    } else {
      BackIsIn(q[k], can, TailFirst(q[k], can)[i]);
      a := k;
      x :| 0 <= x < |q[k]| && q[k][x] == TailFirst(q[k], can)[i];
      b, y := FromAt(q, k + 1, can, j - n);
    }
  }

  // A queued task and its place.
  lemma PlacedAt(here: Runqueue, busiest: Runqueue, a: PrioArray, k: nat, x: nat)
    requires Pair(here, busiest) && a in {busiest.active, busiest.expired} && k < |a.queue| && x < |a.queue[k]|
    ensures var t := a.queue[k][x]; t in busiest.tasks && t.inArray == a && t.prio == k
  {
    assert busiest.Valid();
    TwoArrays(here, busiest);
    QueuedUnder(busiest, a.queue[k][x], a);
    assert QueueOk(a.bitmap, a.queue, a.slot, k);
    assert a.queue[k][x] in a.queue[k];
  }

  /** In what order tasks are taken: expired ones before active ones, in each array the better prio
      first, and of one queue the one nearer to its tail first. */
  lemma CandidateOrder(here: Runqueue, busiest: Runqueue, cpu: int, jiffies: int, decay: int, i: nat, j: nat)
    requires Pair(here, busiest) && i < j < |Candidates(busiest, Movable(busiest, cpu, jiffies, decay))|
    ensures var all := Candidates(busiest, Movable(busiest, cpu, jiffies, decay));
            var t, u := all[i], all[j];
            && t.inArray in {busiest.expired, busiest.active} && u.inArray in {busiest.expired, busiest.active}
            && !(t.inArray == busiest.active && u.inArray == busiest.expired)
            && (t.inArray == u.inArray ==> t.prio <= u.prio)
            && (t.inArray == u.inArray && t.prio == u.prio ==>
                  var q := t.inArray.queue;
                  0 <= t.prio < |q| && exists x, y :: 0 <= y < x < |q[t.prio]| && q[t.prio][x] == t && q[t.prio][y] == u)
  {
    var can := Movable(busiest, cpu, jiffies, decay);
    TwoArrays(here, busiest);
    var n := |From(busiest.expired.queue, 0, can)|;
    if i < n <= j {
      var a, x := FromAt(busiest.expired.queue, 0, can, i);
      var b, y := FromAt(busiest.active.queue, 0, can, j - n);
      PlacedAt(here, busiest, busiest.expired, a, x);
      PlacedAt(here, busiest, busiest.active, b, y);
    } else {
      var r, m := if j < n then busiest.expired else busiest.active, if j < n then 0 else n;
      var a, x, b, y := FromOrder(r.queue, 0, can, i - m, j - m);
      PlacedAt(here, busiest, r, a, x);
      PlacedAt(here, busiest, r, b, y);
    }
  }

  lemma CandidateIs(here: Runqueue, busiest: Runqueue, cpu: int, jiffies: int, decay: int, t: Task)
    requires Pair(here, busiest) && t in Candidates(busiest, Movable(busiest, cpu, jiffies, decay))
    ensures t in busiest.tasks && t != busiest.curr && t.policy != SCHED_SHORT
    ensures CanMigrate(t, busiest.curr, cpu, jiffies, decay)
    ensures t.inArray in {busiest.active, busiest.expired}
  {
    var can := Movable(busiest, cpu, jiffies, decay);
    assert busiest.Valid();
    TwoArrays(here, busiest);
    var a := if t in From(busiest.expired.queue, 0, can) then busiest.expired else busiest.active;
    FromIsIn(a.queue, 0, can, t);
    var j :| 0 <= j < |a.queue| && t in a.queue[j];
    assert Filed(a, busiest.tasks);
    assert QueueOk(a.bitmap, a.queue, a.slot, j);
    QueuedUnder(busiest, t, a);
  }

  lemma Quarter(load: int, own: int)
    ensures load > 1 ==> (2 * ((load + 3) / 4) <= load - own <==> Quotient(load - own, 2) >= Quotient(load + 3, 4))
  {
  }

  // How many tasks may move, if any: none unless the imbalance is at least about a quarter, by the
  // first look at the lengths, and none unless the other runqueue is longer by two, by the second.
  function AllowanceAfter(idle: bool, load: int, own: int, again: int, busiestRunning: int): (n: int)
    ensures n >= 0
    ensures n > 0 <==> 1 < load && again + 1 < busiestRunning && (idle || 2 * ((load + 3) / 4) <= load - own)
    ensures n > 0 && idle ==> n == 1
    ensures n > 0 && !idle ==> 2 * n <= load - own <= 2 * n + 1
  {
    Quarter(load, own);
    if load <= 1 || busiestRunning <= again + 1 then 0
    else if idle then 1
    else if Quotient(load - own, 2) < Quotient(load + 3, 4) then 0
    else Quotient(load - own, 2)
  }

  // The same when nothing happens in between.
  function Allowance(idle: bool, load: int, own: int, busiestRunning: int): int {
    AllowanceAfter(idle, load, own, own, busiestRunning)
  }

  /** With both runqueues locked throughout, pulling never turns the imbalance round: afterwards this
      runqueue is not the longer one. */
  lemma NotOvershot(idle: bool, mine: int, prevMine: int, theirs: int, prevTheirs: int, moved: int)
    requires 0 <= moved <= Allowance(idle, Load(theirs, prevTheirs, idle), OwnLoad(mine, prevMine, idle), theirs)
    ensures moved > 0 ==> mine + moved <= theirs - moved
  {
  }

  // When the lock of this runqueue is dropped between the two looks, it can: by the first look five
  // tasks may move from ten to none; meanwhile the lengths have become nine and seven.
  lemma OvershotAfterRelock()
    ensures AllowanceAfter(false, 10, 0, 7, 9) == 5 && 7 + 5 > 9 - 5
  {
  }

  // The first of all, as many as may move.
  ghost predicate FirstOf(all: seq<Task>, moved: seq<Task>, n: int) {
    moved <= all && |moved| == if n <= |all| then n else |all|
  }

  /** The pull from `busiest`, which had load `load` when this processor had `own`; `again` is what
      it has now.  Whatever others have done in between, the first candidates of now move, as many as
      the two looks allow. */
  method Pull(here: Runqueue, busiest: Runqueue, idle: bool, load: int, own: int, again: int, cpu: int, jiffies: int,
              decay: int)
      returns (ghost m1: seq<Task>, ghost m2: seq<Task>)
    requires Pair(here, busiest) && load > 1
    modifies busiest.tasks`inArray, busiest.expired`nrActive, busiest.expired`bitmap, busiest.expired`queue,
             busiest.expired`slot, busiest.active`nrActive, busiest.active`bitmap, busiest.active`queue,
             busiest.active`slot, busiest`nrRunning, busiest`tasks, here`nrRunning, here`tasks, here.active`nrActive,
             here.active`bitmap, here.active`queue, here.active`slot, here.curr`needResched
    ensures Pair(here, busiest)
    ensures Moved(here, busiest, m1, m2, old(busiest.expired.queue), old(Snapshot(busiest.active, here, busiest)))
    ensures |old(busiest.expired.queue)| == |old(busiest.active.queue)| == MAX_PRIO
    ensures FirstOf(old(Candidates(busiest, Movable(busiest, cpu, jiffies, decay))), m1 + m2,
                    AllowanceAfter(idle, load, own, again, old(busiest.nrRunning)))
  {
    TwoArrays(here, busiest);
    m1, m2 := [], [];
    assert m1 + m2 == [];
    var imbalance := Quotient(load - own, 2);
    if !idle && imbalance < Quotient(load + 3, 4) {
      return;
    }
    if busiest.nrRunning <= again + 1 {
      return;
    }
    ghost var can := Movable(busiest, cpu, jiffies, decay);
    forall t | t in busiest.tasks ensures Fair(can, t, busiest.curr, cpu, jiffies, decay) {
    }
    m1, m2 := MoveTasks(here, busiest, idle, imbalance, cpu, jiffies, decay, can);
  }

  // Of two processors only the other can be the busiest.
  method Survey(here: Runqueue, other: Runqueue, me: nat, idle: bool) returns (found: bool, load: int, own: int)
    requires here != other && me < 2 && |here.prevNrRunning| == 2
    modifies here`prevNrRunning
    ensures |here.prevNrRunning| == 2 && here.prevNrRunning[me] == here.nrRunning
    ensures here.prevNrRunning[1 - me] == other.nrRunning
    ensures own == OwnLoad(here.nrRunning, old(here.prevNrRunning)[me], idle)
    ensures found == (Load(other.nrRunning, old(here.prevNrRunning)[1 - me], idle) > 1)
    ensures found ==> load == Load(other.nrRunning, old(here.prevNrRunning)[1 - me], idle)
  {
    var rqs := if me == 0 then [here, other] else [other, here];
    assert rqs[me] == here && rqs[1 - me] == other;
    var b;
    b, load, own := FindBusiest(rqs, me, here, idle);
    found := b >= 0;
  }

  // The move itself, as lists.
  method Redistribute(here: Runqueue, other: Runqueue, me: nat, idle: bool, jiffies: int, decay: int)
      returns (ghost m1: seq<Task>, ghost m2: seq<Task>)
    requires Pair(here, other) && me < 2 && |here.prevNrRunning| == 2
    modifies other.tasks`inArray, other.expired`nrActive, other.expired`bitmap, other.expired`queue,
             other.expired`slot, other.active`nrActive, other.active`bitmap, other.active`queue, other.active`slot,
             other`nrRunning, other`tasks, here`nrRunning, here`tasks, here.active`nrActive, here.active`bitmap,
             here.active`queue, here.active`slot, here.curr`needResched, here`prevNrRunning
    ensures Pair(here, other)
    ensures Moved(here, other, m1, m2, old(other.expired.queue), old(Snapshot(other.active, here, other)))
    ensures |m1 + m2| > 0 ==> here.nrRunning <= other.nrRunning
    ensures |old(other.expired.queue)| == |old(other.active.queue)| == MAX_PRIO && |here.prevNrRunning| == 2
    ensures here.prevNrRunning[me] == old(here.nrRunning) && here.prevNrRunning[1 - me] == old(other.nrRunning)
    ensures FirstOf(old(Candidates(other, Movable(other, me, jiffies, decay))), m1 + m2,
                    Allowance(idle, Load(old(other.nrRunning), old(here.prevNrRunning)[1 - me], idle),
                              OwnLoad(old(here.nrRunning), old(here.prevNrRunning)[me], idle), old(other.nrRunning)))
  {
    TwoArrays(here, other);
    m1, m2 := [], [];
    assert m1 + m2 == [];
    var found, load, own := Survey(here, other, me, idle);
    if found {
      m1, m2 := Pull(here, other, idle, load, own, own, me, jiffies, decay);
      NotOvershot(idle, old(here.nrRunning), old(here.prevNrRunning)[me], old(other.nrRunning),
                  old(here.prevNrRunning)[1 - me], |m1 + m2|);
    }
  }

  /** One call of load_balance on the processor `me` of two.  The tasks that move are the first
      candidates, as many as the loads allow; nothing else changes place. */
  method Rebalance(here: Runqueue, other: Runqueue, me: nat, idle: bool, jiffies: int, decay: int)
      returns (ghost m1: seq<Task>, ghost m2: seq<Task>, ghost able: set<Task>, ghost came: set<Task>)
    requires Pair(here, other) && me < 2 && |here.prevNrRunning| == 2
    modifies other.tasks`inArray, other.expired`nrActive, other.expired`bitmap, other.expired`queue,
             other.expired`slot, other.active`nrActive, other.active`bitmap, other.active`queue, other.active`slot,
             other`nrRunning, other`tasks, here`nrRunning, here`tasks, here.active`nrActive, here.active`bitmap,
             here.active`queue, here.active`slot, here.curr`needResched, here`prevNrRunning
    ensures Pair(here, other)
    ensures Moved(here, other, m1, m2, old(other.expired.queue), old(Snapshot(other.active, here, other)))
    ensures |m1 + m2| > 0 ==> here.nrRunning <= other.nrRunning
    ensures |old(other.expired.queue)| == |old(other.active.queue)| == MAX_PRIO && |here.prevNrRunning| == 2
    ensures here.prevNrRunning[me] == old(here.nrRunning) && here.prevNrRunning[1 - me] == old(other.nrRunning)
    ensures FirstOf(old(Candidates(other, Movable(other, me, jiffies, decay))), m1 + m2,
                    Allowance(idle, Load(old(other.nrRunning), old(here.prevNrRunning)[1 - me], idle),
                              OwnLoad(old(here.nrRunning), old(here.prevNrRunning)[me], idle), old(other.nrRunning)))
    // In words: able to come are the tasks that are queued and not running, may run here, and are not
    // cache-hot; none of them is SHORT, and only such tasks come.
    ensures forall t :: t in able <==>
              && t in old(other.tasks) && old(t.inArray in {other.active, other.expired} && t != other.curr
                                              && me in t.cpusAllowed)
              && (jiffies - old(t.sleepTimestamp)) % 0x1_0000_0000 > decay
    ensures forall t :: t in able ==> old(t.policy) != SCHED_SHORT
    ensures came <= able && here.tasks == old(here.tasks) + came && other.tasks == old(other.tasks) - came
    // Expired ones come before active ones, and then better prios first; and as many come as may.
    ensures forall t, u :: t in came && u in able - came ==> old(Precedes(t, u, other.active))
    ensures came != able ==>
              |m1 + m2| == Allowance(idle, Load(old(other.nrRunning), old(here.prevNrRunning)[1 - me], idle),
                                     OwnLoad(old(here.nrRunning), old(here.prevNrRunning)[me], idle),
                                     old(other.nrRunning))
  {
    ghost var all, order;
    all, able, order := Ranked(here, other, me, jiffies, decay);
    m1, m2 := Redistribute(here, other, me, idle, jiffies, decay);
    came := Elems(m1 + m2);
    BestCome(all, able, order, m1 + m2, came,
             Allowance(idle, Load(old(other.nrRunning), old(here.prevNrRunning)[1 - me], idle),
                       OwnLoad(old(here.nrRunning), old(here.prevNrRunning)[me], idle), old(other.nrRunning)));
  }

  // Expired before active, and then the better prio.
  predicate Precedes(t: Task, u: Task, active: PrioArray): (r: bool)
    reads t`inArray, t`prio, u`inArray, u`prio
    ensures r && t.inArray == active ==> u.inArray == active
    ensures r && t.inArray == u.inArray ==> t.prio <= u.prio
  {
    if t.inArray == u.inArray then t.prio <= u.prio else u.inArray == active
  }

  // The tasks that can move, and in what order.
  lemma Ranked(here: Runqueue, other: Runqueue, cpu: int, jiffies: int, decay: int)
      returns (all: seq<Task>, able: set<Task>, order: set<(Task, Task)>)
    requires Pair(here, other)
    ensures all == Candidates(other, Movable(other, cpu, jiffies, decay)) && forall t :: t in able <==> t in all
    ensures forall t :: t in able <==>
              && t in other.tasks && t != other.curr && t.inArray in {other.active, other.expired}
              && cpu in t.cpusAllowed && (jiffies - t.sleepTimestamp) % 0x1_0000_0000 > decay
    ensures forall t :: t in able ==> t.policy != SCHED_SHORT
    ensures forall t, u :: (t, u) in order ==> Precedes(t, u, other.active)
    ensures forall i, j :: 0 <= i < j < |all| ==> (all[i], all[j]) in order
  {
    all := Candidates(other, Movable(other, cpu, jiffies, decay));
    able := set t | t in other.tasks && t in all;
    order := set t, u | t in able && u in able && Precedes(t, u, other.active) :: (t, u);
    forall t | t in other.tasks
      ensures t in able <==> && t != other.curr && t.inArray in {other.active, other.expired} && cpu in t.cpusAllowed
                             && (jiffies - t.sleepTimestamp) % 0x1_0000_0000 > decay
      ensures t in able ==> t.policy != SCHED_SHORT
    {
      WhoMoves(here, other, cpu, jiffies, decay, t);
    }
    forall t | t in all ensures t in able {
      CandidateIs(here, other, cpu, jiffies, decay, t);
    }
    forall i, j | 0 <= i < j < |all| ensures (all[i], all[j]) in order {
      assert all[i] in able && all[j] in able;
      CandidateOrder(here, other, cpu, jiffies, decay, i, j);
    }
  }

  // The first of them come.
  lemma BestCome(all: seq<Task>, able: set<Task>, order: set<(Task, Task)>, moved: seq<Task>, came: set<Task>, n: int)
    requires FirstOf(all, moved, n) && came == Elems(moved) && forall t :: t in able <==> t in all
    requires forall i, j :: 0 <= i < j < |all| ==> (all[i], all[j]) in order
    ensures came <= able && (came != able ==> |moved| == n)
    ensures forall t, u :: t in came && u in able - came ==> (t, u) in order
  {
    ElemsAre(moved, came);
    forall t | t in came ensures t in able {
      var i :| 0 <= i < |moved| && moved[i] == t;
      assert all[i] == t;
    }
    forall u | u in able && u !in came
      ensures |moved| < |all| && forall t :: t in came ==> (t, u) in order
    {
      var j :| 0 <= j < |all| && all[j] == u;
      assert forall k :: 0 <= k < |moved| ==> all[k] == moved[k];
      forall t | t in came ensures (t, u) in order {
        var i :| 0 <= i < |moved| && moved[i] == t;
        assert all[i] == t && i < j;
      }
    }
  }

  lemma {:induction false} ElemsAre(l: seq<Task>, e: set<Task>)
    requires e == Elems(l)
    ensures forall t :: t in e <==> t in l
  {
    if l != [] {
      ElemsAre(l[..|l| - 1], Elems(l[..|l| - 1]));
      assert l == l[..|l| - 1] + [l[|l| - 1]];
    }
  }
}
