/** sys_sched_yield: the current task steps back in its own array, and schedule() runs. */
module SchedYield {
  import opened Common
  import opened RunQueues
  import opened Scheduler
  import opened SchedPick

  function InsertedAt(l: seq<Task>, i: nat, p: Task): seq<Task>
    requires i <= |l|
  {
    l[..i] + [p] + l[i..]
  }

  // list_add(p, head->next): behind the first entry, or alone.
  function Second(l: seq<Task>, p: Task): seq<Task> {
    InsertedAt(l, if l == [] then 0 else 1, p)
  }

  lemma InsertedFacts(l: seq<Task>, i: nat, p: Task)
    requires i <= |l| && NoDup(l) && p !in l
    ensures NoDup(InsertedAt(l, i, p)) && p in InsertedAt(l, i, p)
    ensures forall t :: t in InsertedAt(l, i, p) <==> t in l || t == p
  {
    var r := InsertedAt(l, i, p);
    assert r[i] == p;
    forall t | t in l ensures t in r {
      var j :| 0 <= j < |l| && l[j] == t;
      assert r[if j < i then j else j + 1] == t;
    }
  }

  // A task that is in no queue can be put anywhere in one.
  lemma IndexedInserted(n: int, bits: seq<bool>, q: Queues, slot: map<Task, int>, k: int, i: nat, p: Task)
    requires Indexed(n, bits, q, slot) && 0 <= k < MAX_PRIO && p !in slot && i <= |q[k]|
    ensures Indexed(n + 1, bits[k := true], q[k := InsertedAt(q[k], i, p)], slot[p := k])
  {
    var bits', q', slot' := bits[k := true], q[k := InsertedAt(q[k], i, p)], slot[p := k];
    assert QueueOk(bits, q, slot, k);
    TotalUpdate(q, k, InsertedAt(q[k], i, p));
    InsertedFacts(q[k], i, p);
    forall j | 0 <= j < MAX_PRIO ensures QueueOk(bits', q', slot', j) {
      assert QueueOk(bits, q, slot, j);
      assert p !in q[j];
    }
    forall t | t in slot' ensures InSlot(q', slot', t) {
      assert t != p ==> InSlot(q, slot, t);
    }
  }

  // p is the task an array would give to schedule().
  ghost predicate Leads(q: Queues, slot: map<Task, int>, p: Task) {
    && p in slot && Head(q, slot[p]) == p
    && forall t {:trigger t in slot} :: t in slot ==> slot[p] <= slot[t]
  }

  // The queues after p, in queue k, has been moved to place i of queue k'.
  function Stepped(q: Queues, k: int, k': int, i: nat, p: Task): Queues {
    var r := Without(q, k, p);
    if 0 <= k' < |r| && i <= |r[k']| then r[k' := InsertedAt(r[k'], i, p)] else r
  }

  lemma SteppedIsIndexed(n: int, bits: seq<bool>, q: Queues, slot: map<Task, int>, p: Task, k': int, i: nat)
    requires Indexed(n, bits, q, slot) && p in slot && 0 <= k' < MAX_PRIO && |Without(q, slot[p], p)| == MAX_PRIO
    requires i <= |Without(q, slot[p], p)[k']|
    ensures 0 <= slot[p] < MAX_PRIO
    ensures Indexed(n, bits[slot[p] := Removed(q[slot[p]], p) != []][k' := true], Stepped(q, slot[p], k', i, p),
                    slot[p := k'])
  {
    IndexedWithout(n, bits, q, slot, p);
    var k := slot[p];
    IndexedInserted(n - 1, bits[k := Removed(q[k], p) != []], Without(q, k, p), slot - {p}, k', i, p);
    assert (slot - {p})[p := k'] == slot[p := k'];
  }

  // A task moved to the tail leads only when no other task is in its queue or a better one.
  lemma TailLeads(n: int, bits: seq<bool>, q: Queues, slot: map<Task, int>, p: Task)
    requires Indexed(n, bits, q, slot) && p in slot
    ensures InSlot(q, slot, p) && NoDup(q[slot[p]])
    ensures Leads(q[slot[p] := Removed(q[slot[p]], p) + [p]], slot, p)
            <==> forall t :: t in slot && t != p ==> slot[p] < slot[t]
  {
    assert InSlot(q, slot, p);
    var k := slot[p];
    assert QueueOk(bits, q, slot, k);
    RemovedFacts(q[k], p);
    var l := Removed(q[k], p);
    if l != [] {
      assert l[0] in l && l[0] in q[k] && l[0] in slot && slot[l[0]] == k;
    } else {
      forall t | t in slot && t != p ensures slot[t] != k {
        assert InSlot(q, slot, t);
        RemovedIn(q[k], p, t);
      }
    }
  }

  // Where sys_sched_yield puts a SCHED_OTHER task that was under key k.
  function YieldKey(bits: seq<bool>, q: Queues, k: int, p: Task): int
  {
    if !(0 <= k < |q| && k < |bits|) || Removed(q[k], p) != [] then k
    else
      var i := FirstSet(bits[k := false], 0);
      if i == MAX_PRIO || i <= k then k else i
  }

  // The key and the queues of the array after the yield of a task under key k: a SCHED_OTHER task
  // moves behind the first task of the queue YieldKey names, any other to the tail of its own.
  function KeyAfter(policy: int, bits: seq<bool>, q: Queues, k: int, p: Task): int {
    if policy == SCHED_OTHER then YieldKey(bits, q, k, p) else k
  }

  function QueuesAfter(policy: int, bits: seq<bool>, q: Queues, k: int, p: Task): Queues {
    var k', r := KeyAfter(policy, bits, q, k, p), Without(q, k, p);
    if !(0 <= k' < |r|) then r
    else if policy == SCHED_OTHER then r[k' := Second(r[k'], p)]
    else r[k' := r[k'] + [p]]
  }

  /** Where a yielding task goes, in words: a real-time or SHORT task to the tail of its queue.  A
      SCHED_OTHER task goes behind the first task of its queue; when it is alone there, no better queue
      has a task and a worse one does, it goes to the best of those, behind its first task. */
  lemma YieldInWords(n: int, bits: seq<bool>, q: Queues, slot: map<Task, int>, p: Task, policy: int)
      returns (i: nat, rest: Queues)
    requires Indexed(n, bits, q, slot) && p in slot
    ensures 0 <= slot[p] < |q| && i < |q[slot[p]]| && q[slot[p]][i] == p
    ensures rest == q[slot[p] := q[slot[p]][..i] + q[slot[p]][i + 1..]]
    ensures policy != SCHED_OTHER ==>
              && KeyAfter(policy, bits, q, slot[p], p) == slot[p]
              && QueuesAfter(policy, bits, q, slot[p], p) == rest[slot[p] := rest[slot[p]] + [p]]
    ensures policy == SCHED_OTHER ==>
              var k, k' := slot[p], KeyAfter(policy, bits, q, slot[p], p);
              && k <= k' < |rest|
              && (k < k' <==> rest[k] == [] && (forall j :: 0 <= j < k ==> rest[j] == [])
                              && (exists j :: k < j < |rest| && rest[j] != []))
              && (k < k' ==> rest[k'] != [] && forall j :: k < j < k' ==> rest[j] == [])
              && QueuesAfter(policy, bits, q, k, p) ==
                 rest[k' := if rest[k'] == [] then [p] else [rest[k'][0], p] + rest[k'][1..]]
  {
    assert InSlot(q, slot, p);
    var k := slot[p];
    assert QueueOk(bits, q, slot, k);
    i := RemovedSplits(q[k], p);
    rest := q[k := q[k][..i] + q[k][i + 1..]];
    if policy == SCHED_OTHER && rest[k] == [] {
      BitsOf(bits, q, slot, k, rest);
    }
    var k' := KeyAfter(policy, bits, q, k, p);
    SecondInWords(rest[k'], p);
  }

  lemma SecondInWords(l: seq<Task>, p: Task)
    ensures Second(l, p) == if l == [] then [p] else [l[0], p] + l[1..]
  {
  }

  // With queue k emptied, the first set bit.
  lemma BitsOf(bits: seq<bool>, q: Queues, slot: map<Task, int>, k: nat, rest: Queues)
    requires |q| == |bits| == MAX_PRIO && k < MAX_PRIO && rest == q[k := []]
    requires forall j {:trigger QueueOk(bits, q, slot, j)} :: 0 <= j < MAX_PRIO ==> QueueOk(bits, q, slot, j)
    ensures var f := FirstSet(bits[k := false], 0);
            (f < MAX_PRIO ==> rest[f] != []) && forall j :: 0 <= j < f ==> rest[j] == []
  {
    var f := FirstSet(bits[k := false], 0);
    if f < MAX_PRIO {
      assert QueueOk(bits, q, slot, f);
    }
    forall j | 0 <= j < f ensures rest[j] == [] {
      assert QueueOk(bits, q, slot, j);
      assert !bits[k := false][j];
    }
  }

  // Taking p out of an array with more than one task leaves some bit set.
  lemma OthersLeft(n: int, bits: seq<bool>, q: Queues, slot: map<Task, int>, p: Task)
    requires Indexed(n, bits, q, slot) && p in slot
    ensures InSlot(q, slot, p)
    ensures Removed(q[slot[p]], p) == [] ==>
              && (n == 1 <==> FirstSet(bits[slot[p] := false], 0) == MAX_PRIO)
              && FirstSet(bits[slot[p] := false], 0) != slot[p]
    ensures Removed(q[slot[p]], p) != [] ==> n > 1
  {
    assert InSlot(q, slot, p);
    var k := slot[p];
    assert QueueOk(bits, q, slot, k);
    RemovedFacts(q[k], p);
    var r := q[k := []];
    TotalUpdate(q, k, []);
    TotalAtLeast(q, k);
    var i := FirstSet(bits[k := false], 0);
    if i < MAX_PRIO {
      assert QueueOk(bits, q, slot, i);
      TotalAtLeast(r, i);
    } else if Removed(q[k], p) == [] {
      forall j | 0 <= j < |r| ensures r[j] == [] {
        if j != k { assert QueueOk(bits, q, slot, j); assert !bits[k := false][j]; }
      }
      NoneQueued(r);
    }
  }

  lemma OnlyBit(bits: seq<bool>, k: nat, j: nat)
    requires k < |bits| && j < |bits| && FirstSet(bits[k := false], 0) == |bits|
    ensures j == k || !bits[j]
  {
    assert !bits[k := false][j];
  }

  lemma AloneInArray(n: int, bits: seq<bool>, q: Queues, slot: map<Task, int>, p: Task, t: Task)
    requires Indexed(n, bits, q, slot) && p in slot && t in slot && n == 1
    ensures t == p
  {
    OthersLeft(n, bits, q, slot, p);
    var k := slot[p];
    assert QueueOk(bits, q, slot, k);
    assert InSlot(q, slot, t);
    assert QueueOk(bits, q, slot, slot[t]);
    RemovedIn(q[k], p, t);
    OnlyBit(bits, k, slot[t]);
  }

  /** Moved so, a SCHED_OTHER task leads its array only when it is alone in it. */
  lemma YieldedLeads(n: int, bits: seq<bool>, q: Queues, slot: map<Task, int>, p: Task, k': int)
    requires Indexed(n, bits, q, slot) && p in slot
    requires InSlot(q, slot, p) && k' == YieldKey(bits, q, slot[p], p)
    requires |Without(q, slot[p], p)| == MAX_PRIO
    ensures 0 <= slot[p] <= k' < MAX_PRIO
    ensures var r := Without(q, slot[p], p)[k'];
            Leads(Stepped(q, slot[p], k', if r == [] then 0 else 1, p), slot[p := k'], p) <==> n == 1
  {
    var k := slot[p];
    OthersLeft(n, bits, q, slot, p);
    assert QueueOk(bits, q, slot, k);
    RemovedFacts(q[k], p);
    var l := Without(q, k, p);
    var q', slot' := Stepped(q, k, k', if l[k'] == [] then 0 else 1, p), slot[p := k'];
    assert slot'[p] == k' && q'[k'] == Second(l[k'], p);
    if n == 1 {
      assert k' == k && l[k] == [] && Second([], p) == [p];
      forall t | t in slot' ensures slot'[p] <= slot'[t] {
        AloneInArray(n, bits, q, slot, p, t);
      }
    } else if l[k'] != [] {
      assert q'[k'][0] == l[k'][0] && l[k'][0] in l[k'];
      if k' != k {
        assert QueueOk(bits, q, slot, k');
        assert slot[l[k'][0]] == k';
      }
    } else {
      var i := FirstSet(bits[k := false], 0);
      assert QueueOk(bits, q, slot, i);
      assert k' == k && i < k;
      var t := q[i][0];
      assert t in q[i] && slot[t] == i && t in slot';
    }
  }

  method StepBack(p: Task, a: PrioArray)
    requires a.Valid() && p in a.slot && a.slot[p] == p.prio && p.policy == SCHED_OTHER && MAX_RT_PRIO <= p.prio
    modifies p`prio, a`bitmap, a`queue, a`slot
    ensures a.Valid() && p.prio >= old(p.prio) && a.slot == old(a.slot)[p := p.prio]
    ensures 0 <= old(p.prio) < MAX_PRIO && |old(a.queue)| == |old(a.bitmap)| == MAX_PRIO
    ensures p.prio == YieldKey(old(a.bitmap), old(a.queue), old(p.prio), p) < MAX_PRIO
    ensures |Without(old(a.queue), old(p.prio), p)| == MAX_PRIO
    ensures var place := if Without(old(a.queue), old(p.prio), p)[p.prio] == [] then 0 else 1;
            a.queue == Stepped(old(a.queue), old(p.prio), p.prio, place, p)
    ensures Leads(a.queue, a.slot, p) <==> a.nrActive == 1
  {
    assert InSlot(a.queue, a.slot, p);
    ghost var k, k' := p.prio, YieldKey(a.bitmap, a.queue, p.prio, p);
    OthersLeft(a.nrActive, a.bitmap, a.queue, a.slot, p);
    assert QueueOk(a.bitmap, a.queue, a.slot, k);
    RemovedFacts(a.queue[k], p);
    YieldedLeads(a.nrActive, a.bitmap, a.queue, a.slot, p, k');
    SteppedIsIndexed(a.nrActive, a.bitmap, a.queue, a.slot, p, k', if Without(a.queue, k, p)[k'] == [] then 0 else 1);
    a.queue := a.queue[p.prio := Removed(a.queue[p.prio], p)];
    if a.queue[p.prio] != [] {
      a.queue := a.queue[p.prio := Second(a.queue[p.prio], p)];
    } else {
      a.bitmap := a.bitmap[p.prio := false];
      var i := FirstSet(a.bitmap, 0);
      if i == MAX_PRIO || i <= p.prio {
        i := p.prio;
      } else {
        p.prio := i;
      }
      a.queue := a.queue[i := Second(a.queue[i], p)];
      a.bitmap := a.bitmap[i := true];
    }
    a.slot := a.slot[p := p.prio];
    assert a.bitmap == old(a.bitmap)[k := Removed(old(a.queue)[k], p) != []][k' := true];
  }

  lemma TailIsIndexed(n: int, bits: seq<bool>, q: Queues, slot: map<Task, int>, p: Task)
    requires Indexed(n, bits, q, slot) && p in slot
    ensures InSlot(q, slot, p)
    ensures Indexed(n, bits, q[slot[p] := Removed(q[slot[p]], p) + [p]], slot)
  {
    assert InSlot(q, slot, p);
    var k := slot[p];
    assert QueueOk(bits, q, slot, k);
    var l := Removed(q[k], p);
    assert Without(q, k, p)[k] == l;
    SteppedIsIndexed(n, bits, q, slot, p, k, |l|);
    assert InsertedAt(l, |l|, p) == l + [p];
    assert Stepped(q, k, k, |l|, p) == q[k := l + [p]];
    assert bits[k := l != []][k := true] == bits;
    assert slot[p := k] == slot;
  }

  // A real-time or SHORT task goes to the tail of its queue.
  method ToTail(p: Task, a: PrioArray)
    requires a.Valid() && p in a.slot && a.slot[p] == Key(p)
    modifies a`queue
    ensures a.Valid() && 0 <= Key(p) < |old(a.queue)|
    ensures a.queue == old(a.queue)[Key(p) := Removed(old(a.queue)[Key(p)], p) + [p]]
    ensures Leads(a.queue, a.slot, p) <==> forall t :: t in a.slot && t != p ==> a.slot[p] < a.slot[t]
  {
    ghost var k := Key(p);
    TailLeads(a.nrActive, a.bitmap, a.queue, a.slot, p);
    assert QueueOk(a.bitmap, a.queue, a.slot, k);
    TailIsIndexed(a.nrActive, a.bitmap, a.queue, a.slot, p);
    a.queue := a.queue[Key(p) := Removed(a.queue[Key(p)], p) + [p]];
  }

  // When the yielding task p is still the one its array would give.
  ghost predicate StillLeads(a: PrioArray, p: Task)
    reads a`nrActive, a`slot, p`policy
  {
    if p.policy == SCHED_OTHER then a.nrActive == 1
    else p in a.slot && forall t :: t in a.slot && t != p ==> a.slot[p] < a.slot[t]
  }

  method StepAside(p: Task, a: PrioArray)
    requires a.Valid() && p in a.slot && a.slot[p] == Key(p)
    requires if p.policy == SCHED_OTHER then MAX_RT_PRIO <= p.prio else p.policy == SCHED_SHORT || p.prio < MAX_RT_PRIO
    modifies p`prio, a`bitmap, a`queue, a`slot
    ensures a.Valid() && Key(p) >= old(Key(p)) && a.slot == old(a.slot)[p := Key(p)]
    ensures (p.policy == SCHED_OTHER && p.prio < MAX_PRIO) || p.prio == old(p.prio)
    ensures Key(p) == KeyAfter(p.policy, old(a.bitmap), old(a.queue), old(Key(p)), p)
    ensures a.queue == QueuesAfter(p.policy, old(a.bitmap), old(a.queue), old(Key(p)), p)
    ensures Leads(a.queue, a.slot, p) <==> StillLeads(a, p)
  {
    if RtTask(p) || p.policy == SCHED_SHORT {
      ToTail(p, a);
      assert a.slot == a.slot[p := Key(p)];
    } else {
      StepBack(p, a);
    }
  }

  // The queues determine the rest of an array.
  lemma SameQueues(n: int, bits: seq<bool>, slot: map<Task, int>, n': int, bits': seq<bool>, slot': map<Task, int>,
                   q: Queues)
    requires Indexed(n, bits, q, slot) && Indexed(n', bits', q, slot')
    ensures n == n' && slot == slot'
  {
    forall t | t in slot ensures t in slot' && slot'[t] == slot[t] {
      assert InSlot(q, slot, t) && QueueOk(bits', q, slot', slot[t]);
    }
    forall t | t in slot' ensures t in slot {
      assert InSlot(q, slot', t) && QueueOk(bits, q, slot, slot'[t]);
    }
  }

  // The same, seen from the arrays of a runqueue.
  method StepAsidePlaced(p: Task, a: PrioArray, ghost r: Arrays, ghost s: set<Task>)
    requires Placed(r, s) && p in s && p.inArray == a
    requires if p.policy == SCHED_OTHER then MAX_RT_PRIO <= p.prio else p.policy == SCHED_SHORT || p.prio < MAX_RT_PRIO
    modifies p`prio, a`bitmap, a`queue, a`slot
    ensures Placed(r, s) && Key(p) >= old(Key(p)) && a in {r.active, r.expired, r.short}
    ensures (p.policy == SCHED_OTHER && p.prio < MAX_PRIO) || p.prio == old(p.prio)
    ensures Key(p) == KeyAfter(p.policy, old(a.bitmap), old(a.queue), old(Key(p)), p)
    ensures a.queue == QueuesAfter(p.policy, old(a.bitmap), old(a.queue), old(Key(p)), p)
    ensures Leads(a.queue, a.slot, p) <==> StillLeads(a, p)
  {
    assert Home(r, p) && Filed(r.active, s) && Filed(r.expired, s) && Filed(r.short, s);
    StepAside(p, a);
    forall t | t in s ensures Home(r, t) {
      assert old(Home(r, t));
    }
  }

  // The current task of this runqueue steps aside.
  method YieldPlace(p: Task, rq: Runqueue)
    requires rq.Valid() && p == rq.curr != rq.idle
    modifies p`prio, rq.active`bitmap, rq.active`queue, rq.active`slot, rq.expired`bitmap, rq.expired`queue,
             rq.expired`slot, rq.shortPr`bitmap, rq.shortPr`queue, rq.shortPr`slot
    ensures rq.Valid() && Now(p) == old(Now(p)).(prio := p.prio) && (p.policy == SCHED_OTHER || p.prio == old(p.prio))
    ensures p.prio >= old(p.prio)
    ensures p.inArray != null && Key(p) == KeyAfter(p.policy, old(p.inArray.bitmap), old(p.inArray.queue), old(Key(p)), p)
    ensures p.inArray in {rq.active, rq.expired, rq.shortPr}
    ensures p.inArray.queue == QueuesAfter(p.policy, old(p.inArray.bitmap), old(p.inArray.queue), old(Key(p)), p)
    ensures forall x :: x in {rq.active, rq.expired, rq.shortPr} && x != p.inArray ==> x.queue == old(x.queue)
    ensures Leads(p.inArray.queue, p.inArray.slot, p) <==> StillLeads(p.inArray, p)
  {
    SoundBut(rq.tasks, p, rq.hz);
    assert Home(rq.Trio(), p);
    StepAsidePlaced(p, p.inArray, rq.Trio(), rq.tasks);
    SoundAgain(rq.tasks, p, rq.hz);
  }

  // A task that is best is in front of its array.
  lemma BestLeads(rq: Runqueue, p: Task)
    requires rq.Consistent(rq.tasks) && Best(rq, p)
    ensures p.inArray != null && Leads(p.inArray.queue, p.inArray.slot, p)
  {
    var a := p.inArray;
    QueuedUnder(rq, p, a);
    forall t | t in a.slot ensures a.slot[p] <= a.slot[t] {
      QueuedUnder(rq, t, a);
      assert Rank(Now(p)) <= Rank(Now(t));
    }
  }

  /** A real-time or SHORT task that has yielded goes on running exactly when every other task of
      the active and SHORT arrays ranks strictly behind it. */
  lemma YieldedInOrder(rq: Runqueue, p: Task)
    requires rq.Consistent(rq.tasks) && p in rq.tasks && p.policy != SCHED_OTHER && p.inArray != null && Best(rq, rq.curr)
    requires Leads(p.inArray.queue, p.inArray.slot, p) <==> StillLeads(p.inArray, p)
    ensures rq.curr == p <==>
            forall t {:trigger Now(t)} :: t in rq.tasks && t != p && t.inArray in {rq.active, rq.shortPr} ==>
              Rank(Now(p)) < Rank(Now(t))
  {
    assert Home(rq.Trio(), p);
    SoundBut(rq.tasks, p, rq.hz);
    if rq.curr == p {
      BestLeads(rq, p);
      var a := p.inArray;
      forall t | t in rq.tasks && t != p && t.inArray in {rq.active, rq.shortPr} ensures Rank(Now(p)) < Rank(Now(t)) {
        SoundBut(rq.tasks, t, rq.hz);
        QueuedUnder(rq, t, rq.active);
        QueuedUnder(rq, t, rq.shortPr);
        QueuedUnder(rq, p, a);
        assert Rank(Now(p)) <= Rank(Now(t));
      }
    } else {
      assert rq.curr in rq.tasks && Rank(Now(rq.curr)) <= Rank(Now(p));
    }
  }

  /** A SCHED_OTHER task that has yielded goes on running exactly when it is alone in its array
      and no SHORT task is queued, and no active one either if it is expired itself. */
  lemma YieldedOther(rq: Runqueue, p: Task, a: PrioArray)
    requires rq.Consistent(rq.tasks) && p in rq.tasks && p.policy == SCHED_OTHER && p.inArray == a && Best(rq, rq.curr)
    requires Leads(a.queue, a.slot, p) <==> a.nrActive == 1
    requires rq.active.nrActive != 0 || a == rq.active
    ensures rq.curr == p <==> a == rq.active && a.nrActive == 1 && rq.shortPr.nrActive == 0
  {
    assert Home(rq.Trio(), p);
    SoundBut(rq.tasks, p, rq.hz);
    QueuedUnder(rq, p, a);
    QueuedUnder(rq, rq.curr, rq.shortPr);
    QueuedUnder(rq, rq.curr, rq.active);
    if rq.curr == p {
      BestLeads(rq, p);
      FirstQueue(rq.shortPr);
      if rq.shortPr.nrActive != 0 {
        var t := rq.shortPr.queue[FirstSet(rq.shortPr.bitmap, 0)][0];
        QueuedUnder(rq, t, rq.shortPr);
        SoundBut(rq.tasks, t, rq.hz);
      }
    } else if a == rq.active && a.nrActive == 1 && rq.shortPr.nrActive == 0 {
      AloneInArray(a.nrActive, a.bitmap, a.queue, a.slot, p, if rq.curr in a.slot then rq.curr else p);
      FirstQueue(rq.shortPr);
    }
  }

  // The state before schedule() is known by its queues afterwards.
  lemma ArrayAsBefore(a: PrioArray, n: int, bits: seq<bool>, q: Queues, slot: map<Task, int>)
    requires a.Valid() && Indexed(n, bits, q, slot) && a.queue == q
    ensures a.nrActive == n && a.slot == slot
  {
    SameQueues(a.nrActive, a.bitmap, a.slot, n, bits, slot, q);
  }

  lemma InSomeArray(rq: Runqueue, p: Task)
    requires rq.Consistent(rq.tasks) && p in rq.tasks && p.inArray != null
    ensures rq.nrRunning != 0 && p.inArray.Valid() && p.inArray in {rq.active, rq.expired, rq.shortPr}
    ensures p.inArray.nrActive != 0 && (p.policy == SCHED_OTHER ==> p.inArray != rq.shortPr)
  {
    var a := p.inArray;
    assert Home(rq.Trio(), p) && Filed(a, rq.tasks);
    assert InSlot(a.queue, a.slot, p);
    TotalAtLeast(a.queue, a.slot[p]);
    if rq.nrRunning == 0 {
      NothingQueued(rq, p);
    }
  }

  // When a task that has yielded goes on running.
  ghost predicate RunsOn(rq: Runqueue, p: Task)
    reads rq`active, rq`tasks, rq.active`nrActive, rq.shortPr`nrActive, p`inArray, p`policy, rq.tasks`inArray,
          rq.tasks`policy, rq.tasks`prio, rq.tasks`staticPrio, rq.tasks`shortPrio, rq.tasks`timeLeft,
          rq.tasks`timeSlice, rq.tasks`sleepAvg
  {
    if p.policy == SCHED_OTHER then rq.shortPr.nrActive == 0 && rq.active == p.inArray && rq.active.nrActive == 1
    else
      && p in rq.tasks
      && forall t {:trigger Now(t)} :: t in rq.tasks && t != p && t.inArray in {rq.active, rq.shortPr} ==>
           Rank(Now(p)) < Rank(Now(t))
  }

  lemma Yielded(rq: Runqueue, p: Task)
    requires rq.Consistent(rq.tasks) && p in rq.tasks && p.inArray != null
    requires rq.nrRunning != 0 ==> Best(rq, rq.curr)
    requires rq.active.nrActive == 0 ==> rq.expired.nrActive == 0
    requires Leads(p.inArray.queue, p.inArray.slot, p) <==> StillLeads(p.inArray, p)
    ensures Best(rq, rq.curr) && (rq.curr == p <==> RunsOn(rq, p))
  {
    InSomeArray(rq, p);
    if p.policy == SCHED_OTHER {
      YieldedOther(rq, p, p.inArray);
    } else {
      YieldedInOrder(rq, p);
    }
  }

  // schedule() for a task that has stepped aside and stays runnable.
  method ScheduleAfterYield(p: Task, rq: Runqueue, jiffies: int)
    requires rq.Valid() && p == rq.curr != rq.idle && p.state == Running && p.inArray != null
    requires Leads(p.inArray.queue, p.inArray.slot, p) <==> StillLeads(p.inArray, p)
    modifies rq`curr, rq`nrSwitches, rq`active, rq`expired, rq`expiredTimestamp, rq`nrRunning, rq`nrUninterruptible,
             p`state, p`inArray, p`needResched, p`sleepTimestamp,
             rq.active`nrActive, rq.active`bitmap, rq.active`queue, rq.active`slot, rq.expired`nrActive,
             rq.expired`bitmap, rq.expired`queue, rq.expired`slot, rq.shortPr`nrActive, rq.shortPr`bitmap,
             rq.shortPr`queue, rq.shortPr`slot
    ensures rq.Valid() && Best(rq, rq.curr) && (rq.curr == p <==> RunsOn(rq, p))
    ensures p.inArray == old(p.inArray) && p.state == Running && rq.nrRunning == old(rq.nrRunning)
    ensures forall x :: x in {old(rq.active), old(rq.expired), rq.shortPr} ==> x.queue == old(x.queue)
  {
    InSomeArray(rq, p);
    ghost var a := p.inArray;
    ghost var n, bits, q, slot := a.nrActive, a.bitmap, a.queue, a.slot;
    Schedule(rq, false, jiffies);
    assert Filed(a, rq.tasks);
    ArrayAsBefore(a, n, bits, q, slot);
    Yielded(rq, p);
  }

  /** sys_sched_yield.  Another task is run if there is any that could: for a real-time or SHORT
      task one that does not rank strictly behind it, for a SCHED_OTHER task any other in its
      array or in the arrays schedule() looks at. */
  method SchedYield(rq: Runqueue, jiffies: int)
    requires rq.Valid() && rq.curr != rq.idle && rq.curr.state == Running
    modifies rq`curr, rq`nrSwitches, rq`active, rq`expired, rq`expiredTimestamp, rq`nrRunning, rq`nrUninterruptible,
             rq.curr`prio, rq.curr`state, rq.curr`inArray, rq.curr`needResched, rq.curr`sleepTimestamp,
             rq.active`nrActive, rq.active`bitmap, rq.active`queue, rq.active`slot, rq.expired`nrActive,
             rq.expired`bitmap, rq.expired`queue, rq.expired`slot, rq.shortPr`nrActive, rq.shortPr`bitmap,
             rq.shortPr`queue, rq.shortPr`slot
    ensures rq.Valid() && Best(rq, rq.curr)
    ensures rq.curr == old(rq.curr) <==> RunsOn(rq, old(rq.curr))
    ensures var p := old(rq.curr);
            && p.inArray == old(rq.curr.inArray) && p.inArray != null && p.state == Running
            && rq.nrRunning == old(rq.nrRunning)
            && Now(p) == old(Now(rq.curr)).(prio := p.prio) && (p.policy != SCHED_OTHER ==> p.prio == old(rq.curr.prio))
    ensures var p, a, k := old(rq.curr), old(rq.curr).inArray, old(Key(rq.curr));
            && Key(p) == KeyAfter(p.policy, old(rq.curr.inArray.bitmap), old(rq.curr.inArray.queue), k, p)
            && a.queue == QueuesAfter(p.policy, old(rq.curr.inArray.bitmap), old(rq.curr.inArray.queue), k, p)
    ensures forall x :: x in {old(rq.active), old(rq.expired), rq.shortPr} && x != old(rq.curr.inArray) ==>
              x.queue == old(x.queue)
  {
    var p := rq.curr;
    YieldPlace(p, rq);
    ScheduleAfterYield(p, rq, jiffies);
  }
}
