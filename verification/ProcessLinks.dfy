/** SET_LINKS and REMOVE_LINKS: a task joins, and leaves, the ring of all tasks and the child list
    of its parent. */
module ProcessLinks {
  import opened Common
  import opened ProcessTree

  // ---- the child list ------------------------------------------------------------------------------

  // The stores SET_LINKS makes to the sibling pointers, in their order.
  function Joined(m: map<Task, Links>, p: Task, q: Task): map<Task, Links>
    requires p in m && q in m
  {
    var m1 := m[p := m[p].(ysptr := null)];
    var m2 := m1[p := m1[p].(osptr := m1[q].cptr)];
    var h := m2[p].osptr;
    var m3 := if h != null && h in m2 then m2[h := m2[h].(ysptr := p)] else m2;
    m3[q := m3[q].(cptr := p)]
  }

  // The stores of REMOVE_LINKS.
  function Parted(m: map<Task, Links>, p: Task): map<Task, Links>
    requires p in m && m[p].pptr in m
  {
    var o, y, q := m[p].osptr, m[p].ysptr, m[p].pptr;
    var m1 := if o != null && o in m then m[o := m[o].(ysptr := y)] else m;
    if y != null && y in m then m1[y := m1[y].(osptr := m1[p].osptr)] else m1[q := m1[q].(cptr := m1[p].osptr)]
  }

  // A task outside every list can join one.
  ghost predicate CanJoin(m: map<Task, Links>, linked: set<Task>, kids: Children, p: Task, q: Task) {
    Tree(m, linked, kids, null, null) && p in m && q in m && p != q && p !in linked && m[p].pptr == q
  }

  lemma FirstOf(m: map<Task, Links>, linked: set<Task>, kids: Children, p: Task, q: Task)
    requires CanJoin(m, linked, kids, p, q)
    ensures m[q].cptr == (if kids[q] == [] then null else kids[q][0])
    ensures m[q].cptr != null ==> m[q].cptr in m && m[q].cptr != p && m[m[q].cptr].pptr == q
    ensures forall t :: t in m ==> p !in kids[t]
  {
    assert ListOf(m, q, kids[q], null);
    if kids[q] != [] {
      assert Linked(m, q, kids[q], 0, null);
      assert kids[q][0] in kids[q];
    }
  }

  lemma JoinedOthers(m: map<Task, Links>, linked: set<Task>, kids: Children, p: Task, q: Task, t: Task)
    requires CanJoin(m, linked, kids, p, q) && t in m && t != q
    ensures ListOf(Joined(m, p, q), t, kids[t], null)
  {
    FirstOf(m, linked, kids, p, q);
    assert ListOf(m, t, kids[t], null);
    var m' := Joined(m, p, q);
    forall i | 0 <= i < |kids[t]| ensures Linked(m', t, kids[t], i, null) {
      assert Linked(m, t, kids[t], i, null);
      assert kids[t][i] in kids[t];
    }
  }

  lemma JoinedFront(m: map<Task, Links>, linked: set<Task>, kids: Children, p: Task, q: Task)
    requires CanJoin(m, linked, kids, p, q)
    ensures ListOf(Joined(m, p, q), q, [p] + kids[q], null)
  {
    FirstOf(m, linked, kids, p, q);
    var l := kids[q];
    assert ListOf(m, q, l, null);
    var m' := Joined(m, p, q);
    forall i | 0 <= i < |[p] + l| ensures Linked(m', q, [p] + l, i, null) {
      if i > 0 {
        assert Linked(m, q, l, i - 1, null);
        assert l[i - 1] in l;
      }
    }
  }

  /** SET_LINKS puts the task in front of its parent's list and leaves all other lists alone. */
  lemma JoinedTree(m: map<Task, Links>, linked: set<Task>, kids: Children, p: Task, q: Task)
    requires CanJoin(m, linked, kids, p, q)
    ensures Tree(Joined(m, p, q), linked + {p}, kids[q := [p] + kids[q]], null, null)
  {
    FirstOf(m, linked, kids, p, q);
    var m', kids' := Joined(m, p, q), kids[q := [p] + kids[q]];
    assert m'.Keys == m.Keys;
    forall t | t in m ensures ListOf(m', t, kids'[t], null) {
      if t == q { JoinedFront(m, linked, kids, p, q); } else { JoinedOthers(m, linked, kids, p, q, t); }
    }
    forall c | c in linked + {p} ensures m'[c].pptr in m' && c in kids'[m'[c].pptr] {
      assert c == p || c in linked;
    }
    forall t, c | t in m' && c in kids'[t] ensures c in linked + {p} {
      assert c in kids[t] || c == p;
    }
  }

  ghost predicate At(m: map<Task, Links>, linked: set<Task>, kids: Children, p: Task, i: nat) {
    && Tree(m, linked, kids, null, null) && p in linked && p in m && m[p].pptr in m
    && i < |kids[m[p].pptr]| && kids[m[p].pptr][i] == p
  }

  function Cut(l: seq<Task>, i: nat): seq<Task>
    requires i < |l|
  {
    l[..i] + l[i + 1..]
  }

  // The neighbours of p in its parent's list.
  lemma Neighbours(m: map<Task, Links>, linked: set<Task>, kids: Children, p: Task, i: nat)
    requires At(m, linked, kids, p, i)
    ensures var l, q := kids[m[p].pptr], m[p].pptr;
            && m[p].osptr == (if i + 1 < |l| then l[i + 1] else null) && m[p].ysptr == (if i > 0 then l[i - 1] else null)
            && (i + 1 < |l| ==> l[i + 1] in m && l[i + 1] != p && m[l[i + 1]].pptr == q)
            && (i > 0 ==> l[i - 1] in m && l[i - 1] != p && m[l[i - 1]].pptr == q)
            && (i > 0 && i + 1 < |l| ==> l[i - 1] != l[i + 1])
  {
    var l, q := kids[m[p].pptr], m[p].pptr;
    assert ListOf(m, q, l, null);
    assert Linked(m, q, l, i, null);
    if i + 1 < |l| { assert Linked(m, q, l, i + 1, null); }
    if i > 0 { assert Linked(m, q, l, i - 1, null); }
  }

  lemma PartedOthers(m: map<Task, Links>, linked: set<Task>, kids: Children, p: Task, i: nat, t: Task)
    requires At(m, linked, kids, p, i) && t in m && t != m[p].pptr
    ensures ListOf(Parted(m, p), t, kids[t], null)
  {
    Neighbours(m, linked, kids, p, i);
    assert ListOf(m, t, kids[t], null);
    forall j | 0 <= j < |kids[t]| ensures Linked(Parted(m, p), t, kids[t], j, null) {
      assert Linked(m, t, kids[t], j, null);
    }
  }

  lemma PartedAt(m: map<Task, Links>, linked: set<Task>, kids: Children, p: Task, i: nat, j: nat)
    requires At(m, linked, kids, p, i) && j + 1 < |kids[m[p].pptr]|
    ensures Linked(Parted(m, p), m[p].pptr, Cut(kids[m[p].pptr], i), j, null)
  {
    Neighbours(m, linked, kids, p, i);
    var l, q := kids[m[p].pptr], m[p].pptr;
    assert ListOf(m, q, l, null);
    var k := if j < i then j else j + 1;
    assert Linked(m, q, l, k, null);
    assert Cut(l, i)[j] == l[k];
    if i > 0 { assert l[k] == l[i - 1] <==> k == i - 1; }
    if i + 1 < |l| { assert l[k] == l[i + 1] <==> k == i + 1; }
  }

  lemma PartedOwn(m: map<Task, Links>, linked: set<Task>, kids: Children, p: Task, i: nat)
    requires At(m, linked, kids, p, i)
    ensures ListOf(Parted(m, p), m[p].pptr, Cut(kids[m[p].pptr], i), null)
  {
    Neighbours(m, linked, kids, p, i);
    var l, q := kids[m[p].pptr], m[p].pptr;
    assert ListOf(m, q, l, null);
    forall j | 0 <= j < |Cut(l, i)| ensures Linked(Parted(m, p), q, Cut(l, i), j, null) {
      PartedAt(m, linked, kids, p, i, j);
    }
  }

  lemma CutHas(l: seq<Task>, i: nat, c: Task)
    requires i < |l| && NoDup(l)
    ensures c in Cut(l, i) <==> c in l && c != l[i]
  {
    if c in l && c != l[i] {
      var j :| 0 <= j < |l| && l[j] == c;
      assert Cut(l, i)[if j < i then j else j - 1] == c;
    }
  }

  lemma PartedHome(m: map<Task, Links>, linked: set<Task>, kids: Children, p: Task, i: nat, c: Task)
    requires At(m, linked, kids, p, i) && c in linked && c != p
    ensures var q := m[p].pptr;
            c in Parted(m, p) && Parted(m, p)[c].pptr in m && c in kids[q := Cut(kids[q], i)][Parted(m, p)[c].pptr]
  {
    Neighbours(m, linked, kids, p, i);
    var q := m[p].pptr;
    assert ListOf(m, q, kids[q], null);
    CutHas(kids[q], i, c);
  }

  lemma PartedOnly(m: map<Task, Links>, linked: set<Task>, kids: Children, p: Task, i: nat, t: Task, c: Task)
    requires At(m, linked, kids, p, i) && t in m && c in kids[m[p].pptr := Cut(kids[m[p].pptr], i)][t]
    ensures c in linked && c != p
  {
    var q := m[p].pptr;
    assert ListOf(m, q, kids[q], null);
    CutHas(kids[q], i, c);
    ChildListIsExact(m, linked, kids, null, null, t, p);
    assert c in kids[t];
  }

  lemma PartedList(m: map<Task, Links>, linked: set<Task>, kids: Children, p: Task, i: nat, t: Task)
    requires At(m, linked, kids, p, i) && t in m
    ensures ListOf(Parted(m, p), t, kids[m[p].pptr := Cut(kids[m[p].pptr], i)][t], null)
  {
    if t == m[p].pptr { PartedOwn(m, linked, kids, p, i); } else { PartedOthers(m, linked, kids, p, i, t); }
  }

  lemma PartedKeys(m: map<Task, Links>, linked: set<Task>, kids: Children, p: Task, i: nat)
    requires At(m, linked, kids, p, i)
    ensures Parted(m, p).Keys == m.Keys == kids[m[p].pptr := Cut(kids[m[p].pptr], i)].Keys
  {
  }

  /** REMOVE_LINKS takes the task out of its parent's list and leaves all other lists alone. */
  lemma PartedTree(m: map<Task, Links>, linked: set<Task>, kids: Children, p: Task, i: nat)
    requires At(m, linked, kids, p, i)
    ensures Tree(Parted(m, p), linked - {p}, kids[m[p].pptr := Cut(kids[m[p].pptr], i)], null, null)
  {
    var m', kids' := Parted(m, p), kids[m[p].pptr := Cut(kids[m[p].pptr], i)];
    PartedKeys(m, linked, kids, p, i);
    forall t | t in m ensures ListOf(m', t, kids'[t], null) {
      PartedList(m, linked, kids, p, i, t);
    }
    forall c | c in linked - {p} ensures c in m' && m'[c].pptr in m' && c in kids'[m'[c].pptr] {
      PartedHome(m, linked, kids, p, i, c);
    }
    forall t, c | t in m && c in kids'[t] ensures c in linked - {p} {
      PartedOnly(m, linked, kids, p, i, t, c);
    }
  }

  /** Leaving undoes joining: every list is as before, and so are the links of every other task. */
  lemma JoinThenPart(m: map<Task, Links>, linked: set<Task>, kids: Children, p: Task, q: Task)
    requires CanJoin(m, linked, kids, p, q)
    ensures var m' := Joined(m, p, q);
            && p in m' && m'[p].pptr == q && q in m' && At(m', linked + {p}, kids[q := [p] + kids[q]], p, 0)
            && Cut([p] + kids[q], 0) == kids[q]
            && forall t :: t in m && t != p ==> t in Parted(m', p) && Parted(m', p)[t] == m[t]
  {
    FirstOf(m, linked, kids, p, q);
    JoinedTree(m, linked, kids, p, q);
    assert ListOf(m, q, kids[q], null);
    if kids[q] != [] { assert Linked(m, q, kids[q], 0, null); }
  }

  // ---- the ring of all tasks ----------------------------------------------------------------------------

  ghost predicate PrevIs(ring: seq<Task>, i: nat)
    requires i < |ring|
    reads ring`prev
  {
    ring[i].prev == if i > 0 then ring[i - 1] else ring[|ring| - 1]
  }

  // next_task and prev_task walk the same ring in opposite directions.
  ghost predicate BothWays(ring: seq<Task>)
    reads ring`next, ring`prev
  {
    TaskRing(ring) && forall i {:trigger PrevIs(ring, i)} :: 0 <= i < |ring| ==> PrevIs(ring, i)
  }

  // The successor of each task, and that it points back.
  lemma RingInWords(ring: seq<Task>, i: nat)
    requires BothWays(ring) && i < |ring|
    ensures var j := if i + 1 < |ring| then i + 1 else 0; ring[i].next == ring[j] && ring[j].prev == ring[i]
  {
    assert NextIs(ring, i) && PrevIs(ring, if i + 1 < |ring| then i + 1 else 0);
  }

  method JoinRing(p: Task, initTask: Task, ghost ring: seq<Task>)
    requires BothWays(ring) && ring[0] == initTask && p !in ring
    modifies p`next, p`prev, initTask`prev, initTask.prev`next
    ensures BothWays(ring + [p])
    ensures p.next == initTask && initTask.prev == p && p.prev == old(initTask.prev) && p.prev.next == p
  {
    ghost var n, ring' := |ring|, ring + [p];
    assert PrevIs(ring, 0);
    p.next := initTask;
    p.prev := initTask.prev;
    initTask.prev.next := p;
    initTask.prev := p;
    forall i | 0 <= i <= n ensures NextIs(ring', i) {
      if i < n { assert old(NextIs(ring, i)); }
    }
    forall i | 0 <= i <= n ensures PrevIs(ring', i) {
      if i < n { assert old(PrevIs(ring, i)); }
    }
  }

  method LeaveRing(p: Task, ghost ring: seq<Task>, ghost k: nat)
    requires BothWays(ring) && 0 < k < |ring| && ring[k] == p
    modifies p.next`prev, p.prev`next
    ensures BothWays(Cut(ring, k))
  {
    ghost var n, ring' := |ring| - 1, Cut(ring, k);
    assert NextIs(ring, k) && PrevIs(ring, k);
    p.next.prev := p.prev;
    p.prev.next := p.next;
    forall i | 0 <= i < n ensures NextIs(ring', i) {
      assert old(NextIs(ring, if i < k then i else i + 1));
    }
    forall i | 0 <= i < n ensures PrevIs(ring', i) {
      assert old(PrevIs(ring, if i < k then i else i + 1));
    }
  }

  // ---- the two macros -------------------------------------------------------------------------------------

  method JoinList(p: Task, ghost all: set<Task>, ghost m: map<Task, Links>) returns (ghost m': map<Task, Links>)
    requires View(all, m) && p in all && p.pptr in all && p.pptr != p
    requires m[p.pptr].cptr != null ==> m[p.pptr].cptr in all
    modifies all`cptr, all`ysptr, all`osptr
    ensures View(all, m') && m' == Joined(m, p, p.pptr)
  {
    assert Shows(m, p) && Shows(m, p.pptr);
    m' := SetYounger(p, null, all, m);
    m' := SetOlder(p, p.pptr.cptr, all, m');
    if p.osptr != null {
      m' := SetYounger(p.osptr, p, all, m');
    }
    m' := SetChild(p.pptr, p, all, m');
  }

  method PartList(p: Task, ghost all: set<Task>, ghost m: map<Task, Links>) returns (ghost m': map<Task, Links>)
    requires View(all, m) && p in all && p.pptr in all && (p.osptr != null ==> p.osptr in all && p.osptr != p)
    requires p.ysptr != null ==> p.ysptr in all && p.ysptr != p
    modifies all`cptr, all`ysptr, all`osptr
    ensures View(all, m') && p in m && m[p].pptr in m && m' == Parted(m, p)
  {
    assert Shows(m, p);
    m' := m;
    if p.osptr != null {
      m' := SetYounger(p.osptr, p.ysptr, all, m');
    }
    if p.ysptr != null {
      m' := SetOlder(p.ysptr, p.osptr, all, m');
    } else {
      m' := SetChild(p.pptr, p.osptr, all, m');
    }
  }

  /** SET_LINKS: the task is last in the ring and the youngest child of its parent. */
  method SetLinks(p: Task, initTask: Task, ghost ring: seq<Task>, ghost all: set<Task>, ghost m: map<Task, Links>,
                  ghost linked: set<Task>, ghost kids: Children)
      returns (ghost m': map<Task, Links>)
    requires BothWays(ring) && ring[0] == initTask && p !in ring
    requires View(all, m) && p in all && CanJoin(m, linked, kids, p, p.pptr)
    modifies p`next, p`prev, initTask`prev, initTask.prev`next, all`cptr, all`ysptr, all`osptr
    ensures BothWays(ring + [p]) && View(all, m')
    ensures Tree(m', linked + {p}, kids[p.pptr := [p] + kids[p.pptr]], null, null)
    ensures p.next == initTask && initTask.prev == p && p.prev == old(initTask.prev) && p.prev.next == p
  {
    assert Shows(m, p);
    JoinRing(p, initTask, ring);
    FirstOf(m, linked, kids, p, p.pptr);
    JoinedTree(m, linked, kids, p, p.pptr);
    m' := JoinList(p, all, m);
  }

  method PartTree(p: Task, ghost all: set<Task>, ghost m: map<Task, Links>, ghost linked: set<Task>,
                  ghost kids: Children, ghost i: nat)
      returns (ghost m': map<Task, Links>)
    requires View(all, m) && At(m, linked, kids, p, i)
    modifies all`cptr, all`ysptr, all`osptr
    ensures View(all, m') && m[p].pptr == p.pptr && p.pptr in kids && i < |kids[p.pptr]|
    ensures Tree(m', linked - {p}, kids[p.pptr := Cut(kids[p.pptr], i)], null, null)
  {
    assert Shows(m, p);
    Neighbours(m, linked, kids, p, i);
    PartedTree(m, linked, kids, p, i);
    m' := PartList(p, all, m);
  }

  /** REMOVE_LINKS: the task is out of the ring and out of its parent's list, and both are closed
      over the gap. */
  method RemoveLinks(p: Task, ghost ring: seq<Task>, ghost k: nat, ghost all: set<Task>, ghost m: map<Task, Links>,
                     ghost linked: set<Task>, ghost kids: Children, ghost i: nat)
      returns (ghost m': map<Task, Links>)
    requires BothWays(ring) && 0 < k < |ring| && ring[k] == p
    requires View(all, m) && At(m, linked, kids, p, i)
    modifies p.next`prev, p.prev`next, all`cptr, all`ysptr, all`osptr
    ensures BothWays(Cut(ring, k)) && View(all, m')
    ensures m[p].pptr == p.pptr && p.pptr in kids && i < |kids[p.pptr]|
    ensures Tree(m', linked - {p}, kids[p.pptr := Cut(kids[p.pptr], i)], null, null)
  {
    LeaveRing(p, ring, k);
    m' := PartTree(p, all, m, linked, kids, i);
  }
}
