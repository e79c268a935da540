/** The parent, child and sibling links of the tasks, and how an exiting task gives its
    children away.  Each task's children form a list from p_cptr along p_osptr, youngest first,
    with p_ysptr pointing back. */
module ProcessTree {
  import opened Common

  class Task {
    var optr: Task      // p_opptr: original parent
    var pptr: Task      // p_pptr: parent
    var cptr: Task?     // p_cptr: youngest child
    var ysptr: Task?    // p_ysptr: younger sibling
    var osptr: Task?    // p_osptr: older sibling
    var next: Task      // next_task
    var prev: Task      // prev_task
    var nextThread: Task
    var exiting: bool   // PF_EXITING

    constructor ()
      ensures optr == pptr == next == prev == nextThread == this
      ensures cptr == ysptr == osptr == null && !exiting
    {
      optr, pptr, next, prev, nextThread := this, this, this, this, this;
      cptr, ysptr, osptr := null, null, null;
      exiting := false;
    }
  }

  // The links of one task, as a value.
  datatype Links = Links(pptr: Task, cptr: Task?, ysptr: Task?, osptr: Task?)

  ghost predicate Shows(m: map<Task, Links>, t: Task)
    reads t`pptr, t`cptr, t`ysptr, t`osptr
  {
    t in m && m[t] == Links(t.pptr, t.cptr, t.ysptr, t.osptr)
  }

  // m has the links of all tasks.
  ghost predicate View(all: set<Task>, m: map<Task, Links>)
    reads all`pptr, all`cptr, all`ysptr, all`osptr
  {
    m.Keys == all && forall t {:trigger Shows(m, t)} :: t in all ==> Shows(m, t)
  }

  type Children = map<Task, seq<Task>>

  // Child number i of t: its parent pointer and its two sibling pointers.
  ghost predicate Linked(m: map<Task, Links>, t: Task, l: seq<Task>, i: nat, younger: Task?)
    requires i < |l|
  {
    && l[i] in m && m[l[i]].pptr == t
    && m[l[i]].ysptr == (if i == 0 then younger else l[i - 1])
    && m[l[i]].osptr == (if i + 1 < |l| then l[i + 1] else null)
  }

  // `younger` is what the youngest child's p_ysptr holds.
  ghost predicate ListOf(m: map<Task, Links>, t: Task, l: seq<Task>, younger: Task?) {
    && t in m && m[t].cptr == (if l == [] then null else l[0])
    && NoDup(l)
    && forall i {:trigger Linked(m, t, l, i, younger)} :: 0 <= i < |l| ==> Linked(m, t, l, i, younger)
  }

  /** The tasks in `linked` are in the child list of their parent, every list holds only such
      tasks, and the lists are well linked; the first entry of `odd`'s list may have a stale
      p_ysptr. */
  ghost predicate Tree(m: map<Task, Links>, linked: set<Task>, kids: Children, odd: Task?, stale: Task?) {
    && kids.Keys == m.Keys
    && (forall t, c {:trigger c in kids[t]} :: t in m && c in kids[t] ==> c in linked)
    && (forall t {:trigger kids[t]} :: t in m ==> ListOf(m, t, kids[t], if t == odd then stale else null))
    && (forall c {:trigger c in linked} :: c in linked ==> c in m && m[c].pptr in m && c in kids[m[c].pptr])
  }

  // ---- one child moves to another parent --------------------------------------------------------

  // The stores of one round of the loop in exit_notify, in their order.
  function Moved(m: map<Task, Links>, cur: Task, p: Task, q: Task): map<Task, Links>
    requires cur in m && p in m && q in m && (m[q].cptr != null ==> m[q].cptr in m)
  {
    var m1 := m[cur := m[cur].(cptr := m[p].osptr)];
    var m2 := m1[p := m1[p].(ysptr := null)];
    var m3 := m2[p := m2[p].(pptr := q)];
    var m4 := m3[p := m3[p].(osptr := m3[q].cptr)];
    var h := m4[p].osptr;
    var m5 := if h != null && h in m4 then m4[h := m4[h].(ysptr := p)] else m4;
    m5[q := m5[q].(cptr := p)]
  }

  function MovedKids(kids: Children, cur: Task, q: Task): Children
    requires cur in kids && q in kids && kids[cur] != []
  {
    kids[cur := kids[cur][1..]][q := [kids[cur][0]] + kids[q]]
  }

  // What changes for a task that is neither the child moved, its old parent, its new parent
  // nor its new sibling: nothing.
  lemma MovedOthers(m: map<Task, Links>, cur: Task, p: Task, q: Task, t: Task)
    requires cur in m && p in m && q in m && (m[q].cptr != null ==> m[q].cptr in m)
    requires t in m && t != p && q != cur
    ensures var m' := Moved(m, cur, p, q);
            && t in m' && m'[t].pptr == m[t].pptr && m'[t].osptr == m[t].osptr
            && (t != m[q].cptr ==> m'[t].ysptr == m[t].ysptr)
            && (t != cur && t != q ==> m'[t].cptr == m[t].cptr)
  {
  }

  lemma MovedList(m: map<Task, Links>, linked: set<Task>, kids: Children, stale: Task?,
                  cur: Task, q: Task, t: Task)
    requires Tree(m, linked, kids, cur, stale) && cur in m && q in m && q != cur && kids[cur] != []
    requires t in m && t != cur && t != q
    ensures m[q].cptr != null ==> m[q].cptr in m
    ensures kids[cur][0] in m
    ensures ListOf(Moved(m, cur, kids[cur][0], q), t, kids[t], null)
  {
    var p := kids[cur][0];
    assert ListOf(m, q, kids[q], null) && ListOf(m, cur, kids[cur], stale) && ListOf(m, t, kids[t], null);
    assert Linked(m, cur, kids[cur], 0, stale);
    if kids[q] != [] { assert Linked(m, q, kids[q], 0, null); }
    var m' := Moved(m, cur, p, q);
    forall i | 0 <= i < |kids[t]| ensures Linked(m', t, kids[t], i, null) {
      assert Linked(m, t, kids[t], i, null);
      MovedOthers(m, cur, p, q, kids[t][i]);
    }
  }

  // The old parent's list loses its first child; the next one keeps a stale p_ysptr.
  lemma MovedOld(m: map<Task, Links>, linked: set<Task>, kids: Children, stale: Task?, cur: Task, q: Task)
    requires Tree(m, linked, kids, cur, stale) && cur in m && q in m && q != cur && kids[cur] != []
    ensures m[q].cptr != null ==> m[q].cptr in m
    ensures kids[cur][0] in m
    ensures ListOf(Moved(m, cur, kids[cur][0], q), cur, kids[cur][1..], kids[cur][0])
  {
    var l := kids[cur];
    var p := l[0];
    assert ListOf(m, q, kids[q], null) && ListOf(m, cur, l, stale);
    assert Linked(m, cur, l, 0, stale);
    if kids[q] != [] { assert Linked(m, q, kids[q], 0, null); }
    var m' := Moved(m, cur, p, q);
    forall i | 0 <= i < |l[1..]| ensures Linked(m', cur, l[1..], i, p) {
      assert Linked(m, cur, l, i + 1, stale);
      assert l[1..][i] == l[i + 1] && l[i + 1] != p;
      MovedOthers(m, cur, p, q, l[i + 1]);
    }
  }

  lemma MovedSelf(m: map<Task, Links>, cur: Task, p: Task, q: Task)
    requires cur in m && p in m && q in m && q != cur && p != m[q].cptr
    requires m[q].cptr != null ==> m[q].cptr in m
    ensures var m' := Moved(m, cur, p, q);
            && p in m' && q in m' && m'[p].pptr == q && m'[p].ysptr == null && m'[p].osptr == m[q].cptr
            && m'[q].cptr == p
            && (m[q].cptr != null ==> m[q].cptr in m' && m'[m[q].cptr].ysptr == p)
  {
  }

  // First entries of the two lists, and that they are different tasks.
  lemma Heads(m: map<Task, Links>, linked: set<Task>, kids: Children, stale: Task?, cur: Task, q: Task)
    requires Tree(m, linked, kids, cur, stale) && cur in m && q in m && q != cur && kids[cur] != []
    ensures var p := kids[cur][0];
            && p in m && m[cur].cptr == p && m[p].pptr == cur
            && (m[q].cptr != null ==> m[q].cptr in m && m[m[q].cptr].pptr == q)
            && m[q].cptr == (if kids[q] == [] then null else kids[q][0])
            && m[p].osptr == (if |kids[cur]| == 1 then null else kids[cur][1])
            && forall i :: 0 <= i < |kids[q]| ==> kids[q][i] != p
  {
    assert ListOf(m, q, kids[q], null) && ListOf(m, cur, kids[cur], stale);
    assert Linked(m, cur, kids[cur], 0, stale);
    if kids[q] != [] { assert Linked(m, q, kids[q], 0, null); }
    forall i | 0 <= i < |kids[q]| ensures kids[q][i] != kids[cur][0] {
      assert Linked(m, q, kids[q], i, null);
    }
  }

  // The new parent's list gets it in front.
  lemma MovedNewAt(m: map<Task, Links>, linked: set<Task>, kids: Children, stale: Task?,
                   cur: Task, q: Task, i: nat)
    requires Tree(m, linked, kids, cur, stale) && cur in m && q in m && q != cur && kids[cur] != []
    requires i <= |kids[q]|
    ensures kids[cur][0] in m && (m[q].cptr != null ==> m[q].cptr in m)
    ensures Linked(Moved(m, cur, kids[cur][0], q), q, [kids[cur][0]] + kids[q], i, null)
  {
    var p, k := kids[cur][0], kids[q];
    Heads(m, linked, kids, stale, cur, q);
    MovedSelf(m, cur, p, q);
    if 0 < i {
      assert ListOf(m, q, k, null);
      assert Linked(m, q, k, i - 1, null);
      MovedOthers(m, cur, p, q, k[i - 1]);
    }
  }

  lemma MovedNew(m: map<Task, Links>, linked: set<Task>, kids: Children, stale: Task?, cur: Task, q: Task)
    requires Tree(m, linked, kids, cur, stale) && cur in m && q in m && q != cur && kids[cur] != []
    ensures kids[cur][0] in m && (m[q].cptr != null ==> m[q].cptr in m)
    ensures ListOf(Moved(m, cur, kids[cur][0], q), q, [kids[cur][0]] + kids[q], null)
  {
    var p, k := kids[cur][0], kids[q];
    Heads(m, linked, kids, stale, cur, q);
    MovedSelf(m, cur, p, q);
    assert ListOf(m, q, k, null);
    var m' := Moved(m, cur, p, q);
    forall i | 0 <= i < |[p] + k| ensures Linked(m', q, [p] + k, i, null) {
      MovedNewAt(m, linked, kids, stale, cur, q, i);
    }
  }

  // Every task is in the list of its (possibly new) parent.
  lemma MovedHome(m: map<Task, Links>, linked: set<Task>, kids: Children, stale: Task?,
                  cur: Task, q: Task, c: Task)
    requires Tree(m, linked, kids, cur, stale) && cur in m && q in m && q != cur && kids[cur] != []
    requires c in linked
    ensures kids[cur][0] in m && (m[q].cptr != null ==> m[q].cptr in m)
    ensures var m', kids' := Moved(m, cur, kids[cur][0], q), MovedKids(kids, cur, q);
            c in m' && m'[c].pptr in m' && c in kids'[m'[c].pptr]
  {
    var p := kids[cur][0];
    Heads(m, linked, kids, stale, cur, q);
    MovedSelf(m, cur, p, q);
    if c != p {
      MovedOthers(m, cur, p, q, c);
      if m[c].pptr == cur {
        var i :| 0 <= i < |kids[cur]| && kids[cur][i] == c;
        assert kids[cur][1..][i - 1] == c;
      }
    }
  }

  lemma MovedEach(m: map<Task, Links>, linked: set<Task>, kids: Children, stale: Task?, cur: Task, q: Task, t: Task)
    requires Tree(m, linked, kids, cur, stale) && cur in m && q in m && q != cur && kids[cur] != []
    requires t in m
    ensures kids[cur][0] in m && (m[q].cptr != null ==> m[q].cptr in m)
    ensures ListOf(Moved(m, cur, kids[cur][0], q), t, MovedKids(kids, cur, q)[t], if t == cur then kids[cur][0] else null)
  {
    Heads(m, linked, kids, stale, cur, q);
    if t == cur {
      MovedOld(m, linked, kids, stale, cur, q);
    } else if t == q {
      MovedNew(m, linked, kids, stale, cur, q);
    } else {
      MovedList(m, linked, kids, stale, cur, q, t);
    }
  }

  lemma MovedTree(m: map<Task, Links>, linked: set<Task>, kids: Children, stale: Task?, cur: Task, q: Task)
    requires Tree(m, linked, kids, cur, stale) && cur in m && q in m && q != cur && kids[cur] != []
    ensures kids[cur][0] in m && (m[q].cptr != null ==> m[q].cptr in m)
    ensures Tree(Moved(m, cur, kids[cur][0], q), linked, MovedKids(kids, cur, q), cur, kids[cur][0])
  {
    var p := kids[cur][0];
    Heads(m, linked, kids, stale, cur, q);
    var m', kids' := Moved(m, cur, p, q), MovedKids(kids, cur, q);
    assert m'.Keys == m.Keys == kids'.Keys;
    forall t | t in m ensures ListOf(m', t, kids'[t], if t == cur then p else null) {
      MovedEach(m, linked, kids, stale, cur, q, t);
    }
    forall c | c in linked ensures m'[c].pptr in m' && c in kids'[m'[c].pptr] {
      MovedHome(m, linked, kids, stale, cur, q, c);
    }
    assert p in kids[cur];
    forall t, c | t in m' && c in kids'[t] ensures c in linked {
      assert c in kids[t] || c == p;
    }
  }

  // ---- the loop of exit_notify -------------------------------------------------------------------

  type Parents = map<Task, Task>

  ghost predicate Names(o: Parents, t: Task)
    reads t`optr
  {
    t in o && o[t] == t.optr
  }

  // o has the original parents of all tasks.
  ghost predicate Originals(all: set<Task>, o: Parents)
    reads all`optr
  {
    o.Keys == all && forall t {:trigger Names(o, t)} :: t in all ==> Names(o, t)
  }

  // What the list of t becomes when the children in l are given away one after the other.
  ghost function Adopted(l: seq<Task>, t: Task, o: Parents, base: seq<Task>): seq<Task> {
    if l == [] then base
    else Adopted(l[1..], t, o, if l[0] in o && o[l[0]] == t then [l[0]] + base else base)
  }

  // The children in l whose original parent is t, last one first.
  ghost function Orphans(l: seq<Task>, t: Task, o: Parents): seq<Task> {
    if l == [] then []
    else Orphans(l[1..], t, o) + if l[0] in o && o[l[0]] == t then [l[0]] else []
  }

  lemma {:induction false} AdoptedIsOrphans(l: seq<Task>, t: Task, o: Parents, base: seq<Task>)
    ensures Adopted(l, t, o, base) == Orphans(l, t, o) + base
  {
    if l != [] {
      var mine := if l[0] in o && o[l[0]] == t then [l[0]] else [];
      AdoptedIsOrphans(l[1..], t, o, mine + base);
      assert mine + base == if mine == [] then base else [l[0]] + base;
      assert Orphans(l[1..], t, o) + (mine + base) == (Orphans(l[1..], t, o) + mine) + base;
    }
  }

  // Each former child is, once, in the list of its original parent.
  lemma {:induction false} OrphanCount(l: seq<Task>, t: Task, o: Parents, c: Task)
    ensures multiset(Orphans(l, t, o))[c] == if c in o && o[c] == t then multiset(l)[c] else 0
  {
    if l != [] {
      OrphanCount(l[1..], t, o, c);
      assert l == [l[0]] + l[1..];
    }
  }

  // One more child at the end of l comes first.
  lemma {:induction false} OrphansOneMore(l: seq<Task>, c: Task, t: Task, o: Parents)
    ensures Orphans([], t, o) == []
    ensures Orphans(l + [c], t, o) == (if c in o && o[c] == t then [c] else []) + Orphans(l, t, o)
  {
    if l == [] {
      assert l + [c] == [c] && [c][1..] == [];
    } else {
      assert (l + [c])[0] == l[0] && (l + [c])[1..] == l[1..] + [c];
      OrphansOneMore(l[1..], c, t, o);
    }
  }

  /** What the view and the lists mean for the fields: a task points to its youngest child, and each child
      to its parent and to its neighbours. */
  lemma TreeInWords(all: set<Task>, m: map<Task, Links>, linked: set<Task>, kids: Children, t: Task)
    requires View(all, m) && Tree(m, linked, kids, null, null) && t in all
    ensures t in kids && t.cptr == (if kids[t] == [] then null else kids[t][0])
    ensures forall i :: 0 <= i < |kids[t]| ==>
              && kids[t][i] in all && kids[t][i].pptr == t
              && kids[t][i].ysptr == (if i == 0 then null else kids[t][i - 1])
              && kids[t][i].osptr == (if i + 1 < |kids[t]| then kids[t][i + 1] else null)
    ensures t in linked ==> t.pptr in kids && t in kids[t.pptr]
  {
    assert Shows(m, t) && ListOf(m, t, kids[t], null);
    forall i | 0 <= i < |kids[t]|
      ensures kids[t][i] in all && kids[t][i].pptr == t
      ensures kids[t][i].ysptr == (if i == 0 then null else kids[t][i - 1])
      ensures kids[t][i].osptr == (if i + 1 < |kids[t]| then kids[t][i + 1] else null)
    {
      assert Linked(m, t, kids[t], i, null) && Shows(m, kids[t][i]);
    }
  }

  // Stores into one link field, seen from the view.
  method SetParent(t: Task, v: Task, ghost all: set<Task>, ghost m: map<Task, Links>)
      returns (ghost m': map<Task, Links>)
    requires t in all && View(all, m)
    modifies t`pptr
    ensures t.pptr == v && View(all, m') && t in m && m' == m[t := m[t].(pptr := v)]
  {
    assert Shows(m, t);
    t.pptr := v;
    m' := m[t := m[t].(pptr := v)];
    forall u | u in all ensures Shows(m', u) {
      assert old(Shows(m, u));
    }
  }

  method SetChild(t: Task, v: Task?, ghost all: set<Task>, ghost m: map<Task, Links>)
      returns (ghost m': map<Task, Links>)
    requires t in all && View(all, m)
    modifies t`cptr
    ensures t.cptr == v && View(all, m') && t in m && m' == m[t := m[t].(cptr := v)]
  {
    assert Shows(m, t);
    t.cptr := v;
    m' := m[t := m[t].(cptr := v)];
    forall u | u in all ensures Shows(m', u) {
      assert old(Shows(m, u));
    }
  }

  method SetYounger(t: Task, v: Task?, ghost all: set<Task>, ghost m: map<Task, Links>)
      returns (ghost m': map<Task, Links>)
    requires t in all && View(all, m)
    modifies t`ysptr
    ensures t.ysptr == v && View(all, m') && t in m && m' == m[t := m[t].(ysptr := v)]
  {
    assert Shows(m, t);
    t.ysptr := v;
    m' := m[t := m[t].(ysptr := v)];
    forall u | u in all ensures Shows(m', u) {
      assert old(Shows(m, u));
    }
  }

  method SetOlder(t: Task, v: Task?, ghost all: set<Task>, ghost m: map<Task, Links>)
      returns (ghost m': map<Task, Links>)
    requires t in all && View(all, m)
    modifies t`osptr
    ensures t.osptr == v && View(all, m') && t in m && m' == m[t := m[t].(osptr := v)]
  {
    assert Shows(m, t);
    t.osptr := v;
    m' := m[t := m[t].(osptr := v)];
    forall u | u in all ensures Shows(m', u) {
      assert old(Shows(m, u));
    }
  }

  // The stores of one round: p, the first child of cur, goes to its original parent.
  method MoveStores(cur: Task, ghost all: set<Task>, ghost m: map<Task, Links>) returns (ghost m': map<Task, Links>)
    requires View(all, m) && cur in m && m[cur].cptr == cur.cptr
    requires cur.cptr != null && cur.cptr in m && cur.cptr.optr in m && cur.cptr.optr != cur
    requires m[cur.cptr.optr].cptr != null ==> m[cur.cptr.optr].cptr in m && m[cur.cptr.optr].cptr != cur.cptr
    modifies all`cptr, all`ysptr, all`osptr, all`pptr
    ensures View(all, m') && m' == Moved(m, cur, old(cur.cptr), old(cur.cptr.optr))
  {
    var p := cur.cptr;
    assert Shows(m, p) && Shows(m, p.optr);
    m' := SetChild(cur, p.osptr, all, m);
    m' := SetYounger(p, null, all, m');
    m' := SetParent(p, p.optr, all, m');
    m' := SetOlder(p, p.pptr.cptr, all, m');
    if p.osptr != null {
      m' := SetYounger(p.osptr, p, all, m');
    }
    m' := SetChild(p.pptr, p, all, m');
  }

  method MoveFirst(cur: Task, ghost all: set<Task>, ghost m: map<Task, Links>, ghost linked: set<Task>,
                   ghost kids: Children, ghost stale: Task?)
      returns (ghost m': map<Task, Links>)
    requires View(all, m) && Tree(m, linked, kids, cur, stale) && cur in all && kids[cur] != []
    requires kids[cur][0] in all && kids[cur][0].optr in all && kids[cur][0].optr != cur
    modifies all`cptr, all`ysptr, all`osptr, all`pptr
    ensures View(all, m') && Tree(m', linked, MovedKids(kids, cur, kids[cur][0].optr), cur, kids[cur][0])
  {
    assert Shows(m, cur);
    Heads(m, linked, kids, stale, cur, kids[cur][0].optr);
    MovedTree(m, linked, kids, stale, cur, kids[cur][0].optr);
    m' := MoveStores(cur, all, m);
  }

  // Which children are left, and that their original parents will take them.
  ghost predicate CanLeave(l: seq<Task>, cur: Task, all: set<Task>, o: Parents) {
    forall i :: 0 <= i < |l| ==> l[i] in all && l[i] in o && o[l[i]] in all && o[l[i]] != cur
  }

  // The lists after giving away what is gone from `l`, against what giving away all of it makes.
  ghost predicate OnTheWay(all: set<Task>, cur: Task, o: Parents, l: seq<Task>, kids: Children, kids': Children) {
    && kids.Keys == kids'.Keys == all && cur in all
    && forall t {:trigger kids'[t]} :: t in all && t != cur ==>
         Adopted(kids'[cur], t, o, kids'[t]) == Adopted(l, t, o, kids[t])
  }

  lemma OneLeft(all: set<Task>, cur: Task, o: Parents, l: seq<Task>, kids: Children, kids': Children)
    requires OnTheWay(all, cur, o, l, kids, kids') && CanLeave(kids'[cur], cur, all, o) && kids'[cur] != []
    ensures var next := MovedKids(kids', cur, o[kids'[cur][0]]);
            OnTheWay(all, cur, o, l, kids, next) && CanLeave(next[cur], cur, all, o)
            && |next[cur]| == |kids'[cur]| - 1
  {
  }

  // cur's children have gone to the front of the lists of their original parents.
  ghost predicate GivenAway(all: set<Task>, cur: Task, o: Parents, kids: Children, kids': Children) {
    && kids.Keys == kids'.Keys == all && cur in all && kids'[cur] == []
    && forall t {:trigger kids'[t]} :: t in all && t != cur ==> kids'[t] == Orphans(kids[cur], t, o) + kids[t]
  }

  // Where a task is after the children of cur have been given away.
  lemma ParentAfter(all: set<Task>, m: map<Task, Links>, m': map<Task, Links>, linked: set<Task>, o: Parents,
                    cur: Task, kids: Children, kids': Children, c: Task)
    requires m.Keys == m'.Keys == all && Tree(m, linked, kids, null, null) && Tree(m', linked, kids', null, null)
    requires GivenAway(all, cur, o, kids, kids') && c in linked
    ensures c in m && c in m' && (m[c].pptr == cur ==> c in o && m'[c].pptr == o[c])
    ensures m[c].pptr != cur ==> m'[c].pptr == m[c].pptr
  {
    var q := m'[c].pptr;
    assert c in kids'[q] && c in kids[m[c].pptr];
    OrphanCount(kids[cur], q, o, c);
    if c in kids[q] {
      ChildListIsExact(m, linked, kids, null, null, q, c);
    } else {
      assert c in Orphans(kids[cur], q, o);
      assert c in multiset(kids[cur]);
      ChildListIsExact(m, linked, kids, null, null, cur, c);
    }
  }

  /** The list of t holds exactly the tasks whose parent is t. */
  lemma ChildListIsExact(m: map<Task, Links>, linked: set<Task>, kids: Children, odd: Task?, stale: Task?, t: Task,
                         c: Task)
    requires Tree(m, linked, kids, odd, stale) && t in m && c in linked
    ensures c in m && (c in kids[t] <==> m[c].pptr == t)
  {
    if c in kids[t] {
      var younger := if t == odd then stale else null;
      assert ListOf(m, t, kids[t], younger);
      var i :| 0 <= i < |kids[t]| && kids[t][i] == c;
      assert Linked(m, t, kids[t], i, younger);
    }
  }

  lemma {:induction false} CountNoDup(l: seq<Task>, c: Task)
    requires NoDup(l)
    ensures multiset(l)[c] == if c in l then 1 else 0
  {
    if l != [] {
      assert NoDup(l[1..]) by {
        forall i, j | 0 <= i < j < |l[1..]| ensures l[1..][i] != l[1..][j] {
          assert l[i + 1] != l[j + 1];
        }
      }
      CountNoDup(l[1..], c);
      assert l == [l[0]] + l[1..];
    }
  }

  /** A former child of cur is, exactly once, in the list of its original parent, and in no other. */
  lemma AdoptedOnce(m: map<Task, Links>, linked: set<Task>, cur: Task, o: Parents, kids: Children, kids': Children,
                    c: Task, t: Task)
    requires Tree(m, linked, kids, null, null) && GivenAway(m.Keys, cur, o, kids, kids')
    requires c in kids[cur] && c in o && o[c] != cur && t in m
    ensures multiset(kids'[t])[c] == if t == o[c] then 1 else 0
  {
    if t != cur {
      ChildListIsExact(m, linked, kids, null, null, t, c);
      ChildListIsExact(m, linked, kids, null, null, cur, c);
      assert ListOf(m, cur, kids[cur], null) && ListOf(m, t, kids[t], null);
      CountNoDup(kids[cur], c);
      CountNoDup(kids[t], c);
      OrphanCount(kids[cur], t, o, c);
    }
  }

  // A stale pointer of a first child does not matter when there is no child.
  lemma EmptyIsPlain(m: map<Task, Links>, linked: set<Task>, kids: Children, cur: Task, stale: Task?)
    requires Tree(m, linked, kids, cur, stale) && cur in m && kids[cur] == []
    ensures Tree(m, linked, kids, null, null)
  {
    forall t | t in m ensures ListOf(m, t, kids[t], null) {
      assert ListOf(m, t, kids[t], if t == cur then stale else null);
    }
  }

  // The invariant of the loop, on values.
  ghost predicate Leaving(m: map<Task, Links>, linked: set<Task>, o: Parents, cur: Task,
                          kids: Children, kids': Children, stale: Task?)
  {
    && cur in kids && Tree(m, linked, kids', cur, stale)
    && OnTheWay(m.Keys, cur, o, kids[cur], kids, kids') && CanLeave(kids'[cur], cur, m.Keys, o)
    && m[cur].cptr == (if kids'[cur] == [] then null else kids'[cur][0])
  }

  method OneRound(cur: Task, ghost all: set<Task>, ghost m: map<Task, Links>, ghost linked: set<Task>, ghost o: Parents,
                  ghost kids: Children, ghost kids': Children, ghost stale: Task?)
      returns (ghost m': map<Task, Links>, ghost next: Children, ghost stale': Task?)
    requires Originals(all, o) && View(all, m)
    requires Leaving(m, linked, o, cur, kids, kids', stale) && kids'[cur] != []
    modifies all`cptr, all`ysptr, all`osptr, all`pptr
    ensures View(all, m') && cur in next && cur in kids' && |next[cur]| < |kids'[cur]|
    ensures Leaving(m', linked, o, cur, kids, next, stale')
  {
    ghost var p := kids'[cur][0];
    assert Names(o, p);
    OneLeft(all, cur, o, kids[cur], kids, kids');
    next, stale' := MovedKids(kids', cur, o[p]), p;
    m' := MoveFirst(cur, all, m, linked, kids', stale);
    assert ListOf(m', cur, next[cur], p);
  }

  lemma LeavingStarts(m: map<Task, Links>, linked: set<Task>, o: Parents, cur: Task, kids: Children)
    requires Tree(m, linked, kids, null, null) && cur in m && CanLeave(kids[cur], cur, m.Keys, o)
    ensures Leaving(m, linked, o, cur, kids, kids, null)
  {
    forall t | t in m ensures ListOf(m, t, kids[t], if t == cur then null else null) {
      assert t in m;
    }
  }

  lemma LeavingEnds(m: map<Task, Links>, linked: set<Task>, o: Parents, cur: Task,
                    kids: Children, kids': Children, stale: Task?)
    requires Leaving(m, linked, o, cur, kids, kids', stale) && m[cur].cptr == null
    ensures Tree(m, linked, kids', null, null) && GivenAway(m.Keys, cur, o, kids, kids')
  {
    EmptyIsPlain(m, linked, kids', cur, stale);
    forall t | t in m && t != cur ensures kids'[t] == Orphans(kids[cur], t, o) + kids[t] {
      AdoptedIsOrphans(kids[cur], t, o, kids[t]);
    }
  }

  // The relinking loop of exit_notify.
  method Relink(cur: Task, ghost all: set<Task>, ghost m: map<Task, Links>, ghost linked: set<Task>, ghost o: Parents,
                ghost kids: Children)
      returns (ghost m': map<Task, Links>, ghost kids': Children, ghost stale: Task?)
    requires Originals(all, o) && View(all, m)
    requires Leaving(m, linked, o, cur, kids, kids, null)
    modifies all`cptr, all`ysptr, all`osptr, all`pptr
    ensures View(all, m') && cur in m' && m'[cur].cptr == null
    ensures Leaving(m', linked, o, cur, kids, kids', stale)
  {
    m', kids', stale := m, kids, null;
    assert Shows(m', cur);
    while cur.cptr != null
      invariant cur in kids' && Originals(all, o) && View(all, m') && Shows(m', cur)
      invariant Leaving(m', linked, o, cur, kids, kids', stale)
      decreases |kids'[cur]|
    {
      m', kids', stale := OneRound(cur, all, m', linked, o, kids, kids', stale);
      assert Shows(m', cur);
    }
  }

  /** It ends because every child's original parent is another task; then cur has no children
      and each of them has gone, in turn, to the front of the list of its original parent. */
  method GiveAwayChildren(cur: Task, ghost all: set<Task>, ghost m: map<Task, Links>, ghost linked: set<Task>,
                          ghost o: Parents, ghost kids: Children)
      returns (ghost m': map<Task, Links>, ghost kids': Children)
    requires View(all, m) && Tree(m, linked, kids, null, null) && cur in all
    requires Originals(all, o) && CanLeave(kids[cur], cur, all, o)
    modifies all`cptr, all`ysptr, all`osptr, all`pptr
    ensures View(all, m') && Tree(m', linked, kids', null, null)
    ensures GivenAway(all, cur, o, kids, kids')
  {
    ghost var stale;
    LeavingStarts(m, linked, o, cur, kids);
    m', kids', stale := Relink(cur, all, m, linked, o, kids);
    LeavingEnds(m', linked, o, cur, kids, kids', stale);
  }

  // ---- forget_original_parent ----------------------------------------------------------------------

  function After(ring: seq<Task>, i: nat): Task
    requires i < |ring|
  {
    if i + 1 < |ring| then ring[i + 1] else ring[0]
  }

  ghost predicate NextIs(ring: seq<Task>, i: nat)
    requires i < |ring|
    reads ring`next
  {
    ring[i].next == After(ring, i)
  }

  ghost predicate NextThreadIs(group: seq<Task>, i: nat)
    requires i < |group|
    reads group`nextThread
  {
    group[i].nextThread == After(group, i)
  }

  // for_each_task walks this ring, from the init task back to it.
  ghost predicate TaskRing(ring: seq<Task>)
    reads ring`next
  {
    ring != [] && NoDup(ring) && forall i {:trigger NextIs(ring, i)} :: 0 <= i < |ring| ==> NextIs(ring, i)
  }

  ghost predicate ThreadRing(group: seq<Task>)
    reads group`nextThread
  {
    && group != [] && NoDup(group)
    && forall i {:trigger NextThreadIs(group, i)} :: 0 <= i < |group| ==> NextThreadIs(group, i)
  }

  // The first task of l that is not exiting.
  function FirstAlive(l: seq<Task>, default: Task): Task
    reads l`exiting
  {
    if l == [] then default else if !l[0].exiting then l[0] else FirstAlive(l[1..], default)
  }

  lemma {:induction false} FirstAliveIs(l: seq<Task>, default: Task)
    ensures (FirstAlive(l, default) == default && forall i :: 0 <= i < |l| ==> l[i].exiting)
            || exists j :: 0 <= j < |l| && FirstAlive(l, default) == l[j] && !l[j].exiting
                           && forall i :: 0 <= i < j ==> l[i].exiting
  {
    if l != [] && l[0].exiting {
      FirstAliveIs(l[1..], default);
      if exists j :: 0 <= j < |l[1..]| && FirstAlive(l[1..], default) == l[1..][j] && !l[1..][j].exiting
                     && forall i :: 0 <= i < j ==> l[1..][i].exiting {
        var j :| 0 <= j < |l[1..]| && FirstAlive(l[1..], default) == l[1..][j] && !l[1..][j].exiting
                 && forall i :: 0 <= i < j ==> l[1..][i].exiting;
        assert forall i :: 0 < i <= j ==> l[i] == l[1..][i - 1];
        assert l[j + 1] == l[1..][j];
      } else {
        assert forall i :: 0 < i < |l| ==> l[i] == l[1..][i - 1];
      }
    }
  }

  // The next live thread of the group, or the global reaper.
  method FindReaper(father: Task, childReaper: Task, ghost group: seq<Task>) returns (reaper: Task)
    requires ThreadRing(group) && group[0] == father
    ensures reaper == FirstAlive(group[1..], childReaper)
    ensures reaper == childReaper || (reaper in group && reaper != father && !reaper.exiting)
    // In words: the first one behind father that is not exiting, or none is and it is the global one.
    ensures (reaper == childReaper && forall i :: 1 <= i < |group| ==> group[i].exiting)
            || exists j :: 1 <= j < |group| && reaper == group[j] && !group[j].exiting
                           && forall i :: 1 <= i < j ==> group[i].exiting
  {
    reaper := father;
    ghost var i := 0;
    while true
      invariant 0 <= i < |group| && reaper == group[i]
      invariant FirstAlive(group[1..], childReaper) == FirstAlive(group[i + 1..], childReaper)
      decreases |group| - i
    {
      assert NextThreadIs(group, i);
      reaper := reaper.nextThread;
      if !reaper.exiting {
        break;
      }
      if reaper == father {
        break;
      }
      i := i + 1;
      assert group[i..][0] == group[i] && group[i..][1..] == group[i + 1..];
    }
    if reaper == father {
      reaper := childReaper;
    }
    FirstAliveIs(group[1..], childReaper);
    assert forall i :: 1 <= i < |group| ==> group[i] == group[1..][i - 1];
  }

  // Who becomes the original parent of p.
  function Heir(p: Task, original: Task, father: Task, reaper: Task, childReaper: Task): Task {
    if original != father then original else if p == reaper then childReaper else reaper
  }

  method ForgetOriginalParent(father: Task, childReaper: Task, initTask: Task,
                              ghost ring: seq<Task>, ghost group: seq<Task>)
      returns (reaper: Task)
    requires TaskRing(ring) && ring[0] == initTask
    requires ThreadRing(group) && group[0] == father
    modifies ring`optr
    ensures reaper == old(FirstAlive(group[1..], childReaper))
    ensures reaper == childReaper || (reaper in group && reaper != father)
    ensures initTask.optr == old(initTask.optr)
    ensures forall i :: 1 <= i < |ring| ==>
              ring[i].optr == Heir(ring[i], old(ring[i].optr), father, reaper, childReaper)
    ensures childReaper != father ==> forall i :: 1 <= i < |ring| ==> ring[i].optr != father
    ensures forall i :: 1 <= i < |ring| ==>
              ring[i].optr == if old(ring[i].optr) != father then old(ring[i].optr)
                              else if ring[i] == reaper then childReaper else reaper
  {
    reaper := FindReaper(father, childReaper, group);
    assert NextIs(ring, 0);
    var p := initTask.next;
    ghost var k := 1;
    while p != initTask
      invariant 1 <= k <= |ring| && p == if k < |ring| then ring[k] else initTask
      invariant initTask.optr == old(initTask.optr)
      invariant forall i :: 1 <= i < k ==>
                  ring[i].optr == Heir(ring[i], old(ring[i].optr), father, reaper, childReaper)
      invariant forall i :: k <= i < |ring| ==> ring[i].optr == old(ring[i].optr)
      decreases |ring| - k
    {
      if p.optr == father {
        if p == reaper {
          p.optr := childReaper;
        } else {
          p.optr := reaper;
        }
      }
      assert NextIs(ring, k);
      p := p.next;
      k := k + 1;
    }
  }

  // ---- an exit, as far as the tree is concerned ------------------------------------------------------

  // The ring holds exactly the tasks of `all`.
  ghost predicate Members(all: set<Task>, ring: seq<Task>) {
    && (forall i :: 0 <= i < |ring| ==> ring[i] in all)
    && (forall t {:trigger Listed(ring, t)} :: t in all ==> Listed(ring, t))
  }

  ghost predicate Listed(ring: seq<Task>, t: Task) {
    t in ring
  }

  ghost predicate StaysIn(o: Parents, t: Task) {
    t in o && o[t] in o
  }

  ghost predicate Closed(o: Parents) {
    forall t {:trigger StaysIn(o, t)} :: t in o ==> StaysIn(o, t)
  }

  // t has kept its original parent, or got an heir instead of `father`.
  ghost predicate Inherits(o: Parents, o': Parents, t: Task, father: Task, reaper: Task, childReaper: Task) {
    && t in o && t in o' && o'[t] in o' && o'[t] != father
    && o'[t] == Heir(t, o[t], father, reaper, childReaper)
  }

  ghost predicate Inherited(all: set<Task>, initTask: Task, o: Parents, o': Parents,
                            father: Task, reaper: Task, childReaper: Task)
  {
    && o.Keys == o'.Keys == all
    && forall t {:trigger Inherits(o, o', t, father, reaper, childReaper)} :: t in all && t != initTask ==>
         Inherits(o, o', t, father, reaper, childReaper)
  }

  lemma RingInherits(all: set<Task>, ring: seq<Task>, initTask: Task, o: Parents, o': Parents,
                     father: Task, reaper: Task, childReaper: Task)
    requires o.Keys == o'.Keys == all && Closed(o) && Members(all, ring)
    requires ring != [] && ring[0] == initTask
    requires reaper in all && childReaper in all && reaper != father && childReaper != father
    requires forall i :: 1 <= i < |ring| ==> o'[ring[i]] == Heir(ring[i], o[ring[i]], father, reaper, childReaper)
    ensures Inherited(all, initTask, o, o', father, reaper, childReaper)
  {
    forall t | t in all && t != initTask
      ensures Inherits(o, o', t, father, reaper, childReaper)
    {
      assert Listed(ring, t);
      var i :| 0 <= i < |ring| && ring[i] == t;
      assert StaysIn(o, t);
    }
  }

  lemma ChildrenCanLeave(m: map<Task, Links>, all: set<Task>, initTask: Task, kids: Children, cur: Task,
                         o: Parents, o': Parents, reaper: Task, childReaper: Task)
    requires Tree(m, all - {initTask}, kids, null, null) && cur in m && m.Keys == all
    requires Inherited(all, initTask, o, o', cur, reaper, childReaper)
    ensures CanLeave(kids[cur], cur, all, o')
  {
    forall i | 0 <= i < |kids[cur]|
      ensures kids[cur][i] in all && o'[kids[cur][i]] in all && o'[kids[cur][i]] != cur
    {
      assert kids[cur][i] in kids[cur];
      assert kids[cur][i] in all - {initTask};
      assert Inherits(o, o', kids[cur][i], cur, reaper, childReaper);
    }
  }

  method Disinherit(cur: Task, childReaper: Task, initTask: Task, ghost ring: seq<Task>, ghost group: seq<Task>,
                    ghost all: set<Task>, ghost o: Parents)
      returns (reaper: Task, ghost o': Parents)
    requires TaskRing(ring) && ring[0] == initTask && ThreadRing(group) && group[0] == cur
    requires Members(all, ring) && forall t :: t in group ==> t in all
    requires childReaper in all && childReaper != cur && Originals(all, o) && Closed(o)
    modifies all`optr
    ensures reaper == old(FirstAlive(group[1..], childReaper))
    ensures Originals(all, o') && Inherited(all, initTask, o, o', cur, reaper, childReaper)
  {
    forall i | 0 <= i < |ring| ensures ring[i].optr == o[ring[i]] {
      assert Names(o, ring[i]);
    }
    reaper := ForgetOriginalParent(cur, childReaper, initTask, ring, group);
    o' := map t | t in all :: t.optr;
    RingInherits(all, ring, initTask, o, o', cur, reaper, childReaper);
  }

  // forget_original_parent leaves the exiting task's children free to go.
  method FreeChildren(cur: Task, childReaper: Task, initTask: Task, ghost ring: seq<Task>, ghost group: seq<Task>,
                      ghost all: set<Task>, ghost m: map<Task, Links>, ghost o: Parents, ghost kids: Children)
      returns (reaper: Task, ghost o': Parents)
    requires TaskRing(ring) && ring[0] == initTask && ThreadRing(group) && group[0] == cur
    requires Members(all, ring) && forall t :: t in group ==> t in all
    requires cur in all && childReaper in all && childReaper != cur
    requires Originals(all, o) && Closed(o)
    requires m.Keys == all && Tree(m, all - {initTask}, kids, null, null)
    modifies all`optr
    ensures reaper == old(FirstAlive(group[1..], childReaper))
    ensures Originals(all, o') && Inherited(all, initTask, o, o', cur, reaper, childReaper)
    ensures cur in kids && CanLeave(kids[cur], cur, all, o')
  {
    reaper, o' := Disinherit(cur, childReaper, initTask, ring, group, all, o);
    ChildrenCanLeave(m, all, initTask, kids, cur, o, o', reaper, childReaper);
  }

  method HandOver(cur: Task, childReaper: Task, initTask: Task, ghost ring: seq<Task>, ghost group: seq<Task>,
                  ghost all: set<Task>, ghost m: map<Task, Links>, ghost o: Parents, ghost kids: Children)
      returns (reaper: Task, ghost m': map<Task, Links>, ghost o': Parents, ghost kids': Children)
    requires TaskRing(ring) && ring[0] == initTask && ThreadRing(group) && group[0] == cur
    requires Members(all, ring) && forall t :: t in group ==> t in all
    requires cur in all && childReaper in all && childReaper != cur
    requires Originals(all, o) && Closed(o)
    requires View(all, m) && Tree(m, all - {initTask}, kids, null, null)
    modifies all`optr, all`cptr, all`ysptr, all`osptr, all`pptr
    ensures reaper == old(FirstAlive(group[1..], childReaper))
    ensures Originals(all, o') && Inherited(all, initTask, o, o', cur, reaper, childReaper)
    ensures View(all, m') && Tree(m', all - {initTask}, kids', null, null)
    ensures GivenAway(all, cur, o', kids, kids')
  {
    reaper, o' := FreeChildren(cur, childReaper, initTask, ring, group, all, m, o, kids);
    m', kids' := GiveAwayChildren(cur, all, m, all - {initTask}, o', kids);
  }

  /** cur exits: forget_original_parent, then the loop of exit_notify.  Its former children are
      adopted by their heirs, one entry each, in front of the heirs' own children; everything
      else keeps its place, and no task names cur as original parent any more. */
  method ExitTask(cur: Task, childReaper: Task, initTask: Task, ghost ring: seq<Task>, ghost group: seq<Task>,
                  ghost all: set<Task>, ghost m: map<Task, Links>, ghost o: Parents, ghost kids: Children)
      returns (reaper: Task, ghost m': map<Task, Links>, ghost o': Parents, ghost kids': Children)
    requires TaskRing(ring) && ring[0] == initTask && ThreadRing(group) && group[0] == cur
    requires Members(all, ring) && forall t :: t in group ==> t in all
    requires cur in all && childReaper in all && childReaper != cur
    requires Originals(all, o) && Closed(o)
    requires View(all, m) && Tree(m, all - {initTask}, kids, null, null)
    modifies all`optr, all`cptr, all`ysptr, all`osptr, all`pptr
    ensures reaper == old(FirstAlive(group[1..], childReaper))
    ensures Originals(all, o') && Inherited(all, initTask, o, o', cur, reaper, childReaper)
    ensures View(all, m') && Tree(m', all - {initTask}, kids', null, null)
    ensures GivenAway(all, cur, o', kids, kids')
    // In words: the task has no children; who had it as original parent has the reaper or, being that
    // itself, the global one; who was its child is the child of its original parent; all others stay.
    ensures cur.cptr == null
    ensures forall t :: t in all && t != initTask ==>
              t.optr == if old(t.optr) != cur then old(t.optr) else if t == reaper then childReaper else reaper
    ensures forall t :: t in all && t != initTask ==>
              t.pptr == if old(t.pptr) == cur then t.optr else old(t.pptr)
  {
    SeenLinks(all, m);
    SeenParents(all, o);
    reaper, m', o', kids' := HandOver(cur, childReaper, initTask, ring, group, all, m, o, kids);
    TreeInWords(all, m', all - {initTask}, kids', cur);
    SeenLinks(all, m');
    SeenParents(all, o');
    AllAfter(all, initTask, m, m', o, o', cur, reaper, childReaper, kids, kids');
  }

  // The fields behind the values.
  lemma SeenParents(all: set<Task>, o: Parents)
    requires Originals(all, o)
    ensures forall t :: t in all ==> t in o && o[t] == t.optr
  {
    forall t | t in all ensures t in o && o[t] == t.optr {
      assert Names(o, t);
    }
  }

  lemma SeenLinks(all: set<Task>, m: map<Task, Links>)
    requires View(all, m)
    ensures forall t :: t in all ==> t in m && m[t].pptr == t.pptr
  {
    forall t | t in all ensures t in m && m[t].pptr == t.pptr {
      assert Shows(m, t);
    }
  }

  lemma AllAfter(all: set<Task>, initTask: Task, m: map<Task, Links>, m': map<Task, Links>, o: Parents, o': Parents,
                 cur: Task, reaper: Task, childReaper: Task, kids: Children, kids': Children)
    requires m.Keys == m'.Keys == all && Tree(m, all - {initTask}, kids, null, null)
    requires Tree(m', all - {initTask}, kids', null, null)
    requires GivenAway(all, cur, o', kids, kids') && Inherited(all, initTask, o, o', cur, reaper, childReaper)
    ensures forall t :: t in all && t != initTask ==>
              && t in o && t in o' && t in m && t in m'
              && o'[t] == (if o[t] != cur then o[t] else if t == reaper then childReaper else reaper)
              && m'[t].pptr == if m[t].pptr == cur then o'[t] else m[t].pptr
  {
    forall t | t in all && t != initTask
      ensures t in o && t in o' && t in m && t in m'
      ensures o'[t] == (if o[t] != cur then o[t] else if t == reaper then childReaper else reaper)
      ensures m'[t].pptr == if m[t].pptr == cur then o'[t] else m[t].pptr
    {
      assert Inherits(o, o', t, cur, reaper, childReaper);
      ParentAfter(all, m, m', all - {initTask}, o', cur, kids, kids', t);
    }
  }
}
