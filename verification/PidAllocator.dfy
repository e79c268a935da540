/** get_pid: process ids handed out in cyclic order, with a cached gap of ids known to be free
    that lets most calls skip the scan of the task list. */
module PidAllocator {

  const PID_MAX: int := 0x8000
  const FIRST: int := 300       // ids below are not reused

  // The four ids of a task; none may be given to a new process.
  datatype Ids = Ids(pid: int, pgrp: int, tgid: int, session: int)

  predicate Uses(t: Ids, v: int) {
    t.pid == v || t.pgrp == v || t.tgid == v || t.session == v
  }

  ghost predicate InUse(tasks: seq<Ids>, v: int) {
    exists i :: 0 <= i < |tasks| && Uses(tasks[i], v)
  }

  // The ids of all four kinds.
  ghost function IdsOfAll(tasks: seq<Ids>): (r: set<int>)
    ensures forall i :: 0 <= i < |tasks| ==>
              tasks[i].pid in r && tasks[i].pgrp in r && tasks[i].tgid in r && tasks[i].session in r
    ensures forall v :: v in r ==>
              exists i :: 0 <= i < |tasks| && v in {tasks[i].pid, tasks[i].pgrp, tasks[i].tgid, tasks[i].session}
  {
    (set i | 0 <= i < |tasks| :: tasks[i].pid) + (set i | 0 <= i < |tasks| :: tasks[i].pgrp) +
    (set i | 0 <= i < |tasks| :: tasks[i].tgid) + (set i | 0 <= i < |tasks| :: tasks[i].session)
  }

  // No id strictly between lastPid and nextSafe is in use.
  ghost predicate Gap(tasks: seq<Ids>, lastPid: int, nextSafe: int) {
    forall v :: lastPid < v < nextSafe ==> !InUse(tasks, v)
  }

  // Every id from a up to b, b excluded, is in use.
  ghost predicate AllUsed(tasks: seq<Ids>, a: int, b: int) {
    forall v :: a <= v < b ==> InUse(tasks, v)
  }

  // Every id passed on the way from `begin` to v, in the order of allocation, is in use.
  ghost predicate AllUsedBetween(tasks: seq<Ids>, begin: int, v: int) {
    if begin < v then AllUsed(tasks, begin + 1, v)
    else AllUsed(tasks, begin + 1, PID_MAX) && AllUsed(tasks, FIRST, v)
  }

  ghost predicate AllOthersUsed(tasks: seq<Ids>, begin: int) {
    forall v :: FIRST <= v < PID_MAX && v != begin ==> InUse(tasks, v)
  }

  // What a successful call promises.
  ghost predicate Granted(tasks: seq<Ids>, begin: int, pid: int, lastPid: int, nextSafe: int) {
    && pid == lastPid && 0 < pid < PID_MAX && pid != begin && pid < nextSafe <= PID_MAX
    && (begin < pid || FIRST <= pid)
    && !InUse(tasks, pid) && AllUsedBetween(tasks, begin, pid)
    && Gap(tasks, lastPid, nextSafe)
  }

  // The scan ends: it can meet its own starting point again, or a free id after it.
  ghost predicate Ends(tasks: seq<Ids>, lastPid: int) {
    FIRST <= lastPid || exists v :: lastPid < v < PID_MAX && !InUse(tasks, v)
  }

  // Steps of ++last_pid, with the wrap, from v to a target of at least FIRST.
  function Distance(v: int, target: int): int {
    if v <= target then target - v else (PID_MAX - v) + (target - FIRST)
  }

  // The ids of each task are the same, in increasing order along the list.
  ghost predicate Increasing(tasks: seq<Ids>) {
    && (forall i :: 0 <= i < |tasks| ==> tasks[i] == Ids(tasks[i].pid, tasks[i].pid, tasks[i].pid, tasks[i].pid))
    && (forall i, j :: 0 <= i < j < |tasks| ==> tasks[i].pid < tasks[j].pid)
  }

  function Narrow(nextSafe: int, lastPid: int, id: int): (n: int)
    ensures lastPid < nextSafe ==> lastPid < n <= nextSafe
    ensures lastPid < id ==> n <= id
    ensures n == nextSafe || n == id
  {
    if id > lastPid && nextSafe > id then id else nextSafe
  }

  // v is a candidate with all ids but b taken, each by one task, in increasing order.
  ghost predicate Crowded(tasks: seq<Ids>, b: int, v: int) {
    FIRST <= b && FIRST <= v && v != b && AllOthersUsed(tasks, b) && Increasing(tasks)
  }

  // What a successful call does to the cached state: a step inside the gap, or a scan.
  ghost predicate Answered(tasks: seq<Ids>, lastPid: int, nextSafe: int, lastPid': int, nextSafe': int) {
    if lastPid + 1 < nextSafe then lastPid' == lastPid + 1 && nextSafe' == nextSafe
    else Granted(tasks, lastPid, lastPid', lastPid', nextSafe')
  }

  // What a failing call does.
  ghost predicate Failed(tasks: seq<Ids>, lastPid: int, nextSafe: int, lastPid': int, nextSafe': int) {
    && nextSafe <= lastPid + 1 && FIRST <= lastPid && lastPid' == lastPid < nextSafe' <= PID_MAX
    && AllOthersUsed(tasks, lastPid)
  }

  class Allocator {
    var lastPid: int
    var nextSafe: int

    ghost predicate InRange()
      reads this
    {
      0 <= lastPid < PID_MAX && nextSafe <= PID_MAX
    }

    constructor ()
      ensures InRange() && lastPid == 0 && nextSafe == PID_MAX
    {
      lastPid, nextSafe := 0, PID_MAX;
    }

    // One pass over the tasks: it breaks off at the first one that uses lastPid, and otherwise
    // leaves nextSafe at or below every larger id in use.
    method Pass(tasks: seq<Ids>) returns (clash: bool)
      requires 0 < lastPid < nextSafe <= PID_MAX
      modifies this`nextSafe
      ensures clash == InUse(tasks, lastPid) && lastPid < nextSafe <= old(nextSafe)
      ensures !clash ==> Gap(tasks, lastPid, nextSafe)
      ensures forall b :: Crowded(tasks, b, lastPid) ==> nextSafe == old(nextSafe)
    {
      var i := 0;
      while i < |tasks|
        invariant 0 <= i <= |tasks| && lastPid < nextSafe <= old(nextSafe)
        invariant forall j :: 0 <= j < i ==> !Uses(tasks[j], lastPid)
        invariant forall j, v :: 0 <= j < i && Uses(tasks[j], v) && lastPid < v ==> nextSafe <= v
        invariant forall b :: Crowded(tasks, b, lastPid) ==> nextSafe == old(nextSafe)
      {
        var p := tasks[i];
        if Uses(p, lastPid) {
          return true;
        }
        NoneAbove(tasks, lastPid, i);
        nextSafe := Narrow(nextSafe, lastPid, p.pid);
        nextSafe := Narrow(nextSafe, lastPid, p.pgrp);
        nextSafe := Narrow(nextSafe, lastPid, p.tgid);
        nextSafe := Narrow(nextSafe, lastPid, p.session);
        i := i + 1;
      }
      return false;
    }

    /** One round: a free candidate is kept, one in use gives way to its successor. */
    method Round(tasks: seq<Ids>) returns (clash: bool)
      requires 0 < lastPid < nextSafe <= PID_MAX
      modifies this
      ensures 0 < lastPid < nextSafe <= PID_MAX && clash == InUse(tasks, old(lastPid))
      ensures lastPid == if clash then Successor(old(lastPid)) else old(lastPid)
      ensures !clash ==> Gap(tasks, lastPid, nextSafe)
      ensures old(nextSafe) == PID_MAX ==> forall b :: Crowded(tasks, b, old(lastPid)) ==> nextSafe == PID_MAX
    {
      clash := Pass(tasks);
      if clash {
        lastPid := lastPid + 1;
        if lastPid >= nextSafe {
          if lastPid >= PID_MAX {
            lastPid := FIRST;
          }
          nextSafe := PID_MAX;
        }
      }
    }

    /** The restarting scan.  lastPid is the candidate; every id tried before it is in use. */
    method Scan(tasks: seq<Ids>, begin: int) returns (found: bool)
      requires 0 <= begin < PID_MAX && Ends(tasks, begin)
      requires 0 < lastPid < PID_MAX && lastPid != begin && AllUsedBetween(tasks, begin, lastPid)
      requires begin < lastPid || FIRST <= lastPid
      modifies this
      ensures found ==> Granted(tasks, begin, lastPid, lastPid, nextSafe)
      // In other words: no task has it as any of its ids, and every id passed over is one of some task.
      ensures found ==>
                && (forall i :: 0 <= i < |tasks| ==> lastPid != tasks[i].pid && lastPid != tasks[i].pgrp
                                                     && lastPid != tasks[i].tgid && lastPid != tasks[i].session)
                && if begin < lastPid then forall v :: begin < v < lastPid ==> v in IdsOfAll(tasks)
                   else (forall v :: begin < v < 0x8000 ==> v in IdsOfAll(tasks))
                        && (forall v :: 300 <= v < lastPid ==> v in IdsOfAll(tasks))
      ensures !found ==> forall v :: 300 <= v < 0x8000 && v != begin ==> v in IdsOfAll(tasks)
      ensures !found ==> FIRST <= begin == lastPid && lastPid < nextSafe <= PID_MAX && AllOthersUsed(tasks, begin)
      ensures FIRST <= begin && AllOthersUsed(tasks, begin) && Increasing(tasks) ==> !found && nextSafe == PID_MAX
    {
      ghost var target := if FIRST <= begin then begin else Free(tasks, begin);
      nextSafe := PID_MAX;
      while true
        invariant 0 < lastPid < nextSafe <= PID_MAX && lastPid != begin
        invariant begin < lastPid || FIRST <= lastPid
        invariant AllUsedBetween(tasks, begin, lastPid)
        invariant FIRST <= begin && AllOthersUsed(tasks, begin) && Increasing(tasks) ==> nextSafe == PID_MAX
        decreases Distance(lastPid, target)
      {
        assert FIRST <= begin && AllOthersUsed(tasks, begin) && Increasing(tasks) ==> Crowded(tasks, begin, lastPid);
        var clash := Round(tasks);
        if !clash {
          GrantInWords(tasks, begin, lastPid, nextSafe);
          return true;
        }
        if lastPid == begin {
          FailureInWords(tasks, begin);
          return false;
        }
      }
    }

    /** For a non-negative number, a bit of 0xffff8000 is set exactly when it reaches PID_MAX. */
    method GetPid(tasks: seq<Ids>, clonePid: bool, currentPid: int) returns (pid: int)
      requires InRange() && (clonePid || lastPid + 1 < nextSafe || Ends(tasks, lastPid))
      modifies this
      ensures InRange()
      ensures clonePid ==> pid == currentPid && lastPid == old(lastPid) && nextSafe == old(nextSafe)
      ensures !clonePid ==> (pid == 0 || pid == lastPid)
      // In words: an id granted with a true gap is none of the four ids of any task, and those passed
      // over are ids of some task; a call fails when all others are.
      ensures !clonePid && old(Gap(tasks, lastPid, nextSafe)) && pid != 0 ==>
                && 0 < pid < 0x8000
                && (forall i :: 0 <= i < |tasks| ==> pid != tasks[i].pid && pid != tasks[i].pgrp
                                                     && pid != tasks[i].tgid && pid != tasks[i].session)
                && if old(lastPid) < pid then forall v :: old(lastPid) < v < pid ==> v in IdsOfAll(tasks)
                   else (forall v :: old(lastPid) < v < 0x8000 ==> v in IdsOfAll(tasks))
                        && (forall v :: 300 <= v < pid ==> v in IdsOfAll(tasks))
      ensures !clonePid && pid == 0 ==> forall v :: 300 <= v < 0x8000 && v != old(lastPid) ==> v in IdsOfAll(tasks)
      // With a true gap the answer is the next free id, or 0 when there is none.
      ensures !clonePid && old(Gap(tasks, lastPid, nextSafe)) && pid != 0 ==>
                Granted(tasks, old(lastPid), pid, lastPid, nextSafe)
      ensures !clonePid && pid != 0 ==> Answered(tasks, old(lastPid), old(nextSafe), lastPid, nextSafe)
      ensures !clonePid && pid == 0 ==> Failed(tasks, old(lastPid), old(nextSafe), lastPid, nextSafe)
      // A call with room in the gap does not fail; one on a full list does.
      ensures !clonePid && old(lastPid) + 1 < old(nextSafe) ==> pid != 0
      ensures !clonePid && old(nextSafe) <= old(lastPid) + 1 && FIRST <= old(lastPid) &&
              AllOthersUsed(tasks, old(lastPid)) && Increasing(tasks) ==>
                pid == 0 && nextSafe == PID_MAX
    {
      if clonePid {
        return currentPid;
      }
      var begin := lastPid;
      var scan;
      lastPid := lastPid + 1;
      if lastPid >= PID_MAX {
        lastPid := FIRST;
        scan := true;
      } else {
        scan := lastPid >= nextSafe;
      }
      if scan {
        var found := Scan(tasks, begin);
        if !found {
          return 0;
        }
      }
      if Gap(tasks, begin, old(nextSafe)) {
        GrantInWords(tasks, begin, lastPid, nextSafe);
      }
      return lastPid;
    }
  }

  /** A granted id, spelt out: none of the four ids of any task, and every id between the previous one
      and it, in the order of allocation, is one of the four of some task. */
  lemma GrantInWords(tasks: seq<Ids>, begin: int, pid: int, nextSafe: int)
    requires Granted(tasks, begin, pid, pid, nextSafe)
    ensures 0 < pid < 0x8000 && (begin < pid || 300 <= pid)
    ensures forall i :: 0 <= i < |tasks| ==>
              pid != tasks[i].pid && pid != tasks[i].pgrp && pid != tasks[i].tgid && pid != tasks[i].session
    ensures if begin < pid then forall v :: begin < v < pid ==> v in IdsOfAll(tasks)
            else (forall v :: begin < v < 0x8000 ==> v in IdsOfAll(tasks))
                 && (forall v :: 300 <= v < pid ==> v in IdsOfAll(tasks))
  {
    forall i | 0 <= i < |tasks|
      ensures pid != tasks[i].pid && pid != tasks[i].pgrp && pid != tasks[i].tgid && pid != tasks[i].session
    {
      assert !Uses(tasks[i], pid);
    }
    forall v | v !in IdsOfAll(tasks) ensures !InUse(tasks, v) {
      NotInUse(tasks, v);
    }
  }

  lemma NotInUse(tasks: seq<Ids>, v: int)
    ensures v in IdsOfAll(tasks) <==> InUse(tasks, v)
  {
    if v in IdsOfAll(tasks) {
      var i :| 0 <= i < |tasks| && v in {tasks[i].pid, tasks[i].pgrp, tasks[i].tgid, tasks[i].session};
      assert Uses(tasks[i], v);
    }
  }

  lemma FailureInWords(tasks: seq<Ids>, begin: int)
    requires AllOthersUsed(tasks, begin)
    ensures forall v :: 300 <= v < 0x8000 && v != begin ==> v in IdsOfAll(tasks)
  {
    forall v | 300 <= v < 0x8000 && v != begin ensures v in IdsOfAll(tasks) {
      NotInUse(tasks, v);
    }
  }

  ghost function Free(tasks: seq<Ids>, begin: int): int
    requires exists v :: begin < v < PID_MAX && !InUse(tasks, v)
  {
    var v :| begin < v < PID_MAX && !InUse(tasks, v); v
  }

  // ++last_pid, with the wrap.
  function Successor(v: int): int {
    if v + 1 >= PID_MAX then FIRST else v + 1
  }

  // The candidate of the n-th round when every candidate before is in use.
  function Candidate(begin: int, n: nat): int {
    Successor(if n == 0 then begin else Candidate(begin, n - 1))
  }

  /** Without the condition of Scan its rounds would go on forever: every candidate is in use and
      none is the starting point. */
  lemma {:induction false} ScanForever(tasks: seq<Ids>, begin: int, n: nat)
    requires 0 <= begin && !Ends(tasks, begin)
    ensures begin < Candidate(begin, n) < PID_MAX && InUse(tasks, Candidate(begin, n))
  {
    if 0 < n {
      ScanForever(tasks, begin, n - 1);
    }
  }

  // In an increasing list the candidate, being in use, comes before every larger id.
  lemma NoneAbove(tasks: seq<Ids>, v: int, i: nat)
    requires i < |tasks| && v < PID_MAX
    requires forall j :: 0 <= j <= i ==> !Uses(tasks[j], v)
    ensures forall b :: Crowded(tasks, b, v) ==> tasks[i].pid < v
  {
    forall b | Crowded(tasks, b, v)
      ensures tasks[i].pid < v
    {
      assert InUse(tasks, v);
      var k :| 0 <= k < |tasks| && Uses(tasks[k], v);
      assert tasks[k].pid == v && i < k;
    }
  }

  // ---- what the contract of a call amounts to ---------------------------------------------------

  /** The id granted is the first free one in the order of allocation, so it does not depend
      on the cached gap: the call that skips the scan and the call that scans agree. */
  lemma GrantIsUnique(tasks: seq<Ids>, begin: int, p: int, next: int, q: int, next': int)
    requires 0 <= begin
    requires Granted(tasks, begin, p, p, next) && Granted(tasks, begin, q, q, next')
    ensures p == q
  {
    assert !InUse(tasks, p) && !InUse(tasks, q);
  }

  // A call fails exactly when every id but the last one granted is taken.
  lemma GrantExcludesFailure(tasks: seq<Ids>, begin: int, p: int, next: int)
    requires FIRST <= begin && Granted(tasks, begin, p, p, next)
    ensures !AllOthersUsed(tasks, begin)
  {
    assert !InUse(tasks, p);
  }

  // ---- runs of fork, exit, setsid and setpgid --------------------------------------------------

  // The first task of all is not in the list; its ids are zero.
  datatype Parent = Swapper | Member(i: nat)

  datatype Event =
    | Fork(parent: Parent, thread: bool)   // a new task; a thread keeps its parent's group of threads
    | Fail                                 // a call that returns 0
    | Exit(i: nat)
    | SetSid(i: nat)
    | SetPgid(i: nat, leader: nat)         // joins the group of another task, or its own

  datatype System = System(tasks: seq<Ids>, lastPid: int, nextSafe: int)

  function IdsOf(tasks: seq<Ids>, p: Parent): Ids
    requires p.Member? ==> p.i < |tasks|
  {
    if p.Swapper? then Ids(0, 0, 0, 0) else tasks[p.i]
  }

  // The ids of a new task, as do_fork fills them in.
  function Child(parent: Ids, pid: int, thread: bool): Ids {
    Ids(pid, parent.pgrp, if thread then parent.tgid else pid, parent.session)
  }

  // s -> s' by one event; a fork is one successful call of get_pid and the linking of the task.
  ghost predicate Happens(s: System, e: Event, s': System) {
    match e
    case Fork(parent, thread) =>
      && (parent.Member? ==> parent.i < |s.tasks|)
      && Answered(s.tasks, s.lastPid, s.nextSafe, s'.lastPid, s'.nextSafe)
      && s'.tasks == s.tasks + [Child(IdsOf(s.tasks, parent), s'.lastPid, thread)]
    case Fail =>
      s'.tasks == s.tasks && Failed(s.tasks, s.lastPid, s.nextSafe, s'.lastPid, s'.nextSafe)
    case Exit(i) =>
      i < |s.tasks| && s' == s.(tasks := s.tasks[..i] + s.tasks[i + 1..])
    case SetSid(i) =>
      i < |s.tasks| && s' == s.(tasks := s.tasks[i := s.tasks[i].(pgrp := s.tasks[i].pid, session := s.tasks[i].pid)])
    case SetPgid(i, leader) =>
      && i < |s.tasks| && leader < |s.tasks|
      && (s' == s.(tasks := s.tasks[i := s.tasks[i].(pgrp := s.tasks[i].pid)])
          || s' == s.(tasks := s.tasks[i := s.tasks[i].(pgrp := s.tasks[leader].pgrp)]))
  }

  ghost predicate InBounds(s: System) {
    0 <= s.lastPid < PID_MAX && s.nextSafe <= PID_MAX
  }

  ghost predicate Good(s: System) {
    Gap(s.tasks, s.lastPid, s.nextSafe) && InBounds(s)
  }

  // Only ids that were in use before, the one just granted, or 0 are in use afterwards.
  lemma NoNewIds(s: System, e: Event, s': System, v: int)
    requires Happens(s, e, s') && InUse(s'.tasks, v) && v != 0
    ensures InUse(s.tasks, v) || (e.Fork? && v == s'.lastPid)
  {
    var k :| 0 <= k < |s'.tasks| && Uses(s'.tasks[k], v);
    match e
    case Fork(parent, _) =>
      if k < |s.tasks| {
        assert Uses(s.tasks[k], v);
      } else if parent.Member? {
        assert Uses(s.tasks[parent.i], v) || v == s'.lastPid;
      }
    case Fail => assert Uses(s.tasks[k], v);
    case Exit(i) => assert Uses(s.tasks[if k < i then k else k + 1], v);
    case SetSid(i) => assert Uses(s.tasks[k], v);
    case SetPgid(i, leader) => assert Uses(s.tasks[k], v) || Uses(s.tasks[leader], v);
  }

  lemma EventKeepsGap(s: System, e: Event, s': System)
    requires Good(s) && Happens(s, e, s') && !e.Fail?
    ensures Good(s')
  {
    forall v | s'.lastPid < v < s'.nextSafe
      ensures !InUse(s'.tasks, v)
    {
      if InUse(s'.tasks, v) {
        NoNewIds(s, e, s', v);
      }
    }
  }

  ghost predicate History(events: seq<Event>, states: seq<System>) {
    && |states| == |events| + 1
    && forall k :: 0 <= k < |events| ==> Happens(states[k], events[k], states[k + 1])
  }

  // A failing call has left a bound that is too large, and no call has scanned since.
  ghost predicate Spoilt(events: seq<Event>, states: seq<System>, k: nat)
    requires k <= |events| && k < |states|
  {
    k > 0 &&
    match events[k - 1]
    case Fail => states[k].nextSafe != states[k].lastPid + 1
    case Fork(_, _) => states[k - 1].lastPid + 1 < states[k - 1].nextSafe && Spoilt(events, states, k - 1)
    case _ => Spoilt(events, states, k - 1)
  }

  // A call that scans makes the gap true, whatever it was.
  lemma ScanRestoresGap(s: System, e: Event, s': System)
    requires InBounds(s) && Happens(s, e, s') && e.Fork? && s.nextSafe <= s.lastPid + 1
    ensures Good(s')
  {
    forall v | s'.lastPid < v < s'.nextSafe
      ensures !InUse(s'.tasks, v)
    {
      if InUse(s'.tasks, v) {
        NoNewIds(s, e, s', v);
      }
    }
  }

  lemma StaysInBounds(s: System, e: Event, s': System)
    requires InBounds(s) && Happens(s, e, s')
    ensures InBounds(s')
  {
  }

  /** Over any history of forks, exits and changes of group and session, failing calls included,
      the gap is true unless a failing call has spoilt it and no call has scanned since. */
  lemma {:induction false} GapAlways(events: seq<Event>, states: seq<System>, k: nat)
    requires History(events, states) && Good(states[0]) && k < |states|
    ensures InBounds(states[k]) && (!Spoilt(events, states, k) ==> Good(states[k]))
  {
    if 0 < k {
      GapAlways(events, states, k - 1);
      var s, e, s' := states[k - 1], events[k - 1], states[k];
      assert Happens(s, e, states[k - 1 + 1]);
      StaysInBounds(s, e, s');
      if e.Fail? {
        AfterFailure(s'.tasks, s'.lastPid, s'.nextSafe);
      } else if e.Fork? && s.nextSafe <= s.lastPid + 1 {
        ScanRestoresGap(s, e, s');
      } else if !Spoilt(events, states, k - 1) {
        EventKeepsGap(s, e, s');
      }
    }
  }

  /** So a call that finds room in a gap that is not spoilt may skip the scan. */
  lemma FastPathIsFree(events: seq<Event>, states: seq<System>, k: nat)
    requires History(events, states) && Good(states[0]) && k < |states| && !Spoilt(events, states, k)
    requires states[k].lastPid + 1 < states[k].nextSafe
    ensures var s := states[k]; Granted(s.tasks, s.lastPid, s.lastPid + 1, s.lastPid + 1, s.nextSafe)
  {
    GapAlways(events, states, k);
  }

  /** Every id handed out on such a history, with a gap that is not spoilt, is new: no task there has
      it as pid, group, thread group or session. */
  lemma ForkGetsNewId(events: seq<Event>, states: seq<System>, k: nat)
    requires History(events, states) && Good(states[0]) && k < |events| && events[k].Fork?
    requires !Spoilt(events, states, k) || states[k].nextSafe <= states[k].lastPid + 1
    ensures forall i :: 0 <= i < |states[k].tasks| ==>
              var t := states[k].tasks[i];
              states[k + 1].lastPid !in {t.pid, t.pgrp, t.tgid, t.session}
    ensures |states[k + 1].tasks| == |states[k].tasks| + 1
    ensures states[k + 1].tasks[|states[k].tasks|].pid == states[k + 1].lastPid
  {
    var s, s' := states[k], states[k + 1];
    assert Happens(s, events[k], s');
    if s.lastPid + 1 < s.nextSafe {
      FastPathIsFree(events, states, k);
    }
    GrantInWords(s.tasks, s.lastPid, s'.lastPid, s'.nextSafe);
  }

  // A new task is in its parent's group and session, and as a thread in its thread group.
  lemma ForkJoins(s: System, i: nat, thread: bool, s': System)
    requires Happens(s, Fork(Member(i), thread), s')
    ensures i < |s.tasks| && |s'.tasks| == |s.tasks| + 1
    ensures var p, t := s.tasks[i], s'.tasks[|s.tasks|];
            t.pgrp == p.pgrp && t.session == p.session && t.tgid == if thread then p.tgid else t.pid
  {
  }

  lemma PidsStayDifferent(s: System, e: Event, s': System)
    requires Happens(s, e, s') && forall i, j :: 0 <= i < j < |s.tasks| ==> s.tasks[i].pid != s.tasks[j].pid
    requires e.Fork? ==> forall i :: 0 <= i < |s.tasks| ==> s.tasks[i].pid != s'.lastPid
    ensures forall i, j :: 0 <= i < j < |s'.tasks| ==> s'.tasks[i].pid != s'.tasks[j].pid
  {
    if e.Exit? {
      forall i, j | 0 <= i < j < |s'.tasks| ensures s'.tasks[i].pid != s'.tasks[j].pid {
        assert s'.tasks[i] == s.tasks[if i < e.i then i else i + 1];
        assert s'.tasks[j] == s.tasks[if j < e.i then j else j + 1];
      }
    }
  }

  /** So all tasks have different pids, in every state of a history from boot in which no id is
      handed out from a spoilt gap. */
  lemma {:induction false} PidsDiffer(events: seq<Event>, states: seq<System>, k: nat)
    requires History(events, states) && Boot(states[0]) && k < |states|
    requires forall l :: 0 <= l < k && events[l].Fork? ==>
               !Spoilt(events, states, l) || states[l].nextSafe <= states[l].lastPid + 1
    ensures forall i, j :: 0 <= i < j < |states[k].tasks| ==> states[k].tasks[i].pid != states[k].tasks[j].pid
  {
    if k > 0 {
      PidsDiffer(events, states, k - 1);
      assert Happens(states[k - 1], events[k - 1], states[k - 1 + 1]);
      if events[k - 1].Fork? {
        ForkGetsNewId(events, states, k - 1);
      }
      PidsStayDifferent(states[k - 1], events[k - 1], states[k]);
    }
  }

  // ---- from boot on ---------------------------------------------------------------------------

  ghost predicate Boot(s: System) {
    s == System([], 0, PID_MAX)
  }

  // Before the first wrap no id above the last one granted has been handed out; after it the
  // last one is never below FIRST.
  ghost predicate Unreached(s: System) {
    InBounds(s) && (s.lastPid < FIRST ==> forall v :: s.lastPid < v < PID_MAX ==> !InUse(s.tasks, v))
  }

  lemma EventKeepsUnreached(s: System, e: Event, s': System)
    requires Unreached(s) && Happens(s, e, s')
    ensures Unreached(s')
  {
    if s'.lastPid < FIRST {
      forall v | s'.lastPid < v < PID_MAX
        ensures !InUse(s'.tasks, v)
      {
        if InUse(s'.tasks, v) {
          NoNewIds(s, e, s', v);
        }
      }
    }
  }

  /** In every state of every history from boot, failing calls included, the scan of the next call
      ends: it returns to its starting point, or the next id is free. */
  lemma {:induction false} ScanAlwaysEnds(events: seq<Event>, states: seq<System>, k: nat)
    requires History(events, states) && Boot(states[0]) && k < |states|
    ensures Unreached(states[k]) && Ends(states[k].tasks, states[k].lastPid)
  {
    if 0 < k {
      ScanAlwaysEnds(events, states, k - 1);
      assert Happens(states[k - 1], events[k - 1], states[k - 1 + 1]);
      EventKeepsUnreached(states[k - 1], events[k - 1], states[k]);
    } else {
      assert !InUse(states[0].tasks, 1);
    }
    if states[k].lastPid < FIRST {
      assert !InUse(states[k].tasks, states[k].lastPid + 1);
    }
  }

  // ---- the failing path -------------------------------------------------------------------------

  /** A failed call leaves all other ids in use.  If its cached bound leaves room after lastPid,
      the next call hands out an id in use; if not, the gap is (trivially) true again. */
  lemma AfterFailure(tasks: seq<Ids>, lastPid: int, nextSafe: int)
    requires FIRST <= lastPid < nextSafe <= PID_MAX && AllOthersUsed(tasks, lastPid)
    ensures lastPid + 1 < nextSafe ==> InUse(tasks, lastPid + 1)
    ensures Gap(tasks, lastPid, nextSafe) <==> nextSafe == lastPid + 1
  {
    if lastPid + 1 < nextSafe {
      assert InUse(tasks, lastPid + 1);
    }
  }

  // Every id but 1000 is taken, in the order of the first round of allocation; 1000 was granted
  // last, in the second round, to a task that has exited.
  function FullList(): (tasks: seq<Ids>)
    ensures |tasks| == PID_MAX - 2
    ensures forall i :: 0 <= i < PID_MAX - 2 ==> var v := if i < 999 then i + 1 else i + 2; tasks[i] == Ids(v, v, v, v)
  {
    seq(PID_MAX - 2, i requires 0 <= i => var v := if i < 999 then i + 1 else i + 2; Ids(v, v, v, v))
  }

  /** The first call fails; the second hands out an id in use. */
  method DuplicateAfterFailure() returns (tasks: seq<Ids>, first: int, second: int)
    ensures first == 0 && second != 0 && exists i :: 0 <= i < |tasks| && tasks[i].pid == second
  {
    tasks := FullList();
    var a := new Allocator();
    a.lastPid, a.nextSafe := 1000, 1001;
    forall v | 0 < v < PID_MAX && v != 1000 ensures InUse(tasks, v) {
      assert Uses(tasks[if v < 1000 then v - 1 else v - 2], v);
    }
    first := a.GetPid(tasks, false, 0);
    second := a.GetPid(tasks, false, 0);
    assert second == 1001 == tasks[999].pid;
  }
}
