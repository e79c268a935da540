/** The life of a SHORT task: whatever calls concern it, it is SHORT for as many ticks as it had
    time. */
module ShortLife {
  import opened RunQueues
  import opened SchedMath
  import opened SchedPolicy

  // What can happen to a task's fields, by the contracts of the calls.
  datatype Happening =
    | Tick                                                    // while it is current
    | Nice(nice: int)
    | Policy(to: int, lp: Param, capable: bool, owner: bool, queued: bool, slept: int)
    | Wake(slept: int)
    | Yield(prio: int)                                        // the prio it has afterwards
    | Other                                                   // schedule, balancing, calls about other tasks

  function Affected(f: Fields, h: Happening, hz: Hz): Fields {
    match h
    case Tick => Ticked(f, hz)
    case Nice(n) => Niced(f, n)
    case Policy(to, lp, capable, owner, queued, slept) =>
      if Allowed(f.policy, to, lp, capable, owner) then Reassigned(f, to, lp, queued, slept, hz) else f
    case Wake(slept) => Slept(f, slept, hz)
    case Yield(prio) => if f.policy == SCHED_OTHER then f.(prio := prio) else f
    case Other => f
  }

  function Lived(f: Fields, hs: seq<Happening>, hz: Hz): Fields {
    if hs == [] then f else Affected(Lived(f, hs[..|hs| - 1], hz), hs[|hs| - 1], hz)
  }

  function TickCount(hs: seq<Happening>): nat {
    if hs == [] then 0 else TickCount(hs[..|hs| - 1]) + if hs[|hs| - 1].Tick? then 1 else 0
  }

  // Nothing but a tick changes a SHORT task.
  lemma OnlyTicksCount(f: Fields, h: Happening, hz: Hz)
    requires f.policy == SCHED_SHORT && !h.Tick?
    ensures Affected(f, h, hz) == f
  {
  }

  /** After fewer ticks than it had time a SHORT task is SHORT, with the rest of its time and all
      else as it was; the tick that uses up the last of it makes it SCHED_OTHER, as Demotion says. */
  lemma {:induction false} ShortForItsTime(f: Fields, hs: seq<Happening>, hz: Hz)
    requires Sound(f, hz) && f.policy == SCHED_SHORT
    ensures TickCount(hs) < f.timeLeft ==> Lived(f, hs, hz) == f.(timeLeft := f.timeLeft - TickCount(hs))
    ensures TickCount(hs) == f.timeLeft && hs[|hs| - 1].Tick? ==>
              Lived(f, hs, hz) == Ticked(f.(timeLeft := 1), hz) && Lived(f, hs, hz).policy == SCHED_OTHER
  {
    if hs != [] {
      var rest, h := hs[..|hs| - 1], hs[|hs| - 1];
      ShortForItsTime(f, rest, hz);
      if TickCount(rest) < f.timeLeft {
        if h.Tick? {
          Demotion(f.(timeLeft := 1), hz);
        } else {
          OnlyTicksCount(Lived(f, rest, hz), h, hz);
        }
      }
    }
  }

  /** Every happening that the calls allow keeps the fields of a task in their ranges. */
  lemma AffectedIsSound(f: Fields, h: Happening, hz: Hz)
    requires Sound(f, hz) && (h.Yield? && f.policy == SCHED_OTHER ==> MAX_RT_PRIO <= h.prio < MAX_PRIO)
    ensures Sound(Affected(f, h, hz), hz)
  {
    match h
    case Tick => TickedIsSound(f, hz);
    case Nice(n) => NicedIsSound(f, n, hz);
    case Policy(to, lp, capable, owner, queued, slept) => ShortStaysShort(f, to, lp, capable, owner, queued, slept, hz);
    case Wake(slept) => SleptIsSound(f, slept, hz);
    case Yield(_) =>
    case Other =>
  }
}
