/** The arithmetic of the scheduler: bonuses, time slices, and what one tick or one sleep does
    to the fields of a task. */
module SchedMath {
  import opened RunQueues

  // C's division truncates toward zero.
  function Quotient(a: int, b: int): int
    requires b > 0
  {
    if a >= 0 then a / b else -((-a) / b)
  }

  lemma MulMonotone(d: int, a: int, b: int)
    requires 0 <= d && a <= b
    ensures d * a <= d * b
  {
  }

  lemma DivideAt(x: int, d: int, q: int)
    requires 0 < d && d * q <= x < d * q + d
    ensures x / d == q
  {
    var k := x / d;
    assert x == d * k + x % d;
    if k < q {
      MulMonotone(d, k + 1, q);
    } else if k > q {
      MulMonotone(d, q + 1, k);
    }
  }

  lemma DivMonotone(x: int, y: int, d: int)
    requires 0 < d && x <= y
    ensures x / d <= y / d
  {
    var k, l := x / d, y / d;
    assert x == d * k + x % d && y == d * l + y % d;
    if k > l {
      MulMonotone(d, l + 1, k);
    }
  }

  function MinTimeslice(hz: Hz): int { 10 * hz / 1000 }

  function MaxTimeslice(hz: Hz): int { 300 * hz / 1000 }

  function TaskTimeslice(staticPrio: int, hz: Hz): int {
    MinTimeslice(hz) + Quotient((MaxTimeslice(hz) - MinTimeslice(hz)) * (MAX_PRIO - 1 - staticPrio), 39)
  }

  // Better static priorities have longer slices, between the two limits.
  lemma SliceRange(p: int, q: int, hz: Hz)
    requires MAX_RT_PRIO <= p <= q < MAX_PRIO
    ensures 1 <= MinTimeslice(hz) <= TaskTimeslice(q, hz) <= TaskTimeslice(p, hz) <= MaxTimeslice(hz)
    ensures TaskTimeslice(MAX_RT_PRIO, hz) == MaxTimeslice(hz) && TaskTimeslice(MAX_PRIO - 1, hz) == MinTimeslice(hz)
  {
    var d := MaxTimeslice(hz) - MinTimeslice(hz);
    MulMonotone(d, 139 - q, 139 - p);
    MulMonotone(d, 139 - p, 39);
    MulMonotone(d, 0, 139 - q);
    DivMonotone(d * (139 - q), d * (139 - p), 39);
    DivMonotone(d * (139 - p), d * 39, 39);
  }

  // Between them they go down evenly, in steps of a 39th.
  lemma SliceIsLinear(p: int, hz: Hz)
    requires 100 <= p <= 139
    ensures var low, high := 10 * hz / 1000, 300 * hz / 1000;
            && low <= TaskTimeslice(p, hz) <= high
            && 39 * (TaskTimeslice(p, hz) - low) <= (high - low) * (139 - p) < 39 * (TaskTimeslice(p, hz) - low + 1)
  {
    SliceRange(p, p, hz);
    var d := (MaxTimeslice(hz) - MinTimeslice(hz)) * (139 - p);
    MulMonotone(MaxTimeslice(hz) - MinTimeslice(hz), 0, 139 - p);
    assert d == 39 * (d / 39) + d % 39;
  }

  // The bonus of a task that has slept a on average: -5 to 5.
  function Bonus(sleepAvg: nat, hz: Hz): int
  {
    40 * 25 * sleepAvg / (2 * hz) / 100 - 40 * 25 / 100 / 2
  }

  lemma ScaledSleep(a: nat, hz: Hz)
    requires a <= 2 * hz
    ensures 0 <= 1000 * a / (2 * hz) <= 1000
  {
    var d := 2 * hz;
    DivideAt(1000 * d, d, 1000);
    DivMonotone(1000 * a, 1000 * d, d);
    DivMonotone(0, 1000 * a, d);
  }

  lemma BonusRange(a: nat, hz: Hz)
    requires a <= 2 * hz
    ensures -5 <= Bonus(a, hz) <= 5
    ensures a == hz ==> Bonus(a, hz) == 0
    ensures a == 0 ==> Bonus(a, hz) == -5
    ensures a == 2 * hz ==> Bonus(a, hz) == 5
  {
    ScaledSleep(a, hz);
    if a == hz { DivideAt(1000 * a, 2 * hz, 500); }
    if a == 2 * hz { DivideAt(1000 * a, 2 * hz, 1000); }
    if a == 0 { DivideAt(1000 * a, 2 * hz, 0); }
  }

  lemma SleepersGain(a: nat, b: nat, hz: Hz)
    requires a <= b
    ensures Bonus(a, hz) <= Bonus(b, hz)
  {
    DivMonotone(1000 * a, 1000 * b, 2 * hz);
  }

  // One level for every fifth of a second of sleep on average, from -5 on.
  lemma BonusIsFifths(a: nat, hz: Hz)
    ensures Bonus(a, hz) == 5 * a / hz - 5
  {
    var k, l := 5 * a / hz, 1000 * a / (2 * hz);
    assert 5 * a == hz * k + 5 * a % hz;
    assert 1000 * a == 2 * hz * l + 1000 * a % (2 * hz);
    assert 40 * 25 * a == 1000 * a;
    Hundreds(a, hz, k, l);
    DivideAt(l, 100, k);
  }

  lemma Hundreds(a: nat, hz: Hz, k: int, l: int)
    requires hz * k <= 5 * a < hz * k + hz && 2 * hz * l <= 1000 * a < 2 * hz * l + 2 * hz
    ensures 100 * k <= l < 100 * k + 100
  {
    if l < 100 * k {
      MulMonotone(2 * hz, l + 1, 100 * k);
    } else if l >= 100 * k + 100 {
      MulMonotone(2 * hz, 100 * k + 100, l);
    }
  }

  /** The dynamic priority in numbers. */
  lemma EffectiveInWords(f: Fields, hz: Hz)
    ensures f.policy == SCHED_SHORT ==> EffectivePrio(f, hz) == f.shortPrio
    ensures f.policy != SCHED_SHORT ==>
              var x := f.staticPrio + 5 - 5 * f.sleepAvg / hz;
              EffectivePrio(f, hz) == if x < 100 then 100 else if x > 139 then 139 else x
  {
    BonusIsFifths(f.sleepAvg, hz);
  }

  function EffectivePrio(f: Fields, hz: Hz): int
  {
    if f.policy == SCHED_SHORT then f.shortPrio
    else
      var prio := f.staticPrio - Bonus(f.sleepAvg, hz);
      if prio < MAX_RT_PRIO then MAX_RT_PRIO else if prio > MAX_PRIO - 1 then MAX_PRIO - 1 else prio
  }

  /** The dynamic priority of a SCHED_OTHER task stays out of the real-time range and within 5
      of its static priority; without bonus it is the static priority. */
  lemma DynamicPriority(f: Fields, hz: Hz)
    requires Sound(f, hz) && f.policy != SCHED_SHORT
    ensures MAX_RT_PRIO <= EffectivePrio(f, hz) < MAX_PRIO
    ensures f.staticPrio - 5 <= EffectivePrio(f, hz) <= f.staticPrio + 5
    ensures f.sleepAvg == hz ==> EffectivePrio(f, hz) == f.staticPrio
  {
    BonusRange(f.sleepAvg, hz);
  }

  function Delta(f: Fields): int {
    Quotient((f.staticPrio - MAX_RT_PRIO - 20) * (40 * 25 / 100), 40) + 2
  }

  predicate Interactive(f: Fields) {
    f.prio <= f.staticPrio - Delta(f)
  }

  /** TASK_INTERACTIVE against the table beside it (HW2/kernel/sched.c:76-80).  It agrees for nice
      -20, 0, 10 and 19.  For nice -10 the table rates one priority more as interactive than the
      code does, because C's division rounds -100/40 toward zero. */
  lemma InteractiveTable(f: Fields)
    ensures f.staticPrio == 100 ==> (Interactive(f) <==> f.prio <= f.staticPrio + 3)
    ensures f.staticPrio == 110 ==> (Interactive(f) <==> f.prio <= f.staticPrio)
    ensures f.staticPrio == 120 ==> (Interactive(f) <==> f.prio <= f.staticPrio - 2)
    ensures f.staticPrio == 130 ==> (Interactive(f) <==> f.prio <= f.staticPrio - 4)
    ensures f.staticPrio == 139 ==> (Interactive(f) <==> f.prio <= f.staticPrio - 6)
  {
  }

  const WORD := 0x1_0000_0000

  // jiffies - stamp, in an unsigned 32-bit word.
  function Elapsed(jiffies: int, stamp: int): int {
    (jiffies - stamp) % WORD
  }

  predicate ExpiredStarving(expiredTimestamp: int, jiffies: int, nrRunning: int, hz: Hz) {
    expiredTimestamp != 0 && Elapsed(jiffies, expiredTimestamp) >= 2 * hz * nrRunning + 1
  }

  // n - 1, in an unsigned 32-bit word.
  function Less(n: int): (m: int)
    ensures n >= 0 ==> m >= 0
  {
    if n == 0 then WORD - 1 else n - 1
  }

  // What activate_task does to the fields of a task that has slept that long.
  function Slept(f: Fields, sleepTime: int, hz: Hz): Fields
  {
    if f.policy == SCHED_SHORT || f.prio < MAX_RT_PRIO || sleepTime == 0 then f
    else
      var avg := (f.sleepAvg + sleepTime) % WORD;
      var g := f.(sleepAvg := if avg > 2 * hz then 2 * hz else avg);
      g.(prio := EffectivePrio(g, hz))
  }

  lemma SleptIsSound(f: Fields, sleepTime: int, hz: Hz)
    requires Sound(f, hz)
    ensures Sound(Slept(f, sleepTime, hz), hz)
  {
    if !(f.policy == SCHED_SHORT || f.prio < MAX_RT_PRIO || sleepTime == 0) {
      var avg := (f.sleepAvg + sleepTime) % WORD;
      DynamicPriority(f.(sleepAvg := if avg > 2 * hz then 2 * hz else avg), hz);
    }
  }

  /** Sleep is credited in full, up to two seconds, to a task that is neither real-time nor SHORT, and its
      priority is the one it then deserves; nothing else changes. */
  lemma SleepIsCredited(f: Fields, sleepTime: nat, hz: Hz)
    requires Sound(f, hz) && f.sleepAvg + sleepTime < 0x1_0000_0000
    ensures var g := Slept(f, sleepTime, hz);
            if f.policy == SCHED_SHORT || f.policy == SCHED_FIFO || f.policy == SCHED_RR || sleepTime == 0 then g == f
            else
              var x := f.staticPrio + 5 - 5 * g.sleepAvg / hz;
              && g.sleepAvg == (if f.sleepAvg + sleepTime <= 2 * hz then f.sleepAvg + sleepTime else 2 * hz)
              && g.prio == (if x < 100 then 100 else if x > 139 then 139 else x)
              && g == f.(sleepAvg := g.sleepAvg, prio := g.prio)
  {
    EffectiveInWords(Slept(f, sleepTime, hz), hz);
    assert (f.sleepAvg + sleepTime) % WORD == f.sleepAvg + sleepTime;
  }

  // A sum that does not fit a word comes out too small by 2^32.
  lemma SleepWraps(f: Fields, sleepTime: nat, hz: Hz)
    requires Sound(f, hz) && f.policy == SCHED_OTHER && f.sleepAvg <= 0xFFFF_FFFF && sleepTime <= 0xFFFF_FFFF
    requires 0x1_0000_0000 <= f.sleepAvg + sleepTime
    ensures var rest := f.sleepAvg + sleepTime - 0x1_0000_0000;
            Slept(f, sleepTime, hz).sleepAvg == if rest <= 2 * hz then rest else 2 * hz
  {
    assert (f.sleepAvg + sleepTime) % WORD == f.sleepAvg + sleepTime - WORD;
  }

  // What happens to the running task's place at a tick.
  datatype Outcome = Stays | Again | Expires | Demoted

  function Charged(f: Fields): Fields {
    f.(sleepAvg := if f.sleepAvg > 0 then f.sleepAvg - 1 else 0, timeSlice := Less(f.timeSlice))
  }

  // A new dynamic priority and a new slice.
  function Renewed(f: Fields, hz: Hz): Fields {
    f.(prio := EffectivePrio(f, hz), timeSlice := TaskTimeslice(f.staticPrio, hz))
  }

  // The fields after a tick.
  function Ticked(f: Fields, hz: Hz): Fields
  {
    if f.policy != SCHED_SHORT && f.prio < MAX_RT_PRIO then
      if f.policy != SCHED_RR then f
      else if f.timeSlice == 1 then f.(timeSlice := TaskTimeslice(f.staticPrio, hz))
      else f.(timeSlice := Less(f.timeSlice))
    else if f.policy == SCHED_SHORT then
      if f.timeLeft == 1 then
        var s := if f.staticPrio + 7 < MAX_PRIO - 1 then f.staticPrio + 7 else MAX_PRIO - 1;
        var g := f.(timeLeft := 0, policy := SCHED_OTHER, staticPrio := s, sleepAvg := hz);
        g.(prio := EffectivePrio(g, hz), timeSlice := TaskTimeslice(s, hz))
      else f.(timeLeft := Less(f.timeLeft))
    else
      if Charged(f).timeSlice == 0 then Renewed(Charged(f), hz) else Charged(f)
  }

  function OutcomeOf(f: Fields, starving: bool, hz: Hz): Outcome
  {
    if f.policy != SCHED_SHORT && f.prio < MAX_RT_PRIO then
      if f.policy == SCHED_RR && f.timeSlice == 1 then Again else Stays
    else if f.policy == SCHED_SHORT then
      if f.timeLeft == 1 then Demoted else Stays
    else if Charged(f).timeSlice != 0 then Stays
    else if !Interactive(Renewed(Charged(f), hz)) || starving then Expires else Again
  }

  lemma TickedIsSound(f: Fields, hz: Hz)
    requires Sound(f, hz)
    ensures Sound(Ticked(f, hz), hz)
  {
    SliceRange(f.staticPrio, f.staticPrio, hz);
    if f.policy == SCHED_SHORT && f.timeLeft == 1 {
      Demotion(f, hz);
    } else if f.policy == SCHED_OTHER {
      DynamicPriority(Charged(f).(timeSlice := 1), hz);
    }
  }

  /** A SHORT task whose time is up becomes SCHED_OTHER, 7 levels nicer but not beyond the nicest,
      with exactly its static priority and a full time slice. */
  lemma Demotion(f: Fields, hz: Hz)
    requires Sound(f, hz) && f.policy == SCHED_SHORT && f.timeLeft == 1
    ensures var g := Ticked(f, hz);
            && Sound(g, hz) && g.policy == SCHED_OTHER && g.timeLeft == 0 && g.prio == g.staticPrio
            && f.staticPrio <= g.staticPrio <= f.staticPrio + 7
            && (g.staticPrio == f.staticPrio + 7 || g.staticPrio == MAX_PRIO - 1)
            && MinTimeslice(hz) <= g.timeSlice <= MaxTimeslice(hz)
            && g.sleepAvg == hz && g.shortPrio == f.shortPrio
  {
    var s := if f.staticPrio + 7 < MAX_PRIO - 1 then f.staticPrio + 7 else MAX_PRIO - 1;
    BonusRange(hz, hz);
    SliceRange(s, s, hz);
  }

  // What a request of some milliseconds gives, in ticks.
  function TimeLeftFor(requested: int, hz: Hz): int {
    if requested * hz / 1000 == 0 then 1 else requested * hz / 1000
  }

  function RemainingTime(timeLeft: int, hz: Hz): int {
    timeLeft * 1000 / hz
  }

  /** A fresh SHORT task has at least one tick; what sys_short_remaining_time then reports is
      never more than requested, except that a request below one tick reports one tick. */
  lemma RequestedTime(requested: int, hz: Hz)
    requires 1 <= requested <= 3000
    ensures 1 <= TimeLeftFor(requested, hz)
    ensures requested * hz < 1000 ==> TimeLeftFor(requested, hz) == 1
    ensures requested * hz >= 1000 ==>
              TimeLeftFor(requested, hz) * 1000 <= requested * hz < TimeLeftFor(requested, hz) * 1000 + 1000
    ensures RemainingTime(TimeLeftFor(requested, hz), hz) <= requested ||
            (requested * hz < 1000 && TimeLeftFor(requested, hz) == 1)
    ensures requested * hz >= 1000 ==> requested - 1000 / hz - 1 <= RemainingTime(TimeLeftFor(requested, hz), hz)
  {
    var n := requested * hz;
    MulMonotone(hz, 1, requested);
    var t := n / 1000;
    if 1000 <= n {
      TicksBack(requested, hz, t);
    }
  }

  lemma TicksBack(requested: int, hz: Hz, t: int)
    requires 1 <= requested && requested * hz >= 1000 && t == requested * hz / 1000
    ensures requested - 1000 / hz - 1 <= t * 1000 / hz <= requested
  {
    var n := requested * hz;
    DivideAt(n, hz, requested);
    DivMonotone(t * 1000, n, hz);
    var c := 1000 / hz;
    assert 1000 < hz * c + hz by {
      assert 1000 == hz * c + 1000 % hz;
    }
    assert hz * (requested - c - 1) == n - hz * c - hz;
    DivMonotone(hz * (requested - c - 1), t * 1000, hz);
    DivideAt(hz * (requested - c - 1), hz, requested - c - 1);
  }
}
