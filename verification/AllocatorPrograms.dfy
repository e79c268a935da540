/** Whole programs.  To a program memory is a map from the pointers it holds to their contents;
    whatever it allocates, stores and frees, in whatever order, the heap behaves like that map. */
module AllocatorPrograms {
  import opened ByteHeap
  import opened Blocks
  import opened Ring
  import opened CoalescingAllocator
  import opened AllocatorRuns

  // What a program may rely on: the bytes behind each pointer it holds.
  type Held = map<int, Memory>

  // `grant` says whether the break may move during the call.
  datatype Command =
    | Malloc(size: u32, grant: bool)
    | Calloc(num: u32, each: u32, grant: bool)
    | Free(p: int)
    | Realloc(p: int, size: u32, grant: bool)
    | Store(p: int, at: nat, v: byte)
    | Load(p: int, at: nat)

  // Only pointers it holds, and only bytes it asked for.
  predicate Legal(held: Held, c: Command) {
    match c
    case Malloc(_, _) => true
    case Calloc(_, _, _) => true
    case Free(p) => p == NULL || p in held
    case Realloc(p, _, _) => p == NULL || p in held
    case Store(p, at, _) => p in held && at < |held[p]|
    case Load(p, at) => p in held && at < |held[p]|
  }

  function Written(content: Memory, at: nat, v: byte): Memory
    requires at < |content|
  {
    content[at := v]
  }

  // A new pointer to `size` bytes, and nothing else new.
  ghost predicate Gains(held: Held, p: int, size: nat, held': Held) {
    p !in held && p in held' && |held'[p]| == size && held' == held[p := held'[p]]
  }

  ghost predicate Gets(held: Held, p: int, size: nat, held': Held) {
    if p == NULL then held' == held else Gains(held, p, size, held')
  }

  // One is the other up to the shorter length.
  ghost predicate Begins(x: Memory, y: Memory) {
    forall j :: 0 <= j < |x| && j < |y| ==> x[j] == y[j]
  }

  /** Which answers a program may see, and what it holds afterwards. */
  ghost predicate Answered(held: Held, c: Command, answer: int, held': Held)
    requires Legal(held, c)
  {
    match c
    case Malloc(size, _) => Gets(held, answer, size, held')
    case Calloc(num, each, _) =>
      && Gets(held, answer, (num * each) % 0x1_0000_0000, held')
      && (answer != NULL ==> forall j :: 0 <= j < |held'[answer]| ==> held'[answer][j] == 0)
    case Free(p) => held' == held - {p}
    case Realloc(p, size, _) =>
      if p == NULL then Gets(held, answer, size, held')
      else if answer == NULL || answer == FAILED then held' == held
      else
        && Gains(held - {p}, answer, size, held')
        && Begins(held'[answer], held[p])
    case Store(p, at, v) => held' == held[p := Written(held[p], at, v)]
    case Load(p, at) => answer == held[p][at] && held' == held
  }

  // No byte belongs to two pointers.
  ghost predicate Apart(held: Held) {
    forall p, q :: p in held && q in held && p < q ==> p + |held[p]| <= q
  }

  // ---- the heap behind it --------------------------------------------------------------------

  ghost predicate Backs(m: Memory, b: Block, p: int, content: Memory) {
    && b.Payload() == p && !b.free && 0 < |content| <= b.size && b.End() <= |m|
    && m[p..p + |content|] == content
  }

  ghost predicate Backed(m: Memory, bs: seq<Block>, p: int, content: Memory) {
    exists b :: b in bs && Backs(m, b, p, content)
  }

  ghost predicate Holds(m: Memory, bs: seq<Block>, held: Held) {
    forall p :: p in held ==> Backed(m, bs, p, held[p])
  }

  // The place of the block behind a pointer.
  lemma Place(m: Memory, bs: seq<Block>, held: Held, p: int) returns (i: nat)
    requires Holds(m, bs, held) && p in held
    ensures PointsTo(bs, i, p) && bs[i] in bs && Backs(m, bs[i], p, held[p])
  {
    assert Backed(m, bs, p, held[p]);
    var b :| b in bs && Backs(m, b, p, held[p]);
    i :| 0 <= i < |bs| && bs[i] == b;
  }

  lemma SamePrefix(m: Memory, m': Memory, a: nat, z: nat, n: nat)
    requires a + n <= z <= |m| && z <= |m'| && m'[a..z] == m[a..z]
    ensures m'[a..a + n] == m[a..a + n]
  {
    assert m'[a..z][..n] == m'[a..a + n] && m[a..z][..n] == m[a..a + n];
  }

  // What a call leaves alone is still held.
  lemma StillHolds(m: Memory, bs: seq<Block>, m': Memory, bs': seq<Block>, held: Held, p: int)
    requires Holds(m, bs, held) && Undisturbed(m, bs, m', bs', p - META)
    ensures Holds(m', bs', held - {p})
  {
    forall q | q in held && q != p ensures Backed(m', bs', q, held[q]) {
      assert Backed(m, bs, q, held[q]);
      var b :| b in bs && Backs(m, b, q, held[q]);
      SamePrefix(m, m', q, b.End(), |held[q]|);
      assert Backs(m', b, q, held[q]);
    }
  }

  lemma NothingLost(m: Memory, bs: seq<Block>, m': Memory, bs': seq<Block>, held: Held)
    requires Holds(m, bs, held) && Undisturbed(m, bs, m', bs', -1)
    ensures Holds(m', bs', held)
  {
    StillHolds(m, bs, m', bs', held, META - 1);
    if META - 1 in held {
      var i := Place(m, bs, held, META - 1);
      assert false;
    }
    assert held - {META - 1} == held;
  }

  // With a pointer just given out; NULL adds none.
  function With(held: Held, p: int, m: Memory, size: nat): Held
    requires p == NULL || 0 <= p <= p + size <= |m|
  {
    if p == NULL then held else held[p := m[p..p + size]]
  }

  lemma HoldsMore(m: Memory, bs: seq<Block>, held: Held, k: nat, p: int, size: nat)
    requires Holds(m, bs, held) && p !in held && PointsTo(bs, k, p) && !bs[k].free && bs[k].End() <= |m|
    requires 0 < size <= bs[k].size
    ensures 0 < p <= p + size <= |m|
    ensures Holds(m, bs, With(held, p, m, size)) && Gains(held, p, size, With(held, p, m, size))
  {
    assert Backs(m, bs[k], p, m[p..p + size]) && bs[k] in bs;
  }

  lemma HeldApart(m: Memory, bs: seq<Block>, base: nat, held: Held)
    requires Inv(bs, base, |m|) && Holds(m, bs, held)
    ensures Apart(held)
  {
    forall p, q | p in held && q in held && p < q ensures p + |held[p]| <= q {
      var i := Place(m, bs, held, p);
      var j := Place(m, bs, held, q);
      if j < i { Before(bs, base, |m|, j, i); } else { Before(bs, base, |m|, i, j); }
    }
  }

  // malloc answers with a pointer that the program does not hold.
  lemma MallocGains(m: Memory, bs: seq<Block>, base: nat, size: nat, limit: nat, grant: bool, held: Held,
                    m': Memory, bs': seq<Block>, p: int)
      returns (k: nat)
    requires Inv(bs, base, |m|) && Holds(m, bs, held) && p != NULL
    requires Outcome(bs', p) == AfterMalloc(m, bs, base, size, limit, grant)
    requires Inv(bs', base, |m'|) && Undisturbed(m, bs, m', bs', -1)
    ensures PointsTo(bs', k, p) && !bs'[k].free && 0 < size <= bs'[k].size && bs'[k].End() <= |m'|
    ensures p !in held && Holds(m', bs', held)
  {
    k := AfterMallocBlock(m, bs, base, size, limit, grant);
    Within(bs', base, |m'|, k);
    if p in held {
      var i := Place(m, bs, held, p);
      assert false;
    }
    NothingLost(m, bs, m', bs', held);
  }

  // realloc answers with the old pointer or with one that the program does not hold.
  lemma ReallocGains(m: Memory, bs: seq<Block>, base: nat, i: nat, size: nat, limit: nat, grant: bool, held: Held,
                     q: int, m': Memory, bs': seq<Block>, p: int)
      returns (k: nat)
    requires Inv(bs, base, |m|) && Holds(m, bs, held) && p != NULL && p != FAILED
    requires q in held && PointsTo(bs, i, q) && !bs[i].free
    requires Outcome(bs', p) == AfterRealloc(m, bs, base, i, size, limit, grant)
    requires Inv(bs', base, |m'|) && Undisturbed(m, bs, m', bs', q - META)
    ensures PointsTo(bs', k, p) && !bs'[k].free && 0 < size <= bs'[k].size && bs'[k].End() <= |m'|
    ensures p !in held - {q} && Holds(m', bs', held - {q})
  {
    k := ReallocBlock(m, bs, base, i, size, limit, grant);
    Within(bs', base, |m'|, k);
    StillHolds(m, bs, m', bs', held, q);
    if p != q {
      var moved := AfterMalloc(m, bs, base, RoundUp(size), limit, grant);
      var j := AfterMallocBlock(m, bs, base, RoundUp(size), limit, grant);
      if p in held {
        var l := Place(m, bs, held, p);
        assert false;
      }
    }
  }

  // ---- the commands ------------------------------------------------------------------------------

  // After malloc or calloc.
  lemma Obtained(m: Memory, bs: seq<Block>, base: nat, size: nat, limit: nat, grant: bool, held: Held,
                 m': Memory, bs': seq<Block>, p: int)
    requires Inv(bs, base, |m|) && Holds(m, bs, held) && Inv(bs', base, |m'|)
    requires Outcome(bs', p) == AfterMalloc(m, bs, base, size, limit, grant)
    requires Undisturbed(m, bs, m', bs', -1)
    ensures p == NULL || 0 <= p <= p + size <= |m'|
    ensures Holds(m', bs', With(held, p, m', size)) && Gets(held, p, size, With(held, p, m', size))
  {
    NothingLost(m, bs, m', bs', held);
    if p != NULL {
      var k := MallocGains(m, bs, base, size, limit, grant, held, m', bs', p);
      HoldsMore(m', bs', held, k, p, size);
    }
  }

  // After realloc of a pointer the program holds.
  lemma Resized(m: Memory, bs: seq<Block>, base: nat, i: nat, size: nat, limit: nat, grant: bool, held: Held,
                q: int, m': Memory, bs': seq<Block>, p: int)
    requires Inv(bs, base, |m|) && Holds(m, bs, held) && Inv(bs', base, |m'|)
    requires q in held && PointsTo(bs, i, q) && Backs(m, bs[i], q, held[q]) && p != NULL && p != FAILED
    requires Outcome(bs', p) == AfterRealloc(m, bs, base, i, size, limit, grant)
    requires Undisturbed(m, bs, m', bs', q - META)
    ensures 0 <= p <= p + size <= |m'|
    ensures Holds(m', bs', With(held - {q}, p, m', size)) && Gains(held - {q}, p, size, With(held - {q}, p, m', size))
  {
    var k := ReallocGains(m, bs, base, i, size, limit, grant, held, q, m', bs', p);
    HoldsMore(m', bs', held - {q}, k, p, size);
  }

  lemma Copied(m: Memory, b: Block, q: int, content: Memory, m': Memory, p: int, size: nat)
    requires Backs(m, b, q, content) && HoldsCopy(m, m', q, p, Min(b.size, RoundUp(size))) && p + size <= |m'|
    ensures Begins(m'[p..p + size], content)
  {
    var n := Min(b.size, RoundUp(size));
    forall j | 0 <= j < |content| && j < size ensures m'[p..p + size][j] == content[j] {
      assert m'[p..p + n][j] == m[q..q + n][j];
      assert m[q..q + |content|][j] == content[j];
    }
  }

  // After a store into the block behind q.
  lemma Stored(m: Memory, bs: seq<Block>, base: nat, held: Held, q: int, at: nat, v: byte)
    requires Inv(bs, base, |m|) && Holds(m, bs, held) && q in held && at < |held[q]|
    ensures 0 <= q && q + at < |m|
    ensures Holds(Written(m, q + at, v), bs, held[q := Written(held[q], at, v)])
  {
    var i := Place(m, bs, held, q);
    var m' := Written(m, q + at, v);
    forall p | p in held ensures Backed(m', bs, p, held[q := Written(held[q], at, v)][p]) {
      var j := Place(m, bs, held, p);
      if j < i { Before(bs, base, |m|, j, i); }
      if i < j { Before(bs, base, |m|, i, j); }
      assert p == q || m'[p..p + |held[p]|] == m[p..p + |held[p]|];
      assert p != q || m'[p..p + |held[p]|] == Written(held[q], at, v);
      assert Backs(m', bs[j], p, held[q := Written(held[q], at, v)][p]);
    }
  }

  method Obtain(a: Allocator, size: u32, grant: bool, held: Held) returns (answer: int, held': Held)
    requires a.Valid() && Holds(a.mem, a.blocks, held)
    modifies a
    ensures a.Valid() && Holds(a.mem, a.blocks, held') && Answered(held, Malloc(size, grant), answer, held')
  {
    ghost var m, bs := a.mem, a.blocks;
    answer := a.Malloc(size, grant);
    Obtained(m, bs, a.base, size, a.limit, grant, held, a.mem, a.blocks, answer);
    held' := With(held, answer, a.mem, size);
  }

  method ObtainZeroed(a: Allocator, num: u32, each: u32, grant: bool, held: Held) returns (answer: int, held': Held)
    requires a.Valid() && Holds(a.mem, a.blocks, held)
    modifies a
    ensures a.Valid() && Holds(a.mem, a.blocks, held') && Answered(held, Calloc(num, each, grant), answer, held')
  {
    ghost var m, bs := a.mem, a.blocks;
    answer := a.Calloc(num, each, grant);
    var total := (num * each) % 0x1_0000_0000;
    Obtained(m, bs, a.base, total, a.limit, grant, held, a.mem, a.blocks, answer);
    held' := With(held, answer, a.mem, total);
  }

  method GiveBack(a: Allocator, p: int, held: Held) returns (held': Held)
    requires a.Valid() && Holds(a.mem, a.blocks, held) && (p == NULL || p in held)
    modifies a
    ensures a.Valid() && Holds(a.mem, a.blocks, held') && held' == held - {p}
  {
    ghost var m, bs := a.mem, a.blocks;
    ghost var i := 0;
    if p != NULL {
      i := Place(m, bs, held, p);
    }
    a.Free(p, i);
    StillHolds(m, bs, a.mem, a.blocks, held, p);
    held' := held - {p};
  }

  method Resize(a: Allocator, p: int, size: u32, grant: bool, held: Held) returns (answer: int, held': Held)
    requires a.Valid() && Holds(a.mem, a.blocks, held) && p in held && p != NULL
    modifies a
    ensures a.Valid() && Holds(a.mem, a.blocks, held') && Answered(held, Realloc(p, size, grant), answer, held')
  {
    ghost var m, bs := a.mem, a.blocks;
    ghost var i := Place(m, bs, held, p);
    answer := a.Realloc(p, size, grant, i);
    if answer == NULL || answer == FAILED {
      NothingLost(m, bs, a.mem, a.blocks, held);
      held' := held;
    } else {
      Resized(m, bs, a.base, i, size, a.limit, grant, held, p, a.mem, a.blocks, answer);
      Copied(m, bs[i], p, held[p], a.mem, answer, size);
      held' := With(held - {p}, answer, a.mem, size);
    }
  }

  method ResizeAny(a: Allocator, p: int, size: u32, grant: bool, held: Held) returns (answer: int, held': Held)
    requires a.Valid() && Holds(a.mem, a.blocks, held) && (p == NULL || p in held)
    modifies a
    ensures a.Valid() && Holds(a.mem, a.blocks, held') && Answered(held, Realloc(p, size, grant), answer, held')
  {
    if p == NULL {
      ghost var m, bs := a.mem, a.blocks;
      answer := a.Realloc(p, size, grant, 0);
      Obtained(m, bs, a.base, size, a.limit, grant, held, a.mem, a.blocks, answer);
      held' := With(held, answer, a.mem, size);
    } else {
      answer, held' := Resize(a, p, size, grant, held);
    }
  }

  method Put(a: Allocator, p: int, at: nat, v: byte, held: Held) returns (held': Held)
    requires a.Valid() && Holds(a.mem, a.blocks, held) && p in held && at < |held[p]|
    modifies a
    ensures a.Valid() && Holds(a.mem, a.blocks, held') && held' == held[p := Written(held[p], at, v)]
  {
    ghost var m := a.mem;
    Stored(m, a.blocks, a.base, held, p, at, v);
    ghost var i := Place(m, a.blocks, held, p);
    a.StoreByte(p + at, v, i);
    assert a.mem == Written(m, p + at, v);
    held' := held[p := Written(held[p], at, v)];
  }

  /** One command: the answer is a possible one, and the heap holds what the program then relies on. */
  method Perform(a: Allocator, c: Command, held: Held) returns (answer: int, held': Held)
    requires a.Valid() && Holds(a.mem, a.blocks, held) && Legal(held, c)
    modifies a
    ensures a.Valid() && Holds(a.mem, a.blocks, held') && Answered(held, c, answer, held')
  {
    match c
    case Malloc(size, grant) => answer, held' := Obtain(a, size, grant, held);
    case Calloc(num, each, grant) => answer, held' := ObtainZeroed(a, num, each, grant, held);
    case Free(p) =>
      answer := NULL;
      held' := GiveBack(a, p, held);
    case Realloc(p, size, grant) => answer, held' := ResizeAny(a, p, size, grant, held);
    case Store(p, at, v) =>
      answer := NULL;
      held' := Put(a, p, at, v, held);
    case Load(p, at) =>
      ghost var i := Place(a.mem, a.blocks, held, p);
      assert a.mem[p..p + |held[p]|][at] == a.mem[p + at];
      answer, held' := a.mem[p + at], held;
  }

  // ---- programs -------------------------------------------------------------------------------------

  // A program chooses its next command by the answers it has had.
  type Program = seq<int> -> Command

  ghost predicate Ran(program: Program, answers: seq<int>, trace: seq<Held>) {
    && |trace| == |answers| + 1 && trace[0] == map[]
    && forall k :: 0 <= k < |answers| ==> Went(program, answers, trace, k)
  }

  // A command that is not legal is passed over.
  ghost predicate Went(program: Program, answers: seq<int>, trace: seq<Held>, k: nat)
    requires k < |answers| && k + 1 < |trace|
  {
    var c := program(answers[..k]);
    if Legal(trace[k], c) then Answered(trace[k], c, answers[k], trace[k + 1])
    else answers[k] == NULL && trace[k + 1] == trace[k]
  }

  /** Any program on a new heap sees answers that a map from pointers to contents explains, and at
      no time has a byte two owners. */
  method Execute(start: nat, end: nat, program: Program, n: nat)
      returns (a: Allocator, answers: seq<int>, ghost trace: seq<Held>)
    requires 0 < start <= end < 0x1_0000_0000
    ensures |answers| == n && Ran(program, answers, trace)
    ensures forall k :: 0 <= k <= n ==> Apart(trace[k])
    ensures a.Valid() && Holds(a.mem, a.blocks, trace[n])
  {
    a := new Allocator(start, end);
    var held: Held := map[];
    answers, trace := [], [held];
    while |answers| < n
      invariant |answers| <= n && Ran(program, answers, trace) && held == trace[|answers|]
      invariant forall k :: 0 <= k <= |answers| ==> Apart(trace[k])
      invariant fresh(a) && a.Valid() && Holds(a.mem, a.blocks, held)
    {
      var c := program(answers);
      var answer, held' := NULL, held;
      if Legal(held, c) {
        answer, held' := Perform(a, c, held);
        HeldApart(a.mem, a.blocks, a.base, held');
      }
      RanOn(program, answers, trace, answer, held');
      answers, trace, held := answers + [answer], trace + [held'], held';
    }
  }

  lemma RanOn(program: Program, answers: seq<int>, trace: seq<Held>, answer: int, held': Held)
    requires Ran(program, answers, trace)
    requires var held, c := trace[|answers|], program(answers);
             if Legal(held, c) then Answered(held, c, answer, held') else answer == NULL && held' == held
    ensures Ran(program, answers + [answer], trace + [held'])
  {
    var answers', trace' := answers + [answer], trace + [held'];
    assert answers'[..|answers|] == answers;
    forall k | 0 <= k < |answers'| ensures Went(program, answers', trace', k) {
      assert k < |answers| ==> answers'[..k] == answers[..k] && Went(program, answers, trace, k);
    }
  }

  // ---- what a program sees -----------------------------------------------------------------------------

  // A command that can change byte `at` behind p.
  predicate Touches(c: Command, p: int, at: nat) {
    match c
    case Free(q) => q == p
    case Realloc(q, _, _) => q == p
    case Store(q, i, _) => q == p && i == at
    case _ => false
  }

  /** realloc keeps every byte that both sizes have room for. */
  lemma ReallocCarriesOver(program: Program, answers: seq<int>, trace: seq<Held>, i: nat, p: int, size: u32,
                           grant: bool, at: nat)
    requires Ran(program, answers, trace) && i < |answers| && program(answers[..i]) == Realloc(p, size, grant)
    requires p != NULL && p in trace[i] && at < |trace[i][p]| && at < size
    ensures answers[i] == 0 || answers[i] == -1 ==> trace[i + 1] == trace[i]
    ensures answers[i] != 0 && answers[i] != -1 ==>
              answers[i] in trace[i + 1] && at < |trace[i + 1][answers[i]]| == size
              && trace[i + 1][answers[i]][at] == trace[i][p][at]
  {
    assert Went(program, answers, trace, i);
  }

  /** A byte stored is read back, whatever the program does with other bytes in between. */
  lemma {:induction false} LoadSeesStore(program: Program, answers: seq<int>, trace: seq<Held>,
                                         i: nat, j: nat, p: int, at: nat, v: byte)
    requires Ran(program, answers, trace) && i < j <= |answers|
    requires program(answers[..i]) == Store(p, at, v) && Legal(trace[i], Store(p, at, v))
    requires forall k :: i < k < j ==> !Touches(program(answers[..k]), p, at)
    ensures Legal(trace[j], Load(p, at)) && trace[j][p][at] == v
    ensures j < |answers| && program(answers[..j]) == Load(p, at) ==> answers[j] == v
  {
    assert Went(program, answers, trace, j - 1);
    if i < j - 1 {
      LoadSeesStore(program, answers, trace, i, j - 1, p, at, v);
      assert !Touches(program(answers[..j - 1]), p, at);
    }
    assert j < |answers| ==> Went(program, answers, trace, j);
  }
}
