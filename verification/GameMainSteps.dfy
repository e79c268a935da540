/** Every step of the main thread keeps the invariant of the game. */
module GameMainSteps {
  import opened Life
  import opened Tiling
  import opened GameMachine
  import opened GameInvariant

  lemma PushKeeps(c: Config, s: State)
    requires Inv(c, s) && s.main.Pushing?
    ensures Inv(c, MainStep(c, s))
  {
    var s' := MainStep(c, s);
    assert Shape(c, s');
    forall k, id | 0 <= k < |s'.queue| && id == s'.popped + k
      ensures s'.queue[k] == Work(JobAt(c, s'.cur, s'.gen, id))
    {
      if k < |s.queue| { assert s.queue[k] == Work(JobAt(c, s.cur, s.gen, id)); }
    }
    assert Queued(c, s');
    forall w | 0 <= w < c.threads ensures CarriesOwn(c, s', w) {
      assert CarriesOwn(c, s, w);
    }
  }

  // When the counter has reached the number of threads, every tile is done.
  lemma AllCounted(c: Config, s: State)
    requires Inv(c, s) && s.counter == c.threads
    ensures s.popped == c.threads && (forall id :: 0 <= id < c.threads ==> id in s.counted)
    ensures s.boards[Other(s)] == Target(c, s)
  {
    CountedAll(s.counted, c.threads);
    assert c.threads - 1 in s.counted;
    var b, t := s.boards[Other(s)], Target(c, s);
    forall row | 0 <= row < c.height
      ensures b[row] == t[row]
    {
      var id := SomeTile(c.height, c.threads, row);
      assert TileDone(c, b, t, id);
    }
  }

  lemma {:induction false} CountedAll(ids: set<nat>, n: nat)
    requires |ids| == n && forall id :: id in ids ==> id < n
    ensures forall id :: 0 <= id < n ==> id in ids
  {
    if 0 < n {
      if n - 1 in ids {
        CountedAll(ids - {n - 1}, n - 1);
      } else {
        BelowAtMost(ids, n - 1);
      }
    }
  }

  lemma {:induction false} BelowAtMost(ids: set<nat>, n: nat)
    requires forall id :: id in ids ==> id < n
    ensures |ids| <= n
  {
    if 0 < n {
      BelowAtMost(ids - {n - 1}, n - 1);
    } else {
      assert ids == {};
    }
  }

  lemma SpinKeeps(c: Config, s: State)
    requires Inv(c, s) && s.main.Spinning?
    ensures Inv(c, MainStep(c, s))
  {
    if s.counter == c.threads {
      AllCounted(c, s);
      var s' := MainStep(c, s);
      assert Shape(c, s') && Queued(c, s');
      forall w | 0 <= w < c.threads ensures CarriesOwn(c, s', w) {
        assert CarriesOwn(c, s, w);
      }
    }
  }

  lemma ResetKeeps(c: Config, s: State)
    requires Inv(c, s) && s.main.Resetting?
    ensures Inv(c, MainStep(c, s))
  {
    AllCounted(c, s);
    var s' := MainStep(c, s);
    assert Shape(c, s') && Queued(c, s');
    forall w | 0 <= w < c.threads ensures !Carries(s.workers[w]) && CarriesOwn(c, s', w) {
      assert CarriesOwn(c, s, w);
    }
    assert (s.gen + 1) * c.threads == s.gen * c.threads + c.threads;
  }

  lemma SwapKeeps(c: Config, s: State)
    requires Inv(c, s) && s.main.Swapping?
    ensures Inv(c, MainStep(c, s))
  {
    var s' := MainStep(c, s);
    assert Shape(c, s') && Queued(c, s');
    forall w | 0 <= w < c.threads ensures !Carries(s.workers[w]) && CarriesOwn(c, s', w) {
      assert CarriesOwn(c, s, w);
    }
    assert Generations(c.board, c.width, s.gen + 1) == Next(Generations(c.board, c.width, s.gen), c.width);
  }

  lemma SyncKeeps(c: Config, s: State)
    requires Inv(c, s) && s.main.Syncing?
    ensures Inv(c, MainStep(c, s))
  {
    var s' := MainStep(c, s);
    assert Shape(c, s') && Queued(c, s');
    forall w | 0 <= w < c.threads ensures !Carries(s.workers[w]) && CarriesOwn(c, s', w) {
      assert CarriesOwn(c, s, w);
    }
    GenerationsRect(c.board, c.height, c.width, s.gen + 1);
  }

  lemma FinishKeeps(c: Config, s: State)
    requires Inv(c, s) && s.main.Finishing?
    ensures Inv(c, MainStep(c, s))
  {
    var s' := MainStep(c, s);
    assert Shape(c, s') && Queued(c, s');
    forall w | 0 <= w < c.threads ensures !Carries(s.workers[w]) && !IsGone(s.workers[w]) && CarriesOwn(c, s', w) {
      assert CarriesOwn(c, s, w);
    }
    GoneAtMost(s.workers);
  }

  lemma StopKeeps(c: Config, s: State)
    requires Inv(c, s) && s.main.Stopping?
    ensures Inv(c, MainStep(c, s))
  {
    var s' := MainStep(c, s);
    assert Shape(c, s') && Queued(c, s');
    forall w | 0 <= w < c.threads ensures CarriesOwn(c, s', w) {
      assert CarriesOwn(c, s, w);
    }
  }

  lemma JoinKeeps(c: Config, s: State)
    requires Inv(c, s) && s.main.Joining? && MainEnabled(s)
    ensures Inv(c, MainStep(c, s))
  {
    var s' := MainStep(c, s);
    assert Shape(c, s') && Queued(c, s');
    forall w | 0 <= w < c.threads ensures CarriesOwn(c, s', w) {
      assert CarriesOwn(c, s, w);
    }
  }

  lemma MainKeeps(c: Config, s: State)
    requires Inv(c, s) && MainEnabled(s)
    ensures Inv(c, MainStep(c, s))
  {
    match s.main
    case Pushing(_) => PushKeeps(c, s);
    case Spinning => SpinKeeps(c, s);
    case Resetting => ResetKeeps(c, s);
    case Swapping => SwapKeeps(c, s);
    case Syncing => SyncKeeps(c, s);
    case Finishing => FinishKeeps(c, s);
    case Stopping(_) => StopKeeps(c, s);
    case Joining(_) => JoinKeeps(c, s);
    case Done =>
  }
}
