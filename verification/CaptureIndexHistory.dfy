/** The index cache of the running pipeline against the plain history of coils touched. */
module CaptureIndexHistory {
  import opened Options
  import opened CaptureTypes
  import opened HighWater
  import opened CapturePipeline

  ghost predicate ShownPair(ix: Indices) {
    ix.active.Some? && ix.active.value in ix.cache.marks ==>
      ix.cache.marks[ix.active.value] == Mark(ix.saveIndex, ix.saveIndex2d)
  }

  ghost predicate IndicesInv(size: Pos, ix: Indices, touched: seq<Coil>) {
    ix.cache.Valid() && ix.cache.keys == Touched(size, touched) && ShownPair(ix)
  }

  ghost predicate CacheInv(cfg: Config, s: State) {
    IndicesInv(cfg.cacheSize, s.ix, s.touched)
  }

  lemma TouchedSnoc(size: Pos, history: seq<Coil>, coil: Coil)
    ensures Touched(size, history + [coil]) == Touch(size, Touched(size, history), coil)
  {
    assert (history + [coil])[..|history|] == history;
  }

  lemma ResumeKeepsPair(size: Pos, ix: Indices, disk: seq<FrameFile>, coil: Coil, touched: seq<Coil>)
    requires IndicesInv(size, ix, touched)
    ensures IndicesInv(size, ResumeIndices(size, ix, disk, coil), touched + [coil])
  {
    StoreTouches(size, ix.cache, coil, ResumeMark(ix, disk, coil));
    TouchedSnoc(size, touched, coil);
  }

  lemma ReserveKeepsPair(size: Pos, ix: Indices, disk: seq<FrameFile>, coil: Coil, kind: Kind, touched: seq<Coil>)
    requires IndicesInv(size, ix, touched)
    ensures IndicesInv(size, ReserveIndices(size, ix, disk, coil, kind), touched + [coil])
  {
    var mark := Advance(ReserveMark(ix, disk, coil), kind);
    StoreTouches(size, ix.cache, coil, mark);
    TouchedSnoc(size, touched, coil);
    var jx := ReserveIndices(size, ix, disk, coil, kind);
    if ix.active == Some(coil) {
      assert jx.cache.marks[coil] == Mark(jx.saveIndex, jx.saveIndex2d);
    } else if jx.active.Some? && jx.active.value in jx.cache.marks {
      assert jx.cache.marks[jx.active.value] == ix.cache.marks[jx.active.value];
    }
  }

  lemma IndicesUntouched(cfg: Config, s: State, step: Step)
    requires Enabled(s, step) && !OfIndexLock(step)
    ensures Next(cfg, s, step).ix == s.ix && Next(cfg, s, step).touched == s.touched
  {
  }

  lemma CacheStep(cfg: Config, s: State, step: Step)
    requires CacheInv(cfg, s) && Enabled(s, step)
    ensures CacheInv(cfg, Next(cfg, s, step))
  {
    if step.Resume? {
      ResumeKeepsPair(cfg.cacheSize, s.ix, s.disk, step.coil, s.touched);
    } else if step.Reserve? {
      ReserveKeepsPair(cfg.cacheSize, s.ix, s.disk, step.coil, step.kind, s.touched);
    } else {
      IndicesUntouched(cfg, s, step);
    }
  }

  lemma {:induction false} CacheKept(cfg: Config, s: State, steps: seq<Step>)
    requires CacheInv(cfg, s) && Runnable(cfg, s, steps)
    ensures CacheInv(cfg, After(cfg, s, steps))
    decreases |steps|
  {
    if steps != [] {
      CacheStep(cfg, s, steps[0]);
      CacheKept(cfg, Next(cfg, s, steps[0]), steps[1..]);
    }
  }

  /** In every reachable state the cached coils are exactly the last `cacheSize` distinct
      coils touched, the last touched among them, and the two counters shown for the
      active coil are its cached pair whenever it is cached. */
  lemma CacheIsRecentHistory(cfg: Config, disk: seq<FrameFile>, steps: seq<Step>)
    requires Runnable(cfg, Initial(disk), steps)
    ensures var s := After(cfg, Initial(disk), steps);
            && (forall c :: c in s.ix.cache.marks <==> Recent(cfg.cacheSize, s.touched, c))
            && (s.touched != [] ==> s.touched[|s.touched| - 1] in s.ix.cache.marks)
            && ShownPair(s.ix)
  {
    CacheKept(cfg, Initial(disk), steps);
    var s := After(cfg, Initial(disk), steps);
    KeysAreTheRecentCoils(cfg.cacheSize, s.touched);
    if s.touched != [] {
      LastTouchedIsRecent(cfg.cacheSize, s.touched);
    }
  }

  lemma LastTouchedIsRecent(size: Pos, history: seq<Coil>)
    requires history != []
    ensures Recent(size, history, history[|history| - 1])
  {
    var c := history[|history| - 1];
    assert LastTouch(history, c) == |history| - 1;
    assert history[|history|..] == [];
  }

  // ----- the active coil -----

  /** The coil announced last, if any. */
  function LastAnnounced(steps: seq<Step>): Option<Coil> {
    if steps == [] then None
    else if steps[|steps| - 1].Resume? then Some(steps[|steps| - 1].coil)
    else LastAnnounced(steps[..|steps| - 1])
  }

  lemma {:induction false} RunInit(cfg: Config, s: State, steps: seq<Step>, step: Step)
    requires Runnable(cfg, s, steps + [step])
    ensures Runnable(cfg, s, steps) && Enabled(After(cfg, s, steps), step)
    decreases |steps|
  {
    if steps == [] {
      assert [] + [step] == [step];
    } else {
      assert (steps + [step])[1..] == steps[1..] + [step];
      RunInit(cfg, Next(cfg, s, steps[0]), steps[1..], step);
    }
  }

  /** In every reachable state the active coil is the one announced last, whatever frames of
      whichever coils have come since. */
  lemma {:induction false} ActiveIsLastAnnounced(cfg: Config, disk: seq<FrameFile>, steps: seq<Step>)
    requires Runnable(cfg, Initial(disk), steps)
    ensures After(cfg, Initial(disk), steps).ix.active == LastAnnounced(steps)
  {
    if steps != [] {
      var init, last := steps[..|steps| - 1], steps[|steps| - 1];
      assert steps == init + [last];
      RunInit(cfg, Initial(disk), init, last);
      RunExtends(cfg, Initial(disk), init, last);
      ActiveIsLastAnnounced(cfg, disk, init);
      ActiveAfter(cfg, After(cfg, Initial(disk), init), last);
    }
  }

  lemma ActiveAfter(cfg: Config, s: State, step: Step)
    requires Enabled(s, step)
    ensures Next(cfg, s, step).ix.active == if step.Resume? then Some(step.coil) else s.ix.active
  {
  }
}
