/** The indices of one coil in the order they are handed out: as long as the coil stays in the
    index cache they are consecutive, whatever is announced, saved or dropped in between. */
module CaptureOrder {
  import opened Options
  import opened CaptureTypes
  import opened HighWater
  import opened CapturePipeline
  import opened CaptureDelivery
  import opened CaptureNoOverwrite
  import opened CaptureIndexHistory

  ghost predicate AboveFrames(pending: set<Buffer>, coil: Coil, mark: Mark) {
    forall b :: b in pending && b.coil == coil ==> b.index < mark.Next(b.kind)
  }

  ghost predicate AboveFiles(disk: seq<FrameFile>, coil: Coil, mark: Mark) {
    forall f :: f in disk && f.coil == coil ==> f.index < mark.Next(KindOf(f.folder))
  }

  predicate IsFile(f: FrameFile, coil: Coil, kind: Kind) {
    f.coil == coil && KindOf(f.folder) == kind
  }

  /** A counter is below zero only if files have such indices. */
  ghost predicate Rooted(disk: seq<FrameFile>, coil: Coil, mark: Mark) {
    forall kind: Kind :: mark.Next(kind) >= 0 || exists f :: f in disk && IsFile(f, coil, kind)
  }

  /** What is left to write of a frame goes into folders of its kind. */
  ghost predicate TodoOk(worker: Worker) {
    worker.Saving? ==> forall folder :: folder in worker.todo ==> KindOf(folder) == worker.b.kind
  }

  /** The coil is cached, and its counters are above its files and its pending frames. */
  ghost predicate Ahead(s: State, coil: Coil) {
    && s.ix.cache.Valid() && coil in s.ix.cache.marks && TodoOk(s.worker)
    && AboveFrames(Pending(s), coil, s.ix.cache.marks[coil])
    && AboveFiles(s.disk, coil, s.ix.cache.marks[coil])
    && Rooted(s.disk, coil, s.ix.cache.marks[coil])
  }

  // ----- one step -----

  /** Announcing a cached coil moves a counter if and only if a file of that kind has reached
      it; it never moves one back. */
  lemma ResumeSkipsIff(cfg: Config, s: State, coil: Coil, kind: Kind)
    requires s.ix.cache.Valid() && coil in s.ix.cache.marks && Rooted(s.disk, coil, s.ix.cache.marks[coil])
    ensures var t, n := Next(cfg, s, Resume(coil)).ix, s.ix.cache.marks[coil].Next(kind);
            && coil in t.cache.marks && t.cache.marks[coil].Next(kind) >= n
            && (t.cache.marks[coil].Next(kind) > n <==> exists f :: f in s.disk && IsFile(f, coil, kind) && f.index >= n)
  {
    ResumeIsLeast(cfg, s, coil);
    forall f
      ensures Counted(f, coil, FoldersOf(kind)) <==> IsFile(f, coil, kind)
    {
      FoldersByKind(f, coil, kind);
    }
  }

  /** What the index lock's steps leave as it is. */
  ghost predicate OnlyIndexed(s: State, t: State) {
    t.disk == s.disk && t.worker == s.worker
  }

  lemma ResumeMade(cfg: Config, s: State, step: Step)
    requires step.Resume?
    ensures var t := Next(cfg, s, step);
            && t.ix.cache == Store(cfg.cacheSize, s.ix.cache, step.coil, EntryMark(s, step))
            && OnlyIndexed(s, t) && Pending(t) == Pending(s)
  {
  }

  lemma AheadResume(cfg: Config, s: State, coil: Coil)
    requires Ahead(s, coil)
    ensures var t := Next(cfg, s, Resume(coil)); Ahead(t, coil) && t.ix.cache.marks[coil] == s.ix.cache.marks[coil]
  {
    ResumeIsLeast(cfg, s, coil);
    ResumeSkipsIff(cfg, s, coil, Sick);
    ResumeSkipsIff(cfg, s, coil, Area);
    ResumeMade(cfg, s, Resume(coil));
  }

  lemma MarkAdvances(pending: set<Buffer>, disk: seq<FrameFile>, mark: Mark, b: Buffer)
    requires AboveFrames(pending, b.coil, mark) && AboveFiles(disk, b.coil, mark) && Rooted(disk, b.coil, mark)
    requires b.index == mark.Next(b.kind)
    ensures AboveFrames(pending + {b}, b.coil, Advance(mark, b.kind)) && AboveFiles(disk, b.coil, Advance(mark, b.kind))
    ensures Rooted(disk, b.coil, Advance(mark, b.kind))
  {
    forall kind: Kind
      ensures Advance(mark, b.kind).Next(kind) >= 0 || exists f :: f in disk && IsFile(f, b.coil, kind)
    {
      assert mark.Next(kind) >= 0 || exists f :: f in disk && IsFile(f, b.coil, kind);
    }
  }

  /** `t` is `s` after the reservation of `b` under a mark that is ahead. */
  lemma ReservedAhead(size: Pos, s: State, t: State, mark: Mark, b: Buffer)
    requires s.ix.cache.Valid() && TodoOk(s.worker) && AfterReservation(size, s, t, mark, b)
    requires AboveFrames(Pending(s), b.coil, mark) && AboveFiles(s.disk, b.coil, mark) && Rooted(s.disk, b.coil, mark)
    requires b.index == mark.Next(b.kind)
    ensures Ahead(t, b.coil) && t.ix.cache.marks[b.coil] == Advance(mark, b.kind)
  {
    MarkAdvances(Pending(s), s.disk, mark, b);
    StoreTouches(size, s.ix.cache, b.coil, Advance(mark, b.kind));
  }

  lemma AheadReserve(cfg: Config, s: State, step: Step)
    requires step.Reserve? && Enabled(s, step) && Ahead(s, step.coil)
    ensures var t := Next(cfg, s, step);
            Ahead(t, step.coil) && t.ix.cache.marks[step.coil] == Advance(s.ix.cache.marks[step.coil], step.kind)
  {
    ReservationMade(cfg, s, step);
    ReservedAhead(cfg.cacheSize, s, Next(cfg, s, step), EntryMark(s, step), Reserved(s, step.kind, step.coil, step.bytes));
  }

  /** Another coil is stored and perhaps a frame of it added. */
  lemma StoredElsewhere(size: Pos, s: State, t: State, other: Coil, mark: Mark, coil: Coil)
    requires Ahead(s, coil) && other != coil && OnlyIndexed(s, t)
    requires t.ix.cache == Store(size, s.ix.cache, other, mark) && coil in t.ix.cache.marks
    requires forall b :: b in Pending(t) && b.coil == coil ==> b in Pending(s)
    ensures Ahead(t, coil) && t.ix.cache.marks[coil] == s.ix.cache.marks[coil]
  {
    StoreTouches(size, s.ix.cache, other, mark);
  }

  /** Steps of other coils that leave this one cached. */
  lemma AheadOther(cfg: Config, s: State, step: Step, coil: Coil)
    requires Ahead(s, coil) && OfIndexLock(step) && Enabled(s, step) && step.coil != coil
    requires coil in Next(cfg, s, step).ix.cache.marks
    ensures var t := Next(cfg, s, step); Ahead(t, coil) && t.ix.cache.marks[coil] == s.ix.cache.marks[coil]
  {
    if step.Resume? {
      ResumeMade(cfg, s, step);
      StoredElsewhere(cfg.cacheSize, s, Next(cfg, s, step), step.coil, EntryMark(s, step), coil);
    } else {
      var b := Reserved(s, step.kind, step.coil, step.bytes);
      ReservationMade(cfg, s, step);
      StoredElsewhere(cfg.cacheSize, s, Next(cfg, s, step), b.coil, Advance(EntryMark(s, step), b.kind), coil);
    }
  }

  lemma TodoKept(cfg: Config, s: State, step: Step)
    requires TodoOk(s.worker) && Enabled(s, step)
    ensures TodoOk(Next(cfg, s, step).worker)
  {
    if step.WriteFile? {
      assert forall folder :: folder in s.worker.todo[1..] ==> folder in s.worker.todo;
    }
  }

  /** Steps outside the index lock: a file appears only for the frame being saved. */
  lemma AheadElsewhere(cfg: Config, s: State, step: Step, coil: Coil)
    requires Ahead(s, coil) && Enabled(s, step) && !OfIndexLock(step)
    ensures Ahead(Next(cfg, s, step), coil) && Next(cfg, s, step).ix == s.ix
  {
    PendingShrinks(cfg, s, step);
    TodoKept(cfg, s, step);
    IndicesUntouched(cfg, s, step);
    FilesAppear(cfg, s, step);
  }

  lemma FilesAppear(cfg: Config, s: State, step: Step)
    requires TodoOk(s.worker) && Enabled(s, step)
    ensures forall f :: f in s.disk ==> f in Next(cfg, s, step).disk
    ensures forall f :: f in Next(cfg, s, step).disk ==> f in s.disk || (s.worker.Saving? && FileOf(f, s.worker.b))
  {
    if step.WriteFile? {
      assert s.worker.todo[0] in s.worker.todo;
    }
  }

  /** While the coil stays cached its counters stay ahead and are moved by nothing but its own
      reservations, each by one. */
  lemma AheadStep(cfg: Config, s: State, step: Step, coil: Coil)
    requires Ahead(s, coil) && Enabled(s, step) && coil in Next(cfg, s, step).ix.cache.marks
    ensures var t := Next(cfg, s, step);
            Ahead(t, coil) && t.ix.cache.marks[coil] ==
              if step.Reserve? && step.coil == coil then Advance(s.ix.cache.marks[coil], step.kind) else s.ix.cache.marks[coil]
  {
    if !OfIndexLock(step) {
      AheadElsewhere(cfg, s, step, coil);
    } else if step.coil != coil {
      AheadOther(cfg, s, step, coil);
    } else if step.Resume? {
      AheadResume(cfg, s, coil);
    } else {
      AheadReserve(cfg, s, step);
    }
  }

  // ----- whole runs -----

  /** The indices handed out for the coil and kind, in order. */
  function HandedOut(cfg: Config, s: State, steps: seq<Step>, coil: Coil, kind: Kind): seq<int>
    requires Runnable(cfg, s, steps)
    decreases |steps|
  {
    if steps == [] then []
    else
      (if steps[0].Reserve? && steps[0].coil == coil && steps[0].kind == kind
       then [Reserved(s, kind, coil, steps[0].bytes).index] else [])
      + HandedOut(cfg, Next(cfg, s, steps[0]), steps[1..], coil, kind)
  }

  ghost predicate StaysCached(cfg: Config, s: State, steps: seq<Step>, coil: Coil)
    requires Runnable(cfg, s, steps)
    decreases |steps|
  {
    coil in s.ix.cache.marks && (steps != [] ==> StaysCached(cfg, Next(cfg, s, steps[0]), steps[1..], coil))
  }

  ghost predicate Consecutive(indices: seq<int>, first: int) {
    forall i :: 0 <= i < |indices| ==> indices[i] == first + i
  }

  lemma ConsecutiveMore(indices: seq<int>, first: int)
    requires Consecutive(indices, first + 1)
    ensures Consecutive([first] + indices, first)
  {
  }

  /** The first step of a run and what it hands out. */
  lemma HandedFirst(cfg: Config, s: State, steps: seq<Step>, coil: Coil, kind: Kind)
    requires Runnable(cfg, s, steps) && steps != [] && coil in s.ix.cache.marks
    ensures var own := steps[0].Reserve? && steps[0].coil == coil && steps[0].kind == kind;
            HandedOut(cfg, s, steps, coil, kind)
            == (if own then [s.ix.cache.marks[coil].Next(kind)] else [])
               + HandedOut(cfg, Next(cfg, s, steps[0]), steps[1..], coil, kind)
  {
  }

  /** No index is skipped and none comes twice: while a coil stays cached with its counters
      ahead, its reservations of a kind get the counter's value and the values after it, one
      after another, whatever resumes come between. */
  lemma {:induction false} HandedOutInOrder(cfg: Config, s: State, steps: seq<Step>, coil: Coil, kind: Kind)
    requires Ahead(s, coil) && Runnable(cfg, s, steps) && StaysCached(cfg, s, steps, coil)
    ensures Consecutive(HandedOut(cfg, s, steps, coil, kind), s.ix.cache.marks[coil].Next(kind))
    ensures var t := After(cfg, s, steps);
            Ahead(t, coil)
            && t.ix.cache.marks[coil].Next(kind)
               == s.ix.cache.marks[coil].Next(kind) + |HandedOut(cfg, s, steps, coil, kind)|
    decreases |steps|
  {
    if steps != [] {
      var t := Next(cfg, s, steps[0]);
      AheadStep(cfg, s, steps[0], coil);
      HandedOutInOrder(cfg, t, steps[1..], coil, kind);
      HandedFirst(cfg, s, steps, coil, kind);
      if steps[0].Reserve? && steps[0].coil == coil && steps[0].kind == kind {
        ConsecutiveMore(HandedOut(cfg, t, steps[1..], coil, kind), s.ix.cache.marks[coil].Next(kind));
      }
    }
  }

  // ----- from the moment a coil enters the cache -----

  lemma {:induction false} TodoReached(cfg: Config, s: State, steps: seq<Step>)
    requires TodoOk(s.worker) && Runnable(cfg, s, steps)
    ensures TodoOk(After(cfg, s, steps).worker)
    decreases |steps|
  {
    if steps != [] {
      TodoKept(cfg, s, steps[0]);
      TodoReached(cfg, Next(cfg, s, steps[0]), steps[1..]);
    }
  }

  /** The counters a coil enters the cache under are at or above zero unless files are not. */
  lemma EntryRooted(s: State, step: Step)
    requires OfIndexLock(step) && step.coil !in s.ix.cache.marks
    ensures Rooted(s.disk, step.coil, EntryMark(s, step)) && AboveFiles(s.disk, step.coil, EntryMark(s, step))
  {
    forall kind: Kind
      ensures EntryMark(s, step).Next(kind) >= 0 || exists f :: f in s.disk && IsFile(f, step.coil, kind)
    {
      ScanIsNext(s.disk, step.coil, kind);
      forall f
        ensures Counted(f, step.coil, FoldersOf(kind)) <==> IsFile(f, step.coil, kind)
      {
        FoldersByKind(f, step.coil, kind);
      }
    }
    forall f | f in s.disk && f.coil == step.coil
      ensures f.index < EntryMark(s, step).Next(KindOf(f.folder))
    {
      ScanAboveDisk(s.disk, step.coil, f);
    }
  }

  lemma SafeMissAhead(cfg: Config, s: State, step: Step)
    requires s.ix.cache.Valid() && TodoOk(s.worker) && OfIndexLock(step) && Enabled(s, step)
    requires step.coil !in s.ix.cache.marks && SafeMiss(s, step)
    ensures var t := Next(cfg, s, step);
            Ahead(t, step.coil) && t.ix.cache.marks[step.coil] ==
              if step.Reserve? then Advance(EntryMark(s, step), step.kind) else EntryMark(s, step)
  {
    EntryRooted(s, step);
    if step.Resume? {
      ResumeMade(cfg, s, step);
      StoreTouches(cfg.cacheSize, s.ix.cache, step.coil, EntryMark(s, step));
    } else {
      ReservationMade(cfg, s, step);
      ReservedAhead(cfg.cacheSize, s, Next(cfg, s, step), EntryMark(s, step), Reserved(s, step.kind, step.coil, step.bytes));
    }
  }

  /** The first index of each kind, as the disk gives it. */
  lemma FirstIndexes(s: State, step: Step, kind: Kind)
    requires OfIndexLock(step) && step.coil !in s.ix.cache.marks
    ensures var first := EntryMark(s, step).Next(kind);
            && (step.Reserve? ==> IsNextIndex(s.disk, step.coil, FoldersOf(kind), first))
            && (step.Resume? ==> LeastAbove(s.disk, step.coil, FoldersOf(kind), 0, first))
  {
    ScanIsNext(s.disk, step.coil, kind);
    LargerIsLeastAbove(s.disk, step.coil, FoldersOf(kind), 0);
  }

  lemma InOrderFromMiss(cfg: Config, s: State, step: Step, steps: seq<Step>, kind: Kind)
    requires s.ix.cache.Valid() && TodoOk(s.worker) && OfIndexLock(step) && Enabled(s, step)
    requires step.coil !in s.ix.cache.marks && SafeMiss(s, step)
    requires Runnable(cfg, Next(cfg, s, step), steps) && StaysCached(cfg, Next(cfg, s, step), steps, step.coil)
    ensures Runnable(cfg, s, [step] + steps)
    ensures Consecutive(HandedOut(cfg, s, [step] + steps, step.coil, kind), EntryMark(s, step).Next(kind))
  {
    SafeMissAhead(cfg, s, step);
    RunFirst(cfg, s, step, steps);
    HandedOutInOrder(cfg, Next(cfg, s, step), steps, step.coil, kind);
    HandedAtMiss(cfg, s, step, steps, kind);
    if step.Reserve? && step.kind == kind {
      ConsecutiveMore(HandedOut(cfg, Next(cfg, s, step), steps, step.coil, kind), EntryMark(s, step).Next(kind));
    }
  }

  lemma HandedAtMiss(cfg: Config, s: State, step: Step, steps: seq<Step>, kind: Kind)
    requires OfIndexLock(step) && Runnable(cfg, s, [step] + steps) && Enabled(s, step) && Runnable(cfg, Next(cfg, s, step), steps)
    ensures HandedOut(cfg, s, [step] + steps, step.coil, kind)
         == (if step.Reserve? && step.kind == kind then [EntryMark(s, step).Next(kind)] else [])
            + HandedOut(cfg, Next(cfg, s, step), steps, step.coil, kind)
  {
    assert ([step] + steps)[1..] == steps;
  }

  /** In every run: from a safe miss of a coil on and for as long as the coil stays cached, the
      indices handed out for it are, kind by kind, the one after its last file (0 without a
      file) and the ones after that, in order and without a gap. */
  lemma NoIndexSkipped(cfg: Config, disk: seq<FrameFile>, before: seq<Step>, step: Step, steps: seq<Step>, kind: Kind)
      returns (first: int)
    requires Runnable(cfg, Initial(disk), before) && Enabled(After(cfg, Initial(disk), before), step)
    requires OfIndexLock(step) && step.coil !in After(cfg, Initial(disk), before).ix.cache.marks
    requires SafeMiss(After(cfg, Initial(disk), before), step)
    requires Runnable(cfg, Next(cfg, After(cfg, Initial(disk), before), step), steps)
    requires StaysCached(cfg, Next(cfg, After(cfg, Initial(disk), before), step), steps, step.coil)
    ensures var s := After(cfg, Initial(disk), before);
            && Runnable(cfg, s, [step] + steps)
            && Consecutive(HandedOut(cfg, s, [step] + steps, step.coil, kind), first)
            && (step.Reserve? ==> IsNextIndex(s.disk, step.coil, FoldersOf(kind), first))
            && (step.Resume? ==> LeastAbove(s.disk, step.coil, FoldersOf(kind), 0, first))
  {
    var s := After(cfg, Initial(disk), before);
    CacheKept(cfg, Initial(disk), before);
    TodoReached(cfg, Initial(disk), before);
    InOrderFromMiss(cfg, s, step, steps, kind);
    FirstIndexes(s, step, kind);
    first := EntryMark(s, step).Next(kind);
  }
}
