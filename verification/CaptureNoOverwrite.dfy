/** No frame file is written twice, as long as no coil re-enters the index cache while one
    of its frames above the disk scan is still on its way to disk; in particular as long as
    no coil is evicted while any of its frames is pending. */
module CaptureNoOverwrite {
  import opened CaptureTypes
  import opened HighWater
  import opened CapturePipeline
  import opened CaptureDelivery

  function KindOf(folder: Folder): Kind {
    if folder.AreaFolder? then Area else Sick
  }

  lemma FoldersByKind(f: FrameFile, coil: Coil, kind: Kind)
    ensures Counted(f, coil, FoldersOf(kind)) <==> f.coil == coil && KindOf(f.folder) == kind
  {
    assert THREE_D_FOLDERS[0] == Lower2d && THREE_D_FOLDERS[1] == Upper2d && THREE_D_FOLDERS[2] == Lower3d;
    assert THREE_D_FOLDERS[3] == Upper3d && THREE_D_FOLDERS[4] == Json && AREA_FOLDERS[0] == AreaFolder;
  }

  /** The file belongs to the frame. */
  predicate FileOf(f: FrameFile, b: Buffer) {
    f.coil == b.coil && KindOf(f.folder) == b.kind && f.index == b.index
  }

  function Hands(h: Hand): seq<Buffer> {
    if h.Holding? then [h.b] else []
  }

  /** The frames that have an index and may still be written. A frame still in its
      producer's hand when the pipeline has been stopped can only be dropped. */
  ghost function Pending(s: State): set<Buffer> {
    (if s.running then Elems(Hands(s.hand3d)) + Elems(Hands(s.hand2d)) else {}) + Elems(Hands(LockHand(s)))
    + Elems(Frames(s.queue)) + (if s.worker.Saving? then {s.worker.b} else {})
  }

  /** `t` holds what `s` holds and perhaps `b` in one more hand. */
  lemma HandFilled(s: State, t: State, b: Buffer)
    requires t.queue == s.queue && t.worker == s.worker && t.lock == s.lock && t.running == s.running
    requires t.hand3d == s.hand3d || t.hand3d == Holding(b)
    requires t.hand2d == s.hand2d || t.hand2d == Holding(b)
    ensures Pending(t) <= Pending(s) + {b}
  {
    assert Elems(Hands(t.hand3d)) <= Elems(Hands(s.hand3d)) + {b};
    assert Elems(Hands(t.hand2d)) <= Elems(Hands(s.hand2d)) + {b};
  }

  // ----- the invariant, on the parts it speaks of -----

  ghost predicate NoClash(pending: set<Buffer>) {
    forall a, b :: a in pending && b in pending && a != b && a.coil == b.coil && a.kind == b.kind ==> a.index != b.index
  }

  ghost predicate Dominated(pending: set<Buffer>, marks: map<Coil, Mark>) {
    forall b :: b in pending && b.coil in marks ==> b.index < marks[b.coil].Next(b.kind)
  }

  ghost predicate DiskDominated(disk: seq<FrameFile>, marks: map<Coil, Mark>) {
    forall f :: f in disk && f.coil in marks ==> f.index < marks[f.coil].Next(KindOf(f.folder))
  }

  ghost predicate Unwritten(disk: seq<FrameFile>, b: Buffer) {
    forall f :: f in disk ==> !FileOf(f, b)
  }

  /** Of the frame being saved only files that are no longer to do can be on disk. */
  ghost predicate PartlyWritten(disk: seq<FrameFile>, b: Buffer, todo: seq<Folder>) {
    && Distinct(todo)
    && (forall folder :: folder in todo ==> KindOf(folder) == b.kind)
    && (forall f :: f in disk && FileOf(f, b) ==> f.folder !in todo)
  }

  ghost predicate WorkerOk(disk: seq<FrameFile>, worker: Worker) {
    worker.Saving? ==> PartlyWritten(disk, worker.b, worker.todo)
  }

  ghost predicate OthersUnwritten(pending: set<Buffer>, disk: seq<FrameFile>, worker: Worker) {
    forall b :: b in pending && !(worker.Saving? && worker.b == b) ==> Unwritten(disk, b)
  }

  ghost predicate FrameInv(s: State) {
    && s.ix.cache.Valid()
    && NoClash(Pending(s))
    && Dominated(Pending(s), s.ix.cache.marks)
    && DiskDominated(s.disk, s.ix.cache.marks)
    && OthersUnwritten(Pending(s), s.disk, s.worker)
    && WorkerOk(s.disk, s.worker)
    && Distinct(s.disk)
  }

  /** The frame being saved is the last one handed over. */
  ghost predicate HandedInv(s: State) {
    s.worker.Saving? ==> s.handed != [] && s.handed[|s.handed| - 1] == s.worker.b
  }

  // ----- steps that only move or drop frames -----

  lemma FrameShrinks(s: State, t: State)
    requires FrameInv(s)
    requires HandedInv(s) && t.handed == s.handed
    requires t.ix == s.ix && t.disk == s.disk && t.worker == s.worker
    requires Pending(t) <= Pending(s)
    ensures FrameInv(t) && HandedInv(t)
  {
  }

  lemma ProducerShrinks(cfg: Config, s: State, step: Step)
    requires Enabled(s, step) && OfProducer(step)
    ensures Pending(Next(cfg, s, step)) <= Pending(s)
  {
    if step.PutDone? {
      FramesAppend(s.queue, Frame(s.lock.b));
    }
  }

  lemma StopShrinks(cfg: Config, s: State, step: Step)
    requires Enabled(s, step) && OfStop(step)
    ensures Pending(Next(cfg, s, step)) <= Pending(s)
  {
    FramesAppend(s.queue, Sentinel);
  }

  lemma WorkerShrinks(cfg: Config, s: State, step: Step)
    requires Enabled(s, step) && OfWorker(step)
    ensures Pending(Next(cfg, s, step)) <= Pending(s)
  {
    if step.Take? {
      assert Frames(s.queue) == (if s.queue[0].Frame? then [s.queue[0].b] else []) + Frames(s.queue[1..]);
    }
  }

  lemma ReservePending(cfg: Config, s: State, step: Step)
    requires step.Reserve?
    ensures Pending(DoReserve(cfg, s, step.kind, step.coil, step.bytes))
            <= Pending(s) + {Reserved(s, step.kind, step.coil, step.bytes)}
  {
    HandFilled(s, DoReserve(cfg, s, step.kind, step.coil, step.bytes), Reserved(s, step.kind, step.coil, step.bytes));
  }

  lemma PendingShrinks(cfg: Config, s: State, step: Step)
    requires Enabled(s, step) && !step.Reserve?
    ensures Pending(Next(cfg, s, step)) <= Pending(s)
  {
    if OfProducer(step) {
      ProducerShrinks(cfg, s, step);
    } else if OfWorker(step) {
      WorkerShrinks(cfg, s, step);
    } else if OfStop(step) {
      StopShrinks(cfg, s, step);
    } else {
      assert Pending(DoResume(cfg, s, step.coil)) == Pending(s);
    }
  }

  // ----- the worker -----

  lemma ApartInOrder(earlier: seq<Buffer>, later: seq<Buffer>, b: Buffer)
    requires DistinctIds(earlier + later) && b in earlier
    ensures b !in later
  {
    var i :| 0 <= i < |earlier| && earlier[i] == b;
    forall j | 0 <= j < |later|
      ensures later[j] != b
    {
      assert (earlier + later)[i].id != (earlier + later)[|earlier| + j].id;
    }
  }

  lemma HeadNotInTail(s: State)
    requires QueueInv(s) && IdInv(s) && s.queue != [] && s.queue[0].Frame?
    ensures Frames(s.queue) == [s.queue[0].b] + Frames(s.queue[1..])
    ensures s.queue[0].b !in Frames(s.queue[1..])
  {
    var head, tail := s.queue[0].b, Frames(s.queue[1..]);
    assert s.accepted == (s.handed + [head]) + tail;
    ApartInOrder(s.handed + [head], tail, head);
  }

  lemma SavedNotQueued(s: State)
    requires QueueInv(s) && IdInv(s) && HandedInv(s) && s.worker.Saving?
    ensures s.worker.b !in Frames(s.queue)
  {
    ApartInOrder(s.handed, Frames(s.queue), s.worker.b);
  }

  /** The worker moves on from one frame to another, or to none. */
  lemma OthersStillUnwritten(pending: set<Buffer>, disk: seq<FrameFile>, worker: Worker, after: set<Buffer>, moved: Worker)
    requires OthersUnwritten(pending, disk, worker) && after <= pending
    requires worker.Saving? ==> worker.b !in after
    requires moved.Saving? ==> moved.todo == FilesToSave(moved.b) && moved.b in after
    ensures OthersUnwritten(after, disk, moved) && WorkerOk(disk, moved)
  {
    forall b | b in after
      ensures Unwritten(disk, b)
    {
      assert b in pending;
    }
  }

  lemma WorkerMoves(s: State, t: State)
    requires FrameInv(s) && Pending(t) <= Pending(s) && t.ix == s.ix && t.disk == s.disk
    requires s.worker.Saving? ==> s.worker.b !in Pending(t)
    requires t.worker.Saving? ==> t.worker.todo == FilesToSave(t.worker.b) && t.worker.b in Pending(t)
    ensures FrameInv(t)
  {
    OthersStillUnwritten(Pending(s), s.disk, s.worker, Pending(t), t.worker);
    FewerFrames(Pending(s), Pending(t), s.ix.cache.marks);
  }

  lemma FewerFrames(pending: set<Buffer>, after: set<Buffer>, marks: map<Coil, Mark>)
    requires NoClash(pending) && Dominated(pending, marks) && after <= pending
    ensures NoClash(after) && Dominated(after, marks)
  {
  }

  lemma TakeMoves(cfg: Config, s: State)
    requires QueueInv(s) && IdInv(s) && Enabled(s, Take)
    ensures var t := Next(cfg, s, Take);
            && Pending(t) <= Pending(s) && t.ix == s.ix && t.disk == s.disk
            && (t.worker.Saving? ==> t.worker.todo == FilesToSave(t.worker.b) && t.worker.b in Pending(t))
            && HandedInv(t) && !s.worker.Saving?
  {
    if s.queue[0].Frame? {
      HeadNotInTail(s);
    }
  }

  lemma TakeFrame(cfg: Config, s: State)
    requires FrameInv(s) && QueueInv(s) && IdInv(s) && Enabled(s, Take)
    ensures FrameInv(Next(cfg, s, Take)) && HandedInv(Next(cfg, s, Take))
  {
    TakeMoves(cfg, s);
    WorkerMoves(s, Next(cfg, s, Take));
  }

  lemma NotHeld(s: State, b: Buffer)
    requires IdInv(s) && b in s.accepted
    ensures b !in Hands(s.hand3d) && b !in Hands(s.hand2d) && b !in Hands(LockHand(s))
  {
  }

  lemma SaveDoneMoves(cfg: Config, s: State)
    requires QueueInv(s) && IdInv(s) && HandedInv(s) && Enabled(s, SaveDone)
    ensures var t := Next(cfg, s, SaveDone);
            && Pending(t) <= Pending(s) && t.ix == s.ix && t.disk == s.disk
            && s.worker.b !in Pending(t) && !t.worker.Saving?
  {
    SavedNotQueued(s);
    assert s.worker.b in s.accepted by {
      assert s.accepted[|s.handed| - 1] == s.worker.b;
    }
    NotHeld(s, s.worker.b);
  }

  lemma SaveDoneFrame(cfg: Config, s: State)
    requires FrameInv(s) && QueueInv(s) && IdInv(s) && HandedInv(s) && Enabled(s, SaveDone)
    ensures FrameInv(Next(cfg, s, SaveDone)) && HandedInv(Next(cfg, s, SaveDone))
  {
    SaveDoneMoves(cfg, s);
    WorkerMoves(s, Next(cfg, s, SaveDone));
  }

  lemma WriteFrame(cfg: Config, s: State, lands: bool)
    requires FrameInv(s) && HandedInv(s) && Enabled(s, WriteFile(lands))
    ensures FrameInv(Next(cfg, s, WriteFile(lands))) && HandedInv(Next(cfg, s, WriteFile(lands)))
  {
    var t := Next(cfg, s, WriteFile(lands));
    var b, folder := s.worker.b, s.worker.todo[0];
    var f := FrameFile(b.coil, folder, b.index);
    assert Pending(t) == Pending(s);
    assert b in Pending(s);
    assert folder in s.worker.todo && FileOf(f, b);
    assert f !in s.disk;
    assert folder !in s.worker.todo[1..];
    assert forall other :: other in s.worker.todo[1..] ==> other in s.worker.todo;
  }

  // ----- the index lock -----

  /** The mark under which the step enters its coil in the cache. */
  function EntryMark(s: State, step: Step): Mark
    requires OfIndexLock(step)
  {
    if step.Resume? then ResumeMark(s.ix, s.disk, step.coil) else ReserveMark(s.ix, s.disk, step.coil)
  }

  /** If the step's coil is not cached, the scan it uses instead is above every pending
      frame of the coil. */
  ghost predicate SafeMiss(s: State, step: Step) {
    OfIndexLock(step) && step.coil !in s.ix.cache.marks ==>
      forall b :: b in Pending(s) && b.coil == step.coil ==> b.index < EntryMark(s, step).Next(b.kind)
  }

  lemma ScanAboveDisk(disk: seq<FrameFile>, coil: Coil, f: FrameFile)
    requires f in disk && f.coil == coil
    ensures f.index < Scan(disk, coil).Next(KindOf(f.folder))
  {
    var kind := KindOf(f.folder);
    FoldersByKind(f, coil, kind);
    NextSavedIsNext(disk, coil, FoldersOf(kind));
  }

  /** The mark a coil is entered under is above its files and its pending frames. */
  lemma EntryDominates(s: State, step: Step)
    requires FrameInv(s) && OfIndexLock(step) && SafeMiss(s, step)
    ensures forall b :: b in Pending(s) && b.coil == step.coil ==> b.index < EntryMark(s, step).Next(b.kind)
    ensures forall f :: f in s.disk && f.coil == step.coil ==> f.index < EntryMark(s, step).Next(KindOf(f.folder))
  {
    forall f | f in s.disk && f.coil == step.coil
      ensures f.index < EntryMark(s, step).Next(KindOf(f.folder))
    {
      ScanAboveDisk(s.disk, step.coil, f);
    }
  }

  lemma StoreDominates(size: Pos, table: OrderedMarks, coil: Coil, mark: Mark, pending: set<Buffer>, disk: seq<FrameFile>)
    requires table.Valid() && Dominated(pending, table.marks - {coil}) && DiskDominated(disk, table.marks)
    requires forall b :: b in pending && b.coil == coil ==> b.index < mark.Next(b.kind)
    requires forall f :: f in disk && f.coil == coil ==> f.index < mark.Next(KindOf(f.folder))
    ensures Store(size, table, coil, mark).Valid()
    ensures Dominated(pending, Store(size, table, coil, mark).marks)
    ensures DiskDominated(disk, Store(size, table, coil, mark).marks)
  {
    StoreTouches(size, table, coil, mark);
    var marks := Store(size, table, coil, mark).marks;
    forall b | b in pending && b.coil in marks
      ensures b.index < marks[b.coil].Next(b.kind)
    {
      if b.coil != coil {
        assert b.coil in table.marks - {coil};
      }
    }
  }

  lemma ResumeFrame(cfg: Config, s: State, step: Step)
    requires FrameInv(s) && HandedInv(s) && step.Resume? && SafeMiss(s, step)
    ensures FrameInv(Next(cfg, s, step)) && HandedInv(Next(cfg, s, step))
  {
    var t := Next(cfg, s, step);
    EntryDominates(s, step);
    StoreDominates(cfg.cacheSize, s.ix.cache, step.coil, EntryMark(s, step), Pending(s), s.disk);
    assert Pending(t) == Pending(s);
  }

  /** Adding a frame whose index is its coil's mark. */
  lemma FreshFrame(pending: set<Buffer>, disk: seq<FrameFile>, worker: Worker, mark: Mark, b: Buffer)
    requires NoClash(pending) && OthersUnwritten(pending, disk, worker)
    requires forall a :: a in pending && a.coil == b.coil ==> a.index < mark.Next(a.kind)
    requires forall f :: f in disk && f.coil == b.coil ==> f.index < mark.Next(KindOf(f.folder))
    requires b.index == mark.Next(b.kind)
    ensures NoClash(pending + {b}) && OthersUnwritten(pending + {b}, disk, worker)
    ensures forall a :: a in pending + {b} && a.coil == b.coil ==> a.index < Advance(mark, b.kind).Next(a.kind)
    ensures forall f :: f in disk && f.coil == b.coil ==> f.index < Advance(mark, b.kind).Next(KindOf(f.folder))
  {
  }

  /** The invariant of a state from facts about a larger set of frames. */
  lemma FrameFrom(all: set<Buffer>, t: State)
    requires t.ix.cache.Valid() && Pending(t) <= all
    requires NoClash(all) && Dominated(all, t.ix.cache.marks) && DiskDominated(t.disk, t.ix.cache.marks)
    requires OthersUnwritten(all, t.disk, t.worker) && WorkerOk(t.disk, t.worker) && Distinct(t.disk)
    ensures FrameInv(t)
  {
  }

  /** `t` is `s` after a reservation of `b` under `mark`. */
  ghost predicate AfterReservation(size: Pos, s: State, t: State, mark: Mark, b: Buffer) {
    && t.ix.cache == Store(size, s.ix.cache, b.coil, Advance(mark, b.kind))
    && t.disk == s.disk && t.worker == s.worker && t.handed == s.handed
    && Pending(t) <= Pending(s) + {b}
  }

  lemma ReservationMade(cfg: Config, s: State, step: Step)
    requires Enabled(s, step) && step.Reserve?
    ensures AfterReservation(cfg.cacheSize, s, Next(cfg, s, step), EntryMark(s, step), Reserved(s, step.kind, step.coil, step.bytes))
  {
    ReservePending(cfg, s, step);
  }

  lemma ReservationFrame(size: Pos, s: State, t: State, mark: Mark, b: Buffer)
    requires FrameInv(s) && HandedInv(s) && AfterReservation(size, s, t, mark, b)
    requires b.index == mark.Next(b.kind)
    requires forall a :: a in Pending(s) && a.coil == b.coil ==> a.index < mark.Next(a.kind)
    requires forall f :: f in s.disk && f.coil == b.coil ==> f.index < mark.Next(KindOf(f.folder))
    ensures FrameInv(t) && HandedInv(t)
  {
    FreshFrame(Pending(s), s.disk, s.worker, mark, b);
    var all := Pending(s) + {b};
    assert Dominated(all, s.ix.cache.marks - {b.coil});
    StoreDominates(size, s.ix.cache, b.coil, Advance(mark, b.kind), all, s.disk);
    FrameFrom(all, t);
  }

  lemma ReserveFrame(cfg: Config, s: State, step: Step)
    requires FrameInv(s) && HandedInv(s) && step.Reserve? && Enabled(s, step) && SafeMiss(s, step)
    ensures FrameInv(Next(cfg, s, step)) && HandedInv(Next(cfg, s, step))
  {
    EntryDominates(s, step);
    ReservationMade(cfg, s, step);
    ReservationFrame(cfg.cacheSize, s, Next(cfg, s, step), EntryMark(s, step), Reserved(s, step.kind, step.coil, step.bytes));
  }

  // ----- every step, every run -----

  ghost predicate OverwriteInv(cfg: Config, s: State) {
    DeliveryInv(cfg, s) && HandedInv(s) && FrameInv(s)
  }

  /** The step leaves alone everything the invariant speaks of, except pending frames. */
  lemma MovesOnly(cfg: Config, s: State, step: Step)
    requires Enabled(s, step) && (OfProducer(step) || OfStop(step))
    ensures var t := Next(cfg, s, step);
            t.ix == s.ix && t.disk == s.disk && t.worker == s.worker && t.handed == s.handed
  {
  }

  lemma FrameMoveStep(cfg: Config, s: State, step: Step)
    requires FrameInv(s) && HandedInv(s) && Enabled(s, step) && (OfProducer(step) || OfStop(step))
    ensures FrameInv(Next(cfg, s, step)) && HandedInv(Next(cfg, s, step))
  {
    MovesOnly(cfg, s, step);
    PendingShrinks(cfg, s, step);
    FrameShrinks(s, Next(cfg, s, step));
  }

  lemma FrameWorkerStep(cfg: Config, s: State, step: Step)
    requires FrameInv(s) && QueueInv(s) && IdInv(s) && HandedInv(s) && Enabled(s, step) && OfWorker(step)
    ensures FrameInv(Next(cfg, s, step)) && HandedInv(Next(cfg, s, step))
  {
    if step.Take? {
      TakeFrame(cfg, s);
    } else if step.SaveDone? {
      SaveDoneFrame(cfg, s);
    } else {
      WriteFrame(cfg, s, step.lands);
    }
  }

  lemma FrameStep(cfg: Config, s: State, step: Step)
    requires OverwriteInv(cfg, s) && Enabled(s, step) && SafeMiss(s, step)
    ensures FrameInv(Next(cfg, s, step)) && HandedInv(Next(cfg, s, step))
  {
    if step.Resume? {
      ResumeFrame(cfg, s, step);
    } else if step.Reserve? {
      ReserveFrame(cfg, s, step);
    } else if OfWorker(step) {
      FrameWorkerStep(cfg, s, step);
    } else {
      FrameMoveStep(cfg, s, step);
    }
  }

  ghost predicate SafeRun(cfg: Config, s: State, steps: seq<Step>)
    requires Runnable(cfg, s, steps)
    decreases |steps|
  {
    steps != [] ==> SafeMiss(s, steps[0]) && SafeRun(cfg, Next(cfg, s, steps[0]), steps[1..])
  }

  lemma {:induction false} OverwriteKept(cfg: Config, s: State, steps: seq<Step>)
    requires OverwriteInv(cfg, s) && Runnable(cfg, s, steps) && SafeRun(cfg, s, steps)
    ensures OverwriteInv(cfg, After(cfg, s, steps))
    decreases |steps|
  {
    if steps != [] {
      DeliveryStep(cfg, s, steps[0]);
      FrameStep(cfg, s, steps[0]);
      OverwriteKept(cfg, Next(cfg, s, steps[0]), steps[1..]);
    }
  }

  /** No file is ever written twice, files found at start included, in any run in which
      every cache miss is safe. */
  lemma NothingOverwritten(cfg: Config, disk: seq<FrameFile>, steps: seq<Step>)
    requires Distinct(disk) && Runnable(cfg, Initial(disk), steps) && SafeRun(cfg, Initial(disk), steps)
    ensures Distinct(After(cfg, Initial(disk), steps).disk)
  {
    InitialOverwriteInv(cfg, disk);
    OverwriteKept(cfg, Initial(disk), steps);
  }

  lemma InitialOverwriteInv(cfg: Config, disk: seq<FrameFile>)
    requires Distinct(disk)
    ensures OverwriteInv(cfg, Initial(disk)) && Pending(Initial(disk)) == {}
  {
  }

  // ----- evicting only idle coils -----

  /** No coil loses its cache entry while one of its frames is pending. */
  ghost predicate EvictsIdleCoils(s: State, t: State) {
    forall c :: c in s.ix.cache.marks && c !in t.ix.cache.marks ==> forall b :: b in Pending(s) ==> b.coil != c
  }

  ghost predicate CarefulRun(cfg: Config, s: State, steps: seq<Step>)
    requires Runnable(cfg, s, steps)
    decreases |steps|
  {
    steps != [] ==>
      && EvictsIdleCoils(s, Next(cfg, s, steps[0]))
      && CarefulRun(cfg, Next(cfg, s, steps[0]), steps[1..])
  }

  ghost predicate PendingCached(s: State) {
    forall b :: b in Pending(s) ==> b.coil in s.ix.cache.marks
  }

  lemma PendingCachedShrinks(s: State, t: State)
    requires PendingCached(s) && Pending(t) <= Pending(s) && EvictsIdleCoils(s, t)
    ensures PendingCached(t)
  {
  }

  lemma ReserveCaches(cfg: Config, s: State, step: Step)
    requires s.ix.cache.Valid() && step.Reserve?
    ensures step.coil in DoReserve(cfg, s, step.kind, step.coil, step.bytes).ix.cache.marks
  {
    StoreTouches(cfg.cacheSize, s.ix.cache, step.coil, Advance(EntryMark(s, step), step.kind));
  }

  lemma PendingCachedReserve(cfg: Config, s: State, step: Step)
    requires PendingCached(s) && s.ix.cache.Valid() && step.Reserve?
    requires EvictsIdleCoils(s, DoReserve(cfg, s, step.kind, step.coil, step.bytes))
    ensures PendingCached(DoReserve(cfg, s, step.kind, step.coil, step.bytes))
  {
    ReserveCaches(cfg, s, step);
    ReservePending(cfg, s, step);
    PendingCachedWith(s, DoReserve(cfg, s, step.kind, step.coil, step.bytes), Reserved(s, step.kind, step.coil, step.bytes));
  }

  lemma PendingCachedWith(s: State, t: State, b: Buffer)
    requires PendingCached(s) && Pending(t) <= Pending(s) + {b} && EvictsIdleCoils(s, t)
    requires b.coil in t.ix.cache.marks
    ensures PendingCached(t)
  {
  }

  lemma PendingCachedStep(cfg: Config, s: State, step: Step)
    requires PendingCached(s) && s.ix.cache.Valid() && Enabled(s, step) && EvictsIdleCoils(s, Next(cfg, s, step))
    ensures PendingCached(Next(cfg, s, step))
  {
    if step.Reserve? {
      PendingCachedReserve(cfg, s, step);
    } else {
      PendingShrinks(cfg, s, step);
      PendingCachedShrinks(s, Next(cfg, s, step));
    }
  }

  lemma {:induction false} CarefulIsSafe(cfg: Config, s: State, steps: seq<Step>)
    requires OverwriteInv(cfg, s) && PendingCached(s) && Runnable(cfg, s, steps) && CarefulRun(cfg, s, steps)
    ensures SafeRun(cfg, s, steps)
    decreases |steps|
  {
    if steps != [] {
      DeliveryStep(cfg, s, steps[0]);
      FrameStep(cfg, s, steps[0]);
      PendingCachedStep(cfg, s, steps[0]);
      CarefulIsSafe(cfg, Next(cfg, s, steps[0]), steps[1..]);
    }
  }

  /** In every run that evicts a coil only while none of its frames is pending, no frame
      file is written twice, whatever resumes, reservations, drops and failed saves occur. */
  lemma IdleEvictionNeverOverwrites(cfg: Config, disk: seq<FrameFile>, steps: seq<Step>)
    requires Distinct(disk) && Runnable(cfg, Initial(disk), steps) && CarefulRun(cfg, Initial(disk), steps)
    ensures Distinct(After(cfg, Initial(disk), steps).disk)
  {
    InitialOverwriteInv(cfg, disk);
    CarefulIsSafe(cfg, Initial(disk), steps);
    NothingOverwritten(cfg, disk, steps);
  }

  // ----- when an index is handed out a second time -----

  /** The index is already used by a frame that is pending or on disk. */
  ghost predicate Used(s: State, coil: Coil, kind: Kind, index: int) {
    || (exists b :: b in Pending(s) && b.coil == coil && b.kind == kind && b.index == index)
    || (exists f :: f in s.disk && f.coil == coil && KindOf(f.folder) == kind && f.index == index)
  }

  /** A reservation hands out a used index exactly when the coil has left the cache while a
      frame of it is pending at the very index the disk scan comes up with. */
  lemma ReusesIndexIff(s: State, step: Step)
    requires FrameInv(s) && step.Reserve?
    ensures Used(s, step.coil, step.kind, Reserved(s, step.kind, step.coil, step.bytes).index)
            <==> step.coil !in s.ix.cache.marks
                 && exists b :: b in Pending(s) && b.coil == step.coil && b.kind == step.kind
                                && b.index == Scan(s.disk, step.coil).Next(step.kind)
  {
    var index := Reserved(s, step.kind, step.coil, step.bytes).index;
    forall f | f in s.disk && f.coil == step.coil && KindOf(f.folder) == step.kind
      ensures f.index < index
    {
      ScanAboveDisk(s.disk, step.coil, f);
    }
  }

  lemma RunThree(cfg: Config, s: State, x: Step, y: Step, z: Step)
    requires Enabled(s, x) && Enabled(Next(cfg, s, x), y) && Enabled(Next(cfg, Next(cfg, s, x), y), z)
    ensures Runnable(cfg, s, [x, y, z])
    ensures After(cfg, s, [x, y, z]) == Next(cfg, Next(cfg, Next(cfg, s, x), y), z)
  {
    var s1 := Next(cfg, s, x);
    var s2 := Next(cfg, s1, y);
    RunFirst(cfg, s2, z, []);
    RunFirst(cfg, s1, y, [z] + []);
    RunFirst(cfg, s, x, [y] + ([z] + []));
    assert [x, y, z] == [x] + ([y] + ([z] + []));
  }

  /** A cache of a single coil, no byte budget. */
  const TINY := Config(1, 20, 0)

  /** One 3D frame goes from its reservation into the queue. */
  function Enqueue(coil: Coil): seq<Step> {
    [Reserve(Sick, coil, 0), Admit(Sick), PutDone]
  }

  /** The worker saves the frame at the head of the queue, its first file and no other. */
  const SAVE_FIRST: seq<Step> := [Take, WriteFile(true), SaveDone]

  lemma EnqueueRuns(s: State, coil: Coil)
    requires s.hand3d.Empty? && s.lock.Free? && s.running && |s.queue| < QUEUE_MAX && s.disk == []
    requires coil !in s.ix.cache.marks
    ensures Runnable(TINY, s, Enqueue(coil))
    ensures var t := After(TINY, s, Enqueue(coil));
            && t.hand3d.Empty? && t.lock.Free? && t.running && t.disk == [] && t.worker == s.worker
            && t.ix.cache == Store(1, s.ix.cache, coil, Mark(1, 0))
            && t.queue == s.queue + [Frame(Buffer(s.reserved, Sick, coil, 0, 0))]
  {
    RunThree(TINY, s, Reserve(Sick, coil, 0), Admit(Sick), PutDone);
  }

  lemma SaveRuns(s: State)
    requires s.worker.Waiting? && s.queue != [] && s.queue[0].Frame? && s.queue[0].b.kind.Sick?
    ensures Runnable(TINY, s, SAVE_FIRST)
    ensures var t, b := After(TINY, s, SAVE_FIRST), s.queue[0].b;
            && t.worker.Waiting? && t.queue == s.queue[1..]
            && t.disk == s.disk + [FrameFile(b.coil, Json, b.index)]
  {
    RunThree(TINY, s, Take, WriteFile(true), SaveDone);
  }

  lemma TouchTiny(keys: seq<Coil>, coil: Coil)
    requires |keys| <= 1 && coil !in keys
    ensures Touch(1, keys, coil) == [coil]
  {
    WithoutAbsent(keys, coil);
  }

  lemma StoreInTiny(table: OrderedMarks, coil: Coil, mark: Mark)
    requires table.Valid() && |table.keys| <= 1 && coil !in table.marks
    ensures Store(1, table, coil, mark).keys == [coil] && Store(1, table, coil, mark).marks.Keys == {coil}
    ensures Store(1, table, coil, mark).Valid()
  {
    StoreTouches(1, table, coil, mark);
    assert coil !in Elems(table.keys);
    TouchTiny(table.keys, coil);
    assert Elems([coil]) == {coil};
  }

  /** Three frames of three reservations, each taking index 0: the cache forgets in between. */
  const THREE_FRAMES: seq<Step> := Enqueue("a") + (Enqueue("b") + Enqueue("a"))

  /** A 3D frame of `coil` that got index 0. */
  predicate FirstFrame(item: Item, coil: Coil) {
    item.Frame? && item.b.kind.Sick? && item.b.coil == coil && item.b.index == 0
  }

  /** Ready for a frame of `next`: the other coil is cached and `n` frames are queued. */
  ghost predicate Primed(s: State, n: nat, cached: Coil, next: Coil) {
    && s.hand3d.Empty? && s.lock.Free? && s.running && |s.queue| == n && s.disk == []
    && s.ix.cache.Valid() && s.ix.cache.keys == [cached] && next !in s.ix.cache.marks
  }

  /** A frame of the other coil, which evicts what was cached. */
  lemma OneMore(s: State, n: nat, cached: Coil, next: Coil)
    requires Primed(s, n, cached, next) && n < QUEUE_MAX && cached != next
    ensures Runnable(TINY, s, Enqueue(next))
    ensures var t := After(TINY, s, Enqueue(next));
            && Primed(t, n + 1, next, cached) && t.worker == s.worker
            && t.queue[..n] == s.queue && FirstFrame(t.queue[n], next)
  {
    EnqueueRuns(s, next);
    StoreInTiny(s.ix.cache, next, Mark(1, 0));
  }

  lemma TwoMore(s: State)
    requires Primed(s, 1, "a", "b")
    ensures Runnable(TINY, s, Enqueue("b") + Enqueue("a"))
    ensures var t := After(TINY, s, Enqueue("b") + Enqueue("a"));
            && t.worker == s.worker && t.disk == [] && |t.queue| == 3 && t.queue[0] == s.queue[0]
            && FirstFrame(t.queue[1], "b") && FirstFrame(t.queue[2], "a")
  {
    assert "a"[0] != "b"[0];
    OneMore(s, 1, "a", "b");
    var t := After(TINY, s, Enqueue("b"));
    OneMore(t, 2, "b", "a");
    RunConcat(TINY, s, Enqueue("b"), Enqueue("a"));
    TwoKept(s.queue, t.queue, After(TINY, t, Enqueue("a")).queue);
  }

  lemma TwoKept(q0: seq<Item>, q1: seq<Item>, q2: seq<Item>)
    requires |q0| == 1 && |q1| == 2 && |q2| == 3 && q1[..1] == q0 && q2[..2] == q1
    ensures q2[0] == q0[0] && q2[1] == q1[1]
  {
    assert q1[..1][0] == q0[0] && q2[..2][0] == q1[0] && q2[..2][1] == q1[1];
  }

  lemma ThreeQueued()
    ensures Runnable(TINY, Initial([]), THREE_FRAMES)
    ensures var t := After(TINY, Initial([]), THREE_FRAMES);
            && t.worker.Waiting? && t.disk == [] && |t.queue| == 3
            && FirstFrame(t.queue[0], "a") && FirstFrame(t.queue[1], "b") && FirstFrame(t.queue[2], "a")
  {
    var s := Initial([]);
    EnqueueRuns(s, "a");
    StoreInTiny(s.ix.cache, "a", Mark(1, 0));
    var t := After(TINY, s, Enqueue("a"));
    assert "b"[0] != "a"[0];
    TwoMore(t);
    RunConcat(TINY, s, Enqueue("a"), Enqueue("b") + Enqueue("a"));
  }

  lemma ThreeSaved(s: State)
    requires s.worker.Waiting? && |s.queue| == 3 && s.disk == []
    requires forall i :: 0 <= i < 3 ==> s.queue[i].Frame? && s.queue[i].b.kind.Sick? && s.queue[i].b.index == 0
    ensures Runnable(TINY, s, SAVE_FIRST + (SAVE_FIRST + SAVE_FIRST))
    ensures After(TINY, s, SAVE_FIRST + (SAVE_FIRST + SAVE_FIRST)).disk
            == [FrameFile(s.queue[0].b.coil, Json, 0), FrameFile(s.queue[1].b.coil, Json, 0), FrameFile(s.queue[2].b.coil, Json, 0)]
  {
    SaveRuns(s);
    var s1 := After(TINY, s, SAVE_FIRST);
    SaveRuns(s1);
    var s2 := After(TINY, s1, SAVE_FIRST);
    SaveRuns(s2);
    RunConcat(TINY, s1, SAVE_FIRST, SAVE_FIRST);
    RunConcat(TINY, s, SAVE_FIRST, SAVE_FIRST + SAVE_FIRST);
  }

  /** The hypothesis on evictions cannot be dropped: with a cache of one coil, a frame of
      another coil evicts the entry of a frame still queued, the next frame of the first
      coil gets index 0 again, and its file is written over. */
  lemma EvictionCanOverwrite()
    ensures exists steps :: Runnable(TINY, Initial([]), steps) && !Distinct(After(TINY, Initial([]), steps).disk)
  {
    ThreeQueued();
    var s, saves := After(TINY, Initial([]), THREE_FRAMES), SAVE_FIRST + (SAVE_FIRST + SAVE_FIRST);
    ThreeSaved(s);
    RunConcat(TINY, Initial([]), THREE_FRAMES, saves);
    var disk := After(TINY, Initial([]), THREE_FRAMES + saves).disk;
    assert disk[0] == disk[2];
  }
}
