/** The capture-save pipeline of one camera (app/CapTrue/ImageDataSave.py) as a step
    system: a 3D and a 2D producer, callers of `stop`, coil switches and the save worker
    interleave freely; each step is one section that the source runs under one lock. */
module CapturePipeline {
  import opened Options
  import opened CaptureTypes
  import opened HighWater

  /** The environment settings: cache size, first index that is no longer saved, and the
      byte budget of the queue (0 switches the budget off). */
  datatype Config = Config(cacheSize: Pos, maxIndex: int, budget: nat)

  const QUEUE_MAX: nat := 30

  // ----- frame indices -----

  predicate Counted(f: FrameFile, coil: Coil, folders: seq<Folder>) {
    f.coil == coil && f.folder in folders
  }

  /** One more than the largest index found, 0 when none is found. */
  ghost predicate IsNextIndex(disk: seq<FrameFile>, coil: Coil, folders: seq<Folder>, next: int) {
    && (forall f :: f in disk && Counted(f, coil, folders) ==> f.index < next)
    && ((exists f :: f in disk && Counted(f, coil, folders) && f.index == next - 1)
        || (next == 0 && forall f :: f in disk ==> !Counted(f, coil, folders)))
  }

  /** The scan's running maximum: None before the first counted file. */
  function LargestIndex(disk: seq<FrameFile>, coil: Coil, folders: seq<Folder>): Option<int> {
    if disk == [] then None
    else
      var rest := LargestIndex(disk[..|disk| - 1], coil, folders);
      var f := disk[|disk| - 1];
      if !Counted(f, coil, folders) then rest
      else if rest.Some? && rest.value >= f.index then rest
      else Some(f.index)
  }

  function NextSavedIndex(disk: seq<FrameFile>, coil: Coil, folders: seq<Folder>): int {
    var largest := LargestIndex(disk, coil, folders);
    (if largest.Some? then largest.value else -1) + 1
  }

  lemma {:induction false} NextSavedIsNext(disk: seq<FrameFile>, coil: Coil, folders: seq<Folder>)
    ensures IsNextIndex(disk, coil, folders, NextSavedIndex(disk, coil, folders))
    ensures LargestIndex(disk, coil, folders).None? <==> forall f :: f in disk ==> !Counted(f, coil, folders)
  {
    if disk == [] {
    } else {
      var init, last := disk[..|disk| - 1], disk[|disk| - 1];
      assert disk == init + [last];
      NextSavedIsNext(init, coil, folders);
      if LargestIndex(init, coil, folders).Some? {
        var f :| f in init && Counted(f, coil, folders) && f.index == NextSavedIndex(init, coil, folders) - 1;
        assert f in disk;
      }
    }
  }

  lemma NextIndexUnique(disk: seq<FrameFile>, coil: Coil, folders: seq<Folder>, a: int, b: int)
    requires IsNextIndex(disk, coil, folders, a) && IsNextIndex(disk, coil, folders, b)
    ensures a == b
  {
  }

  /** The least index that is not below `high` and above every file of the coil in the folders:
      it is `high`, or follows such a file, or is 0 when there is none. */
  ghost predicate LeastAbove(disk: seq<FrameFile>, coil: Coil, folders: seq<Folder>, high: int, n: int) {
    && n >= high
    && (forall f :: f in disk && Counted(f, coil, folders) ==> f.index < n)
    && (n == high
        || (exists f :: f in disk && Counted(f, coil, folders) && f.index == n - 1)
        || (n == 0 && forall f :: f in disk ==> !Counted(f, coil, folders)))
  }

  lemma LargerIsLeastAbove(disk: seq<FrameFile>, coil: Coil, folders: seq<Folder>, high: int)
    ensures LeastAbove(disk, coil, folders, high, Max(high, NextSavedIndex(disk, coil, folders)))
  {
    NextSavedIsNext(disk, coil, folders);
  }

  /** What a scan of the disk says the next indices of `coil` are. */
  function Scan(disk: seq<FrameFile>, coil: Coil): Mark {
    Mark(NextSavedIndex(disk, coil, THREE_D_FOLDERS), NextSavedIndex(disk, coil, AREA_FOLDERS))
  }

  /** Everything guarded by `index_lock`. */
  datatype Indices = Indices(cache: OrderedMarks, active: Option<Coil>, saveIndex: int, saveIndex2d: int)

  function Max(a: int, b: int): int {
    if a >= b then a else b
  }

  /** The next indices of `coil` when a signal announces it. */
  function ResumeMark(ix: Indices, disk: seq<FrameFile>, coil: Coil): Mark {
    var high := if coil in ix.cache.marks then ix.cache.marks[coil] else Mark(0, 0);
    var scan := Scan(disk, coil);
    Mark(Max(high.next3d, scan.next3d), Max(high.next2d, scan.next2d))
  }

  function ResumeIndices(size: Pos, ix: Indices, disk: seq<FrameFile>, coil: Coil): Indices {
    var mark := ResumeMark(ix, disk, coil);
    Indices(Store(size, ix.cache, coil, mark), Some(coil), mark.next3d, mark.next2d)
  }

  /** The next indices of `coil` when a frame asks for one. */
  function ReserveMark(ix: Indices, disk: seq<FrameFile>, coil: Coil): Mark {
    if coil in ix.cache.marks then ix.cache.marks[coil] else Scan(disk, coil)
  }

  function Advance(mark: Mark, kind: Kind): Mark {
    if kind.Sick? then mark.(next3d := mark.next3d + 1) else mark.(next2d := mark.next2d + 1)
  }

  function ReserveIndices(size: Pos, ix: Indices, disk: seq<FrameFile>, coil: Coil, kind: Kind): Indices {
    var mark := Advance(ReserveMark(ix, disk, coil), kind);
    var stored := ix.(cache := Store(size, ix.cache, coil, mark));
    if ix.active == Some(coil)
    then stored.(saveIndex := mark.next3d, saveIndex2d := mark.next2d)
    else stored
  }

  // ----- the state -----

  datatype Item = Frame(b: Buffer) | Sentinel

  /** A producer between its reservation and taking `stop_lock`. */
  datatype Hand = Empty | Holding(b: Buffer)

  /** Who owns `stop_lock`: a producer waiting in `queue.put`, a `stop` call waiting to
      enqueue the sentinel, or one that has enqueued it and not yet set its flag. */
  datatype StopLock = Free | Putting(b: Buffer) | Stopping | Marking

  datatype Worker = Waiting | Saving(b: Buffer, todo: seq<Folder>) | Exited

  /** `disk` lists the frame files found at start followed by every file written since,
      so a file written twice shows up twice. `accepted`, `handed`, `touched`,
      `sentinels` and `reserved` record the past; no step reads them. */
  datatype State = State(
    ix: Indices,
    hand3d: Hand,
    hand2d: Hand,
    lock: StopLock,
    queue: seq<Item>,
    queuedBytes: int,
    running: bool,
    stopEnqueued: bool,
    worker: Worker,
    disk: seq<FrameFile>,
    dropped: nat,
    reserved: nat,
    accepted: seq<Buffer>,
    handed: seq<Buffer>,
    touched: seq<Coil>,
    sentinels: nat)
  {
    function HandOf(kind: Kind): Hand {
      if kind.Sick? then hand3d else hand2d
    }

    function WithHand(kind: Kind, h: Hand): State {
      if kind.Sick? then this.(hand3d := h) else this.(hand2d := h)
    }
  }

  function Initial(disk: seq<FrameFile>): State {
    State(Indices(EMPTY_MARKS, None, 0, 0), Empty, Empty, Free, [], 0, true, false, Waiting,
          disk, 0, 0, [], [], [], 0)
  }

  /** The files `save` writes for a frame, in order. Raw files may be switched off; that
      is a write that leaves no file. Area frames below index 5 are not written. */
  function FilesToSave(b: Buffer): seq<Folder> {
    if b.kind.Sick? then [Json, Lower3d, Lower2d]
    else if b.index >= 5 then [AreaFolder]
    else []
  }

  // ----- the steps -----

  datatype Step =
    | Resume(coil: Coil)
    | Reserve(kind: Kind, coil: Coil, bytes: nat)
    | Admit(kind: Kind)
    | PutDone
    | PutTimeout
    | StopBegin
    | StopPut
    | StopMark
    | StopTimeout
    | Take
    | WriteFile(lands: bool)
    | SaveDone

  /** Steps of a producer that change who holds a frame. */
  predicate OfProducer(step: Step) {
    step.Admit? || step.PutDone? || step.PutTimeout?
  }

  predicate OfWorker(step: Step) {
    step.Take? || step.WriteFile? || step.SaveDone?
  }

  predicate OfIndexLock(step: Step) {
    step.Resume? || step.Reserve?
  }

  predicate OfStop(step: Step) {
    step.StopBegin? || step.StopPut? || step.StopMark? || step.StopTimeout?
  }

  predicate Enabled(s: State, step: Step) {
    match step
    case Resume(_) => true
    case Reserve(kind, _, _) => s.HandOf(kind).Empty? && !(s.lock.Putting? && s.lock.b.kind == kind)
    case Admit(kind) => s.HandOf(kind).Holding? && s.lock.Free?
    case PutDone => s.lock.Putting? && |s.queue| < QUEUE_MAX
    case PutTimeout => s.lock.Putting? && |s.queue| >= QUEUE_MAX
    case StopBegin => s.lock.Free?
    case StopPut => s.lock.Stopping? && |s.queue| < QUEUE_MAX
    case StopMark => s.lock.Marking?
    case StopTimeout => s.lock.Stopping?
    case Take => s.worker.Waiting? && s.queue != []
    case WriteFile(_) => s.worker.Saving? && s.worker.todo != []
    case SaveDone => s.worker.Saving?
  }

  function DoResume(cfg: Config, s: State, coil: Coil): State {
    s.(ix := ResumeIndices(cfg.cacheSize, s.ix, s.disk, coil), touched := s.touched + [coil])
  }

  /** The frame a reservation makes. */
  function Reserved(s: State, kind: Kind, coil: Coil, bytes: nat): Buffer {
    Buffer(s.reserved, kind, coil, ReserveMark(s.ix, s.disk, coil).Next(kind), bytes)
  }

  /** The frame waits in its producer's hand, or is past the limit. */
  function Hold(cfg: Config, s: State, b: Buffer): State {
    var t := s.(touched := s.touched + [b.coil], reserved := s.reserved + 1);
    if b.index < cfg.maxIndex then t.WithHand(b.kind, Holding(b)) else t.(dropped := t.dropped + 1)
  }

  function DoReserve(cfg: Config, s: State, kind: Kind, coil: Coil, bytes: nat): State {
    Hold(cfg, s.(ix := ReserveIndices(cfg.cacheSize, s.ix, s.disk, coil, kind)), Reserved(s, kind, coil, bytes))
  }

  /** The memory budget refuses a frame. */
  predicate Refused(cfg: Config, queuedBytes: int, bytes: nat) {
    cfg.budget > 0 && bytes > 0 && queuedBytes > 0 && queuedBytes + bytes > cfg.budget
  }

  function DoAdmit(cfg: Config, s: State, kind: Kind): State
    requires s.HandOf(kind).Holding?
  {
    var b := s.HandOf(kind).b;
    var t := s.WithHand(kind, Empty);
    if !s.running || Refused(cfg, s.queuedBytes, b.bytes) then t.(dropped := t.dropped + 1)
    else t.(lock := Putting(b), queuedBytes := t.queuedBytes + b.bytes)
  }

  function DoPutDone(s: State): State
    requires s.lock.Putting?
  {
    s.(queue := s.queue + [Frame(s.lock.b)], accepted := s.accepted + [s.lock.b], lock := Free)
  }

  function Released(queuedBytes: int, bytes: nat): int {
    Max(queuedBytes - bytes, 0)
  }

  function DoPutTimeout(s: State): State
    requires s.lock.Putting?
  {
    s.(queuedBytes := Released(s.queuedBytes, s.lock.b.bytes), dropped := s.dropped + 1, lock := Free)
  }

  function DoStopBegin(s: State): State {
    s.(running := false, lock := if s.stopEnqueued then Free else Stopping)
  }

  function DoStopPut(s: State): State {
    s.(queue := s.queue + [Sentinel], sentinels := s.sentinels + 1, lock := Marking)
  }

  function DoTake(s: State): State
    requires s.queue != []
  {
    match s.queue[0]
    case Sentinel => s.(queue := s.queue[1..], worker := Exited, running := false)
    case Frame(b) => s.(queue := s.queue[1..], worker := Saving(b, FilesToSave(b)), handed := s.handed + [b])
  }

  function DoWriteFile(s: State, lands: bool): State
    requires s.worker.Saving? && s.worker.todo != []
  {
    var b, folder := s.worker.b, s.worker.todo[0];
    s.(worker := Saving(b, s.worker.todo[1..]),
       disk := if lands then s.disk + [FrameFile(b.coil, folder, b.index)] else s.disk)
  }

  function DoSaveDone(s: State): State
    requires s.worker.Saving?
  {
    s.(worker := Waiting, queuedBytes := Released(s.queuedBytes, s.worker.b.bytes))
  }

  function Next(cfg: Config, s: State, step: Step): State
    requires Enabled(s, step)
  {
    match step
    case Resume(coil) => DoResume(cfg, s, coil)
    case Reserve(kind, coil, bytes) => DoReserve(cfg, s, kind, coil, bytes)
    case Admit(kind) => DoAdmit(cfg, s, kind)
    case PutDone => DoPutDone(s)
    case PutTimeout => DoPutTimeout(s)
    case StopBegin => DoStopBegin(s)
    case StopPut => DoStopPut(s)
    case StopMark => s.(stopEnqueued := true, lock := Free)
    case StopTimeout => s.(lock := Free)
    case Take => DoTake(s)
    case WriteFile(lands) => DoWriteFile(s, lands)
    case SaveDone => DoSaveDone(s)
  }

  /** `steps` can be taken one after another from `s`. */
  predicate Runnable(cfg: Config, s: State, steps: seq<Step>)
    decreases |steps|
  {
    steps == [] || (Enabled(s, steps[0]) && Runnable(cfg, Next(cfg, s, steps[0]), steps[1..]))
  }

  function After(cfg: Config, s: State, steps: seq<Step>): State
    requires Runnable(cfg, s, steps)
    decreases |steps|
  {
    if steps == [] then s else After(cfg, Next(cfg, s, steps[0]), steps[1..])
  }

  lemma {:induction false} RunConcat(cfg: Config, s: State, a: seq<Step>, b: seq<Step>)
    requires Runnable(cfg, s, a) && Runnable(cfg, After(cfg, s, a), b)
    ensures Runnable(cfg, s, a + b)
    ensures After(cfg, s, a + b) == After(cfg, After(cfg, s, a), b)
    decreases |a|
  {
    if a == [] {
      assert a + b == b;
    } else {
      assert (a + b)[1..] == a[1..] + b;
      RunConcat(cfg, Next(cfg, s, a[0]), a[1..], b);
    }
  }

  lemma RunFirst(cfg: Config, s: State, x: Step, rest: seq<Step>)
    requires Enabled(s, x) && Runnable(cfg, Next(cfg, s, x), rest)
    ensures Runnable(cfg, s, [x] + rest)
    ensures After(cfg, s, [x] + rest) == After(cfg, Next(cfg, s, x), rest)
  {
    assert ([x] + rest)[1..] == rest;
  }

  lemma RunExtends(cfg: Config, s: State, steps: seq<Step>, step: Step)
    requires Runnable(cfg, s, steps) && Enabled(After(cfg, s, steps), step)
    ensures Runnable(cfg, s, steps + [step])
    ensures After(cfg, s, steps + [step]) == Next(cfg, After(cfg, s, steps), step)
  {
    var t := After(cfg, s, steps);
    assert [step][1..] == [];
    var u := Next(cfg, t, step);
    assert Runnable(cfg, u, []) && After(cfg, u, []) == u;
    assert Runnable(cfg, t, [step]) && After(cfg, t, [step]) == u;
    RunConcat(cfg, s, steps, [step]);
  }

  // ----- what the index lock's steps do -----

  /** The mark a coil is cached under, 0 and 0 if it is not. */
  function HighOf(ix: Indices, coil: Coil): Mark {
    if coil in ix.cache.marks then ix.cache.marks[coil] else Mark(0, 0)
  }

  /** After a coil has been announced, each of its two counters is the least index not below
      its cached mark and above its files of that kind; both are cached and shown, and the
      coil is the active one. */
  lemma ResumeIsLeast(cfg: Config, s: State, coil: Coil)
    requires s.ix.cache.Valid()
    ensures var t, high := Next(cfg, s, Resume(coil)).ix, HighOf(s.ix, coil);
            && t.active == Some(coil)
            && LeastAbove(s.disk, coil, THREE_D_FOLDERS, high.next3d, t.saveIndex)
            && LeastAbove(s.disk, coil, AREA_FOLDERS, high.next2d, t.saveIndex2d)
            && t.cache.Valid() && coil in t.cache.marks && t.cache.marks[coil] == Mark(t.saveIndex, t.saveIndex2d)
  {
    LargerIsLeastAbove(s.disk, coil, THREE_D_FOLDERS, HighOf(s.ix, coil).next3d);
    LargerIsLeastAbove(s.disk, coil, AREA_FOLDERS, HighOf(s.ix, coil).next2d);
    StoreTouches(cfg.cacheSize, s.ix.cache, coil, ResumeMark(s.ix, s.disk, coil));
  }

  lemma ScanIsNext(disk: seq<FrameFile>, coil: Coil, kind: Kind)
    ensures IsNextIndex(disk, coil, FoldersOf(kind), Scan(disk, coil).Next(kind))
  {
    NextSavedIsNext(disk, coil, FoldersOf(kind));
  }

  /** The index a reservation hands out: the coil's cached counter of the kind, or what the
      disk says; only that counter moves, by one, and the other stays at its mark or at what
      the disk says. */
  lemma ReserveIsNext(cfg: Config, s: State, kind: Kind, coil: Coil, bytes: nat)
    requires s.ix.cache.Valid()
    ensures var t, index := DoReserve(cfg, s, kind, coil, bytes).ix, Reserved(s, kind, coil, bytes).index;
            var other := if kind.Sick? then Area else Sick;
            && t.active == s.ix.active
            && t.cache.Valid() && coil in t.cache.marks && t.cache.marks[coil].Next(kind) == index + 1
            && (coil in s.ix.cache.marks ==>
                  index == s.ix.cache.marks[coil].Next(kind)
                  && t.cache.marks[coil].Next(other) == s.ix.cache.marks[coil].Next(other))
            && (coil !in s.ix.cache.marks ==>
                  IsNextIndex(s.disk, coil, FoldersOf(kind), index)
                  && IsNextIndex(s.disk, coil, FoldersOf(other), t.cache.marks[coil].Next(other)))
  {
    StoreTouches(cfg.cacheSize, s.ix.cache, coil, Advance(ReserveMark(s.ix, s.disk, coil), kind));
    ScanIsNext(s.disk, coil, Sick);
    ScanIsNext(s.disk, coil, Area);
  }

  /** A frame that got an index below the limit waits in its producer's hand; any other is
      counted as dropped. Nothing but the indices changes besides. */
  lemma ReserveHoldsOrDrops(cfg: Config, s: State, kind: Kind, coil: Coil, bytes: nat)
    requires Enabled(s, Reserve(kind, coil, bytes))
    ensures var t, b := Next(cfg, s, Reserve(kind, coil, bytes)), Reserved(s, kind, coil, bytes);
            && b.kind == kind && b.coil == coil && b.bytes == bytes && b.id == s.reserved && t.reserved == s.reserved + 1
            && t == s.(ix := t.ix, touched := t.touched, reserved := t.reserved, dropped := t.dropped,
                       hand3d := t.hand3d, hand2d := t.hand2d)
            && (b.index < cfg.maxIndex ==> t.HandOf(kind) == Holding(b) && t.dropped == s.dropped)
            && (b.index >= cfg.maxIndex ==> t.HandOf(kind) == Empty && t.dropped == s.dropped + 1)
            && (kind.Sick? ==> t.hand2d == s.hand2d) && (kind.Area? ==> t.hand3d == s.hand3d)
  {
  }

  // ----- a whole save -----

  /** The files a frame is saved in when every write succeeds. */
  function FilesOf(b: Buffer): seq<FrameFile> {
    if b.kind.Sick? then
      [FrameFile(b.coil, Json, b.index), FrameFile(b.coil, Lower3d, b.index), FrameFile(b.coil, Lower2d, b.index)]
    else if b.index >= 5 then [FrameFile(b.coil, AreaFolder, b.index)]
    else []
  }

  /** Writes until none is left to do. */
  lemma {:induction false} AllWritten(cfg: Config, s: State) returns (writes: seq<Step>)
    requires s.worker.Saving?
    ensures Runnable(cfg, s, writes) && forall i :: 0 <= i < |writes| ==> writes[i] == WriteFile(true)
    ensures |writes| == |s.worker.todo|
    ensures After(cfg, s, writes) == s.(worker := Saving(s.worker.b, []), disk := s.disk + Written(s.worker.b, s.worker.todo))
    decreases |s.worker.todo|
  {
    if s.worker.todo == [] {
      assert s.disk + [] == s.disk;
      return [];
    }
    var t := Next(cfg, s, WriteFile(true));
    writes := AllWritten(cfg, t);
    RunFirst(cfg, s, WriteFile(true), writes);
    writes := [WriteFile(true)] + writes;
    assert s.disk + Written(s.worker.b, s.worker.todo) == t.disk + Written(s.worker.b, t.worker.todo);
  }

  function Written(b: Buffer, todo: seq<Folder>): seq<FrameFile> {
    if todo == [] then [] else [FrameFile(b.coil, todo[0], b.index)] + Written(b, todo[1..])
  }

  lemma WrittenAll(b: Buffer)
    ensures Written(b, FilesToSave(b)) == FilesOf(b)
  {
    var todo := FilesToSave(b);
    if b.kind.Sick? {
      assert todo[1..] == [Lower3d, Lower2d] && [Lower3d, Lower2d][1..] == [Lower2d] && [Lower2d][1..] == [];
      assert Written(b, [Lower2d]) == [FrameFile(b.coil, Lower2d, b.index)];
      assert Written(b, [Lower3d, Lower2d]) == [FrameFile(b.coil, Lower3d, b.index)] + Written(b, [Lower2d]);
    } else if b.index >= 5 {
      assert todo[1..] == [];
    }
  }

  /** A frame taken and saved without a failing write leaves exactly its files, in order, and
      the worker waits again. */
  lemma WholeSave(cfg: Config, s: State) returns (writes: seq<Step>)
    requires Enabled(s, Take) && s.queue[0].Frame?
    ensures forall i :: 0 <= i < |writes| ==> writes[i] == WriteFile(true)
    ensures Runnable(cfg, s, [Take] + (writes + [SaveDone]))
    ensures var t, b := After(cfg, s, [Take] + (writes + [SaveDone])), s.queue[0].b;
            && t.disk == s.disk + FilesOf(b) && t.worker.Waiting? && t.queue == s.queue[1..]
            && t.handed == s.handed + [b] && |writes| == |FilesOf(b)|
  {
    var b, u := s.queue[0].b, Next(cfg, s, Take);
    writes := AllWritten(cfg, u);
    WrittenAll(b);
    RunExtends(cfg, u, writes, SaveDone);
    RunFirst(cfg, s, Take, writes + [SaveDone]);
  }
}
