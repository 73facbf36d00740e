/** The object behind the pipeline. Every method that runs under one lock does exactly one
    step of the step system, and the blocking calls (`put`, `stop`, the worker's `run`)
    are runs of it, whatever the other threads do while they wait. */
module ImageDataSaveModel {
  import opened Options
  import opened CaptureTypes
  import opened HighWater
  import opened CapturePipeline
  import opened CaptureDelivery

  lemma {:induction false} WithoutAppended(s: seq<Coil>, x: Coil)
    ensures Without(s + [x], x) == Without(s, x)
  {
    if s != [] {
      WithoutAppended(s[1..], x);
      assert (s + [x])[1..] == s[1..] + [x];
    }
  }

  /** Python's `max(indices, default=-1)`. */
  function Largest(indices: seq<int>): (m: int)
    ensures forall k :: k in indices ==> k <= m
    ensures if indices == [] then m == -1 else m in indices
  {
    if indices == [] then -1
    else if |indices| == 1 then indices[0]
    else
      var rest := Largest(indices[1..]);
      assert indices == [indices[0]] + indices[1..];
      if indices[0] >= rest then indices[0] else rest
  }

  /** While a stop call waits, no other thread can touch its lock or flag. */
  lemma {:induction false} StopWaits(cfg: Config, s: State, steps: seq<Step>)
    requires s.lock.Stopping? && Runnable(cfg, s, steps)
    requires forall step :: step in steps ==> !OfStop(step)
    ensures After(cfg, s, steps).lock.Stopping? && After(cfg, s, steps).stopEnqueued == s.stopEnqueued
    decreases |steps|
  {
    if steps != [] {
      assert !OfStop(steps[0]);
      StopWaits(cfg, Next(cfg, s, steps[0]), steps[1..]);
    }
  }

  /** While the worker waits, no other thread touches what it is doing. */
  lemma {:induction false} WorkerWaits(cfg: Config, s: State, steps: seq<Step>)
    requires Runnable(cfg, s, steps)
    requires forall step :: step in steps ==> !OfWorker(step)
    ensures After(cfg, s, steps).worker == s.worker
    decreases |steps|
  {
    if steps != [] {
      assert !OfWorker(steps[0]);
      WorkerWaits(cfg, Next(cfg, s, steps[0]), steps[1..]);
    }
  }

  /** Nobody but the worker takes frames out of the queue. */
  lemma {:induction false} QueueWaits(cfg: Config, s: State, steps: seq<Step>)
    requires Runnable(cfg, s, steps)
    requires forall step :: step in steps ==> !OfWorker(step)
    ensures s.queue <= After(cfg, s, steps).queue && After(cfg, s, steps).handed == s.handed
    decreases |steps|
  {
    if steps != [] {
      assert !OfWorker(steps[0]);
      QueueWaits(cfg, Next(cfg, s, steps[0]), steps[1..]);
    }
  }

  /** While a producer waits for its turn, its frame stays in its hand. */
  lemma {:induction false} HandWaits(cfg: Config, s: State, kind: Kind, steps: seq<Step>)
    requires s.HandOf(kind).Holding? && Runnable(cfg, s, steps)
    requires Step.Admit(kind) !in steps
    ensures After(cfg, s, steps).HandOf(kind) == s.HandOf(kind)
    decreases |steps|
  {
    if steps != [] {
      HandWaits(cfg, Next(cfg, s, steps[0]), kind, steps[1..]);
    }
  }

  /** While a producer waits for room in the queue, it keeps the lock. */
  lemma {:induction false} PutWaits(cfg: Config, s: State, steps: seq<Step>)
    requires s.lock.Putting? && Runnable(cfg, s, steps)
    requires forall step :: step in steps ==> !step.PutDone? && !step.PutTimeout?
    ensures After(cfg, s, steps).lock == s.lock
    decreases |steps|
  {
    if steps != [] {
      assert !steps[0].PutDone? && !steps[0].PutTimeout?;
      PutWaits(cfg, Next(cfg, s, steps[0]), steps[1..]);
    }
  }

  ghost predicate Accepted(s: State, id: nat) {
    exists i :: 0 <= i < |s.accepted| && s.accepted[i].id == id
  }

  /** A frame that is held has not been accepted, nor has one that is dropped. */
  lemma HeldNotAccepted(cfg: Config, s: State, kind: Kind)
    requires DeliveryInv(cfg, s)
    ensures s.HandOf(kind).Holding? ==> !Accepted(s, s.HandOf(kind).b.id)
    ensures s.lock.Putting? ==> !Accepted(s, s.lock.b.id)
    ensures !Accepted(s, s.reserved)
  {
  }

  type Pipeline = CapturePipeline.State

  /** One file of a frame: what the others do before it, and whether it reaches the disk. */
  datatype Write = Write(before: seq<Step>, lands: bool)

  /** One turn of the worker: what the others do while it waits, the writes of its frame, and
      what they do before the save ends. */
  datatype Round = Round(before: seq<Step>, writes: seq<Write>, after: seq<Step>)

  class ImageDataSave {
    const cfg: Config
    var highWaterKeys: seq<Coil>
    var highWaterMarks: map<Coil, Mark>
    var activeCoilId: Option<Coil>
    var saveIndex: int
    var saveIndex2d: int
    var hand3d: Hand
    var hand2d: Hand
    var stopLock: StopLock
    var queue: seq<Item>
    var queuedBytes: int
    var running: bool
    var stopSignalEnqueued: bool
    var worker: Worker
    var disk: seq<FrameFile>
    var droppedBuffers: nat
    var reserved: nat
    ghost var accepted: seq<Buffer>
    ghost var handed: seq<Buffer>
    ghost var touched: seq<Coil>
    ghost var sentinels: nat

    ghost function Table(): OrderedMarks
      reads this
    {
      OrderedMarks(highWaterKeys, highWaterMarks)
    }

    ghost function Ix(): Indices
      reads this
    {
      Indices(Table(), activeCoilId, saveIndex, saveIndex2d)
    }

    ghost function State(): Pipeline
      reads this
    {
      Pipeline.State(Ix(), hand3d, hand2d, stopLock, queue, queuedBytes, running, stopSignalEnqueued, worker,
                  disk, droppedBuffers, reserved, accepted, handed, touched, sentinels)
    }

    constructor (cfg: Config, disk: seq<FrameFile>)
      ensures State() == Initial(disk) && this.cfg == cfg
    {
      this.cfg := cfg;
      highWaterKeys, highWaterMarks, activeCoilId := [], map[], None;
      saveIndex, saveIndex2d := 0, 0;
      hand3d, hand2d, stopLock, queue, worker := Empty, Empty, Free, [], Waiting;
      queuedBytes, running, stopSignalEnqueued := 0, true, false;
      this.disk := disk;
      droppedBuffers, reserved, sentinels := 0, 0, 0;
      accepted, handed, touched := [], [], [];
    }

    // ----- under index_lock -----

    /** The scan of the folders of one coil. */
    method NextSaved(coil: Coil, folders: seq<Folder>) returns (next: int)
      ensures next == NextSavedIndex(disk, coil, folders)
    {
      var indices: seq<int> := [];
      for i := 0 to |folders|
        invariant forall k :: k in indices ==>
          exists f :: f in disk && Counted(f, coil, folders) && f.index == k
        invariant forall f :: f in disk && f.coil == coil && f.folder in folders[..i] ==> f.index in indices
      {
        for j := 0 to |disk|
          invariant forall k :: k in indices ==>
            exists f :: f in disk && Counted(f, coil, folders) && f.index == k
          invariant forall f :: f in disk && f.coil == coil && f.folder in folders[..i] ==> f.index in indices
          invariant forall f :: f in disk[..j] && f.coil == coil && f.folder == folders[i] ==> f.index in indices
        {
          var f := disk[j];
          if f.coil == coil && f.folder == folders[i] {
            indices := indices + [f.index];
          }
        }
        assert disk[..|disk|] == disk;
      }
      assert folders[..|folders|] == folders;
      next := Largest(indices) + 1;
      assert forall f :: f in disk && Counted(f, coil, folders) ==> f.index in indices;
      assert IsNextIndex(disk, coil, folders, next);
      NextSavedIsNext(disk, coil, folders);
      NextIndexUnique(disk, coil, folders, next, NextSavedIndex(disk, coil, folders));
    }

    method StoreHighWater(coil: Coil, mark: Mark)
      modifies this`highWaterKeys, this`highWaterMarks
      ensures Table() == Store(cfg.cacheSize, old(Table()), coil, mark)
    {
      WithoutAppended(highWaterKeys, coil);
      if coil !in highWaterMarks {
        highWaterKeys := highWaterKeys + [coil];
      }
      highWaterMarks := highWaterMarks[coil := mark];
      highWaterKeys := Without(highWaterKeys, coil) + [coil];
      while |highWaterKeys| > cfg.cacheSize
        invariant Trim(cfg.cacheSize, Table()) == Store(cfg.cacheSize, old(Table()), coil, mark)
      {
        highWaterMarks := highWaterMarks - {highWaterKeys[0]};
        highWaterKeys := highWaterKeys[1..];
      }
    }

    method ResumeCaptureIndices(coil: Coil) returns (next3d: int, next2d: int)
      modifies this`highWaterKeys, this`highWaterMarks, this`saveIndex, this`saveIndex2d, this`activeCoilId
      ensures Ix() == ResumeIndices(cfg.cacheSize, old(Ix()), disk, coil)
      ensures Mark(next3d, next2d) == ResumeMark(old(Ix()), disk, coil)
      ensures LeastAbove(disk, coil, THREE_D_FOLDERS, HighOf(old(Ix()), coil).next3d, next3d)
      ensures LeastAbove(disk, coil, AREA_FOLDERS, HighOf(old(Ix()), coil).next2d, next2d)
      ensures saveIndex == next3d && saveIndex2d == next2d && activeCoilId == Some(coil)
    {
      LargerIsLeastAbove(disk, coil, THREE_D_FOLDERS, HighOf(Ix(), coil).next3d);
      LargerIsLeastAbove(disk, coil, AREA_FOLDERS, HighOf(Ix(), coil).next2d);
      var saved3d := NextSaved(coil, THREE_D_FOLDERS);
      var saved2d := NextSaved(coil, AREA_FOLDERS);
      var high := if coil in highWaterMarks then highWaterMarks[coil] else Mark(0, 0);
      saveIndex := Max(high.next3d, saved3d);
      saveIndex2d := Max(high.next2d, saved2d);
      StoreHighWater(coil, Mark(saveIndex, saveIndex2d));
      activeCoilId := Some(coil);
      return saveIndex, saveIndex2d;
    }

    /** A signal announces a coil. */
    method SwitchCoil(coil: Coil)
      modifies this
      ensures State() == DoResume(cfg, old(State()), coil)
    {
      var _, _ := ResumeCaptureIndices(coil);
      touched := touched + [coil];
    }

    method ReserveCaptureIndex(coil: Coil, kind: Kind) returns (index: int)
      modifies this`highWaterKeys, this`highWaterMarks, this`saveIndex, this`saveIndex2d
      ensures Ix() == ReserveIndices(cfg.cacheSize, old(Ix()), disk, coil, kind)
      ensures index == ReserveMark(old(Ix()), disk, coil).Next(kind)
      ensures coil in old(highWaterMarks) ==> index == old(highWaterMarks)[coil].Next(kind)
      ensures coil !in old(highWaterMarks) ==> IsNextIndex(disk, coil, FoldersOf(kind), index)
    {
      ScanIsNext(disk, coil, kind);
      var high: Mark;
      if coil in highWaterMarks {
        high := highWaterMarks[coil];
      } else {
        var saved3d := NextSaved(coil, THREE_D_FOLDERS);
        var saved2d := NextSaved(coil, AREA_FOLDERS);
        high := Mark(saved3d, saved2d);
      }
      var next3d, next2d := high.next3d, high.next2d;
      if kind.Area? {
        index := next2d;
        next2d := next2d + 1;
      } else {
        index := next3d;
        next3d := next3d + 1;
      }
      StoreHighWater(coil, Mark(next3d, next2d));
      if activeCoilId == Some(coil) {
        saveIndex := next3d;
        saveIndex2d := next2d;
      }
    }

    /** The first half of `put`: the frame gets its index or is past the limit. */
    method Index(kind: Kind, coil: Coil, bytes: nat)
      modifies this
      ensures State() == DoReserve(cfg, old(State()), kind, coil, bytes)
    {
      var index := ReserveCaptureIndex(coil, kind);
      HoldFrame(Buffer(reserved, kind, coil, index, bytes));
    }

    method HoldFrame(b: Buffer)
      modifies this
      ensures State() == Hold(cfg, old(State()), b)
    {
      reserved := reserved + 1;
      touched := touched + [b.coil];
      if b.index >= cfg.maxIndex {
        droppedBuffers := droppedBuffers + 1;
      } else if b.kind.Sick? {
        hand3d := Holding(b);
      } else {
        hand2d := Holding(b);
      }
    }

    // ----- under queue_memory_lock -----

    method ReserveQueueMemory(bytes: nat) returns (admitted: bool)
      modifies this`queuedBytes
      ensures admitted <==> !Refused(cfg, old(queuedBytes), bytes)
      ensures admitted <==> cfg.budget == 0 || bytes == 0 || old(queuedBytes) <= 0 || old(queuedBytes) + bytes <= cfg.budget
      ensures queuedBytes == if admitted then old(queuedBytes) + bytes else old(queuedBytes)
    {
      if cfg.budget > 0 && bytes > 0 && queuedBytes > 0 && queuedBytes + bytes > cfg.budget {
        return false;
      }
      queuedBytes := queuedBytes + bytes;
      return true;
    }

    method ReleaseQueueMemory(bytes: nat)
      modifies this`queuedBytes
      ensures queuedBytes == Released(old(queuedBytes), bytes)
      ensures queuedBytes >= 0 && (old(queuedBytes) >= bytes ==> queuedBytes == old(queuedBytes) - bytes)
      ensures old(queuedBytes) < bytes ==> queuedBytes == 0
    {
      queuedBytes := Max(queuedBytes - bytes, 0);
    }

    // ----- under stop_lock -----

    method Admit(kind: Kind)
      requires Enabled(State(), Step.Admit(kind))
      modifies this
      ensures State() == DoAdmit(cfg, old(State()), kind)
    {
      var buffer;
      if kind.Sick? {
        buffer := hand3d.b;
        hand3d := Empty;
      } else {
        buffer := hand2d.b;
        hand2d := Empty;
      }
      if !running {
        droppedBuffers := droppedBuffers + 1;
        return;
      }
      var admitted := ReserveQueueMemory(buffer.bytes);
      if !admitted {
        droppedBuffers := droppedBuffers + 1;
        return;
      }
      stopLock := Putting(buffer);
    }

    method FinishPut()
      requires stopLock.Putting?
      modifies this
      ensures State() == DoPutDone(old(State()))
      ensures queue == old(queue) + [Frame(old(stopLock).b)] && accepted == old(accepted) + [old(stopLock).b]
      ensures stopLock == Free && droppedBuffers == old(droppedBuffers) && queuedBytes == old(queuedBytes)
    {
      queue := queue + [Frame(stopLock.b)];
      accepted := accepted + [stopLock.b];
      stopLock := Free;
    }

    method FailPut()
      requires stopLock.Putting?
      modifies this
      ensures State() == DoPutTimeout(old(State()))
      ensures queue == old(queue) && accepted == old(accepted) && stopLock == Free
      ensures droppedBuffers == old(droppedBuffers) + 1
      ensures old(queuedBytes) >= old(stopLock).b.bytes ==> queuedBytes == old(queuedBytes) - old(stopLock).b.bytes
    {
      ReleaseQueueMemory(stopLock.b.bytes);
      droppedBuffers := droppedBuffers + 1;
      stopLock := Free;
    }

    // ----- the worker -----

    method TakeItem()
      requires queue != []
      modifies this
      ensures State() == DoTake(old(State()))
      ensures queue == old(queue)[1..]
      ensures old(queue)[0].Sentinel? ==> worker == Exited && !running && handed == old(handed)
      ensures old(queue)[0].Frame? ==> worker.Saving? && worker.b == old(queue)[0].b && running == old(running)
                                       && handed == old(handed) + [old(queue)[0].b]
    {
      var item := queue[0];
      queue := queue[1..];
      if item.Sentinel? {
        worker := Exited;
        running := false;
      } else {
        worker := Saving(item.b, FilesToSave(item.b));
        handed := handed + [item.b];
      }
    }

    method WriteNext(lands: bool)
      requires worker.Saving? && worker.todo != []
      modifies this
      ensures State() == DoWriteFile(old(State()), lands)
      ensures var b, folder := old(worker).b, old(worker).todo[0];
              && worker == Saving(b, old(worker).todo[1..])
              && disk == if lands then old(disk) + [FrameFile(b.coil, folder, b.index)] else old(disk)
    {
      if lands {
        disk := disk + [FrameFile(worker.b.coil, worker.todo[0], worker.b.index)];
      }
      worker := Saving(worker.b, worker.todo[1..]);
    }

    method EndSave()
      requires worker.Saving?
      modifies this
      ensures State() == DoSaveDone(old(State()))
      ensures worker == Waiting && disk == old(disk)
      ensures old(queuedBytes) >= old(worker).b.bytes ==> queuedBytes == old(queuedBytes) - old(worker).b.bytes
    {
      ReleaseQueueMemory(worker.b.bytes);
      worker := Waiting;
    }

    // ----- any step, any run -----

    method Perform(step: Step)
      requires Enabled(State(), step)
      modifies this
      ensures State() == Next(cfg, old(State()), step)
    {
      match step {
        case Resume(coil) => SwitchCoil(coil);
        case Reserve(kind, coil, bytes) => Index(kind, coil, bytes);
        case Admit(kind) => Admit(kind);
        case PutDone => FinishPut();
        case PutTimeout => FailPut();
        case StopBegin => running := false; stopLock := if stopSignalEnqueued then Free else Stopping;
        case StopPut => queue := queue + [Sentinel]; sentinels := sentinels + 1; stopLock := Marking;
        case StopMark => stopSignalEnqueued := true; stopLock := Free;
        case StopTimeout => stopLock := Free;
        case Take => TakeItem();
        case WriteFile(lands) => WriteNext(lands);
        case SaveDone => EndSave();
      }
    }

    /** What the other threads do meanwhile: of the steps proposed, in order, those that
        can be taken and are not this thread's own. */
    method Others(proposals: seq<Step>, own: Step -> bool) returns (ghost trace: seq<Step>)
      modifies this
      ensures Runnable(cfg, old(State()), trace) && State() == After(cfg, old(State()), trace)
      ensures forall step :: step in trace ==> !own(step)
      ensures DeliveryInv(cfg, old(State())) ==> DeliveryInv(cfg, State())
    {
      ghost var start := State();
      trace := [];
      for i := 0 to |proposals|
        invariant Runnable(cfg, old(State()), trace) && State() == After(cfg, old(State()), trace)
        invariant forall step :: step in trace ==> !own(step)
      {
        var step := proposals[i];
        if !own(step) {
          var can := CanPerform(step);
          if can {
            RunExtends(cfg, old(State()), trace, step);
            Perform(step);
            trace := trace + [step];
          }
        }
      }
      if DeliveryInv(cfg, start) {
        DeliveryKept(cfg, start, trace);
      }
    }

    method CanPerform(step: Step) returns (can: bool)
      ensures can == Enabled(State(), step)
    {
      match step {
        case Resume(_) => can := true;
        case Reserve(kind, _, _) =>
          can := (if kind.Sick? then hand3d.Empty? else hand2d.Empty?) && !(stopLock.Putting? && stopLock.b.kind == kind);
        case Admit(kind) => can := (if kind.Sick? then hand3d.Holding? else hand2d.Holding?) && stopLock.Free?;
        case PutDone => can := stopLock.Putting? && |queue| < QUEUE_MAX;
        case PutTimeout => can := stopLock.Putting? && |queue| >= QUEUE_MAX;
        case StopBegin => can := stopLock.Free?;
        case StopPut => can := stopLock.Stopping? && |queue| < QUEUE_MAX;
        case StopMark => can := stopLock.Marking?;
        case StopTimeout => can := stopLock.Stopping?;
        case Take => can := worker.Waiting? && queue != [];
        case WriteFile(_) => can := worker.Saving? && worker.todo != [];
        case SaveDone => can := worker.Saving?;
      }
    }

    ghost function HandOf(kind: Kind): Hand
      reads this
    {
      if kind.Sick? then hand3d else hand2d
    }

    /** `_queue_buffer`, from waiting for the lock on. None when the lock was not free by the
        end of what the others did. */
    method QueueBuffer(kind: Kind, before: seq<Step>, during: seq<Step>) returns (ok: Option<bool>, ghost trace: seq<Step>)
      requires HandOf(kind).Holding?
      modifies this
      ensures Runnable(cfg, old(State()), trace) && State() == After(cfg, old(State()), trace)
      ensures ok == Some(true) ==> accepted != [] && accepted[|accepted| - 1] == old(HandOf(kind)).b
      ensures DeliveryInv(cfg, old(State())) && ok == Some(false) ==> !Accepted(State(), old(HandOf(kind)).b.id)
    {
      ghost var start := State();
      trace := Others(before, (step: Step) => step == Step.Admit(kind));
      HandWaits(cfg, start, kind, trace);
      if !stopLock.Free? {
        return None, trace;
      }
      var entered;
      ghost var locked;
      entered, locked := AdmitAndPut(kind, during);
      RunConcat(cfg, start, trace, locked);
      trace := trace + locked;
      return Some(entered), trace;
    }

    /** What it does under the lock: admission, then the wait for room. */
    method AdmitAndPut(kind: Kind, during: seq<Step>) returns (ok: bool, ghost trace: seq<Step>)
      requires Enabled(State(), Step.Admit(kind))
      modifies this
      ensures Runnable(cfg, old(State()), trace) && State() == After(cfg, old(State()), trace)
      ensures ok ==> accepted != [] && accepted[|accepted| - 1] == old(HandOf(kind)).b
      ensures DeliveryInv(cfg, old(State())) && !ok ==> !Accepted(State(), old(HandOf(kind)).b.id)
    {
      ghost var start := State();
      RunExtends(cfg, start, [], Step.Admit(kind));
      RefusedNotAccepted(start, kind);
      Admit(kind);
      trace := [Step.Admit(kind)];
      if !stopLock.Putting? {
        return false, trace;
      }
      ghost var putting;
      ok, putting := AwaitRoom(during);
      RunConcat(cfg, start, trace, putting);
      trace := trace + putting;
    }

    /** The wait in `queue.put`, given up when the queue is still full. */
    method AwaitRoom(during: seq<Step>) returns (ok: bool, ghost trace: seq<Step>)
      requires stopLock.Putting?
      modifies this
      ensures Runnable(cfg, old(State()), trace) && State() == After(cfg, old(State()), trace)
      ensures ok ==> accepted != [] && accepted[|accepted| - 1] == old(stopLock).b
      ensures DeliveryInv(cfg, old(State())) && !ok ==> !Accepted(State(), old(stopLock).b.id)
      ensures !ok ==> |queue| >= QUEUE_MAX
    {
      ghost var start := State();
      trace := Others(during, (step: Step) => step.PutDone? || step.PutTimeout?);
      PutWaits(cfg, start, trace);
      if |queue| < QUEUE_MAX {
        RunExtends(cfg, start, trace, PutDone);
        FinishPut();
        trace := trace + [PutDone];
        return true, trace;
      }
      RunExtends(cfg, start, trace, PutTimeout);
      TimedOutNotAccepted(start, trace);
      FailPut();
      trace := trace + [PutTimeout];
      return false, trace;
    }

    lemma RefusedNotAccepted(start: Pipeline, kind: Kind)
      requires Enabled(start, Step.Admit(kind))
      ensures DeliveryInv(cfg, start) ==>
                DeliveryInv(cfg, DoAdmit(cfg, start, kind))
                && !Accepted(DoAdmit(cfg, start, kind), start.HandOf(kind).b.id)
    {
      if DeliveryInv(cfg, start) {
        DeliveryStep(cfg, start, Step.Admit(kind));
        HeldNotAccepted(cfg, start, kind);
      }
    }

    lemma TimedOutNotAccepted(start: Pipeline, trace: seq<Step>)
      requires Runnable(cfg, start, trace) && After(cfg, start, trace).lock.Putting?
      ensures DeliveryInv(cfg, start) ==>
                !Accepted(DoPutTimeout(After(cfg, start, trace)), After(cfg, start, trace).lock.b.id)
    {
      if DeliveryInv(cfg, start) {
        DeliveryKept(cfg, start, trace);
        HeldNotAccepted(cfg, After(cfg, start, trace), Sick);
      }
    }

    /** After a reservation the frame is in hand or dropped, and has not been accepted. */
    lemma ReservedNotAccepted(start: Pipeline, kind: Kind, coil: Coil, bytes: nat)
      requires Enabled(start, Reserve(kind, coil, bytes))
      ensures var t := DoReserve(cfg, start, kind, coil, bytes);
              && (t.HandOf(kind).Holding? ==> t.HandOf(kind).b == Reserved(start, kind, coil, bytes))
              && (DeliveryInv(cfg, start) ==> DeliveryInv(cfg, t) && !Accepted(t, start.reserved))
    {
      if DeliveryInv(cfg, start) {
        DeliveryStep(cfg, start, Reserve(kind, coil, bytes));
        HeldNotAccepted(cfg, start, kind);
      }
    }

    /** `put`: index first, then the queue. It says whether the frame was accepted. */
    method Put(kind: Kind, coil: Coil, bytes: nat, before: seq<Step>, during: seq<Step>)
        returns (ok: Option<bool>, ghost trace: seq<Step>)
      requires Enabled(State(), Reserve(kind, coil, bytes))
      modifies this
      ensures Runnable(cfg, old(State()), trace) && State() == After(cfg, old(State()), trace)
      ensures ok == Some(true) ==>
                accepted != [] && accepted[|accepted| - 1] == Reserved(old(State()), kind, coil, bytes)
      ensures DeliveryInv(cfg, old(State())) && ok == Some(false) ==> !Accepted(State(), old(reserved))
    {
      ghost var start := State();
      ReservedNotAccepted(start, kind, coil, bytes);
      Index(kind, coil, bytes);
      ghost var queueing := [];
      var hand := if kind.Sick? then hand3d else hand2d;
      if hand.Empty? {
        ok := Some(false);
      } else {
        ok, queueing := QueueBuffer(kind, before, during);
      }
      RunFirst(cfg, start, Reserve(kind, coil, bytes), queueing);
      trace := [Reserve(kind, coil, bytes)] + queueing;
    }

    /** `stop`: it waits for the lock while the others run. None when the lock was not free by
        the end of what they did. */
    method Stop(before: seq<Step>, attempts: seq<seq<Step>>) returns (ok: Option<bool>, ghost trace: seq<Step>)
      modifies this
      ensures Runnable(cfg, old(State()), trace) && State() == After(cfg, old(State()), trace)
      ensures ok.Some? ==> stopLock.Free? && ok.value == stopSignalEnqueued
      ensures DeliveryInv(cfg, old(State())) ==> DeliveryInv(cfg, State()) && (ok.Some? ==> !running)
    {
      ghost var start := State();
      trace := Others(before, (step: Step) => false);
      if !stopLock.Free? {
        return None, trace;
      }
      var done;
      ghost var stopping;
      done, stopping := StopLocked(attempts);
      RunConcat(cfg, start, trace, stopping);
      trace := trace + stopping;
      if DeliveryInv(cfg, start) {
        DeliveryKept(cfg, start, trace);
      }
      return Some(done), trace;
    }

    /** What it does under the lock: the deadline is checked before every attempt; an attempt
        waits for room while the others run and gives up when the queue is still full. */
    method StopLocked(attempts: seq<seq<Step>>) returns (ok: bool, ghost trace: seq<Step>)
      requires stopLock.Free?
      modifies this
      ensures Runnable(cfg, old(State()), trace) && State() == After(cfg, old(State()), trace)
      ensures stopLock.Free? && ok == stopSignalEnqueued
      ensures DeliveryInv(cfg, old(State())) ==> !running && accepted == old(accepted)
      ensures old(stopSignalEnqueued) ==> ok && trace == [StopBegin]
      ensures !ok && attempts != [] ==> |queue| >= QUEUE_MAX
    {
      ghost var start := State();
      trace := [StopBegin];
      RunExtends(cfg, start, [], StopBegin);
      Perform(StopBegin);
      if stopSignalEnqueued {
        FinishedStop(start, trace);
        return true, trace;
      }
      for i := 0 to |attempts|
        invariant Runnable(cfg, start, trace) && State() == After(cfg, start, trace)
        invariant trace != [] && trace[0] == StopBegin
        invariant stopLock.Stopping? && !stopSignalEnqueued
        invariant i > 0 ==> |queue| >= QUEUE_MAX
      {
        ghost var others := Others(attempts[i], (step: Step) => OfStop(step));
        ghost var before := After(cfg, start, trace);
        StopWaits(cfg, before, others);
        RunConcat(cfg, start, trace, others);
        trace := trace + others;
        if |queue| < QUEUE_MAX {
          RunExtends(cfg, start, trace, StopPut);
          Perform(StopPut);
          trace := trace + [StopPut];
          RunExtends(cfg, start, trace, StopMark);
          Perform(StopMark);
          trace := trace + [StopMark];
          FinishedStop(start, trace);
          return true, trace;
        }
      }
      RunExtends(cfg, start, trace, StopTimeout);
      Perform(StopTimeout);
      trace := trace + [StopTimeout];
      FinishedStop(start, trace);
      return false, trace;
    }

    lemma FinishedStop(start: Pipeline, trace: seq<Step>)
      requires Runnable(cfg, start, trace) && trace != [] && trace[0] == StopBegin
      ensures DeliveryInv(cfg, start) ==>
                !After(cfg, start, trace).running && After(cfg, start, trace).accepted == start.accepted
    {
      if DeliveryInv(cfg, start) {
        DeliveryStep(cfg, start, StopBegin);
        NothingAcceptedAfterStop(cfg, Next(cfg, start, StopBegin), trace[1..]);
      }
    }

    /** The worker: it waits for an item while the others run, and saves it while they run
        on. In each turn it is handed a frame, unless it has been handed all that were queued
        at first, or has exited. */
    method Run(rounds: seq<Round>) returns (ghost trace: seq<Step>)
      requires worker.Waiting?
      modifies this
      ensures Runnable(cfg, old(State()), trace) && State() == After(cfg, old(State()), trace)
      ensures DeliveryInv(cfg, old(State())) && worker.Exited? ==> handed == accepted && queue == []
      ensures worker.Waiting? || worker.Exited?
      ensures worker.Waiting? ==> |handed| >= |old(handed)| + |rounds| || |handed| >= |old(handed)| + |old(queue)|
    {
      ghost var start := State();
      trace := [];
      var i := 0;
      while i < |rounds| && worker.Waiting?
        invariant i <= |rounds| && !worker.Saving?
        invariant worker.Waiting? ==> |handed| + |queue| >= |old(handed)| + |old(queue)|
        invariant worker.Waiting? ==> |handed| >= |old(handed)| + i || |handed| >= |old(handed)| + |old(queue)|
        invariant Runnable(cfg, start, trace) && State() == After(cfg, start, trace)
      {
        ghost var others := Meanwhile(rounds[i].before);
        RunConcat(cfg, start, trace, others);
        trace := trace + others;
        if queue != [] {
          ghost var saving := SaveOne(rounds[i].writes, rounds[i].after);
          RunConcat(cfg, start, trace, saving);
          trace := trace + saving;
        }
        i := i + 1;
      }
      if DeliveryInv(cfg, start) {
        DeliveryKept(cfg, start, trace);
      }
    }

    /** The other threads run while the worker is at what it is doing. */
    method Meanwhile(proposals: seq<Step>) returns (ghost trace: seq<Step>)
      modifies this
      ensures Runnable(cfg, old(State()), trace) && State() == After(cfg, old(State()), trace)
      ensures worker == old(worker) && handed == old(handed) && old(queue) <= queue
    {
      ghost var start := State();
      trace := Others(proposals, (step: Step) => OfWorker(step));
      WorkerWaits(cfg, start, trace);
      QueueWaits(cfg, start, trace);
    }

    /** One item: the sentinel ends the worker, a frame is saved and its memory released. Each
        write comes with what the others do before it and whether its file reaches the disk;
        the save ends early when the writes run out. */
    method SaveOne(writes: seq<Write>, after: seq<Step>) returns (ghost trace: seq<Step>)
      requires worker.Waiting? && queue != []
      modifies this
      ensures Runnable(cfg, old(State()), trace) && State() == After(cfg, old(State()), trace)
      ensures if old(queue)[0].Sentinel? then worker.Exited? && handed == old(handed)
              else worker.Waiting? && handed == old(handed) + [old(queue)[0].b] && old(queue)[1..] <= queue
    {
      ghost var start := State();
      RunExtends(cfg, start, [], Take);
      Perform(Take);
      trace := [Take];
      if worker.Exited? {
        return;
      }
      var i := 0;
      while i < |writes| && worker.todo != []
        invariant worker.Saving? && handed == old(handed) + [old(queue)[0].b] && old(queue)[1..] <= queue
        invariant Runnable(cfg, start, trace) && State() == After(cfg, start, trace)
      {
        ghost var write := WriteOne(writes[i]);
        RunConcat(cfg, start, trace, write);
        trace := trace + write;
        i := i + 1;
      }
      ghost var last := Meanwhile(after);
      RunConcat(cfg, start, trace, last);
      trace := trace + last;
      RunExtends(cfg, start, trace, SaveDone);
      trace := trace + [SaveDone];
      Perform(SaveDone);
    }

    method WriteOne(write: Write) returns (ghost trace: seq<Step>)
      requires worker.Saving? && worker.todo != []
      modifies this
      ensures Runnable(cfg, old(State()), trace) && State() == After(cfg, old(State()), trace)
      ensures worker.Saving? && handed == old(handed) && old(queue) <= queue
    {
      ghost var start := State();
      trace := Meanwhile(write.before);
      RunExtends(cfg, start, trace, WriteFile(write.lands));
      trace := trace + [WriteFile(write.lands)];
      WriteNext(write.lands);
    }
  }
}
