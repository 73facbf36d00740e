/** What every interleaving of the capture-save pipeline keeps: the queue is a FIFO closed
    by one sentinel, no frame is lost or doubled, and the byte counter is exact. */
module CaptureDelivery {
  import opened CaptureTypes
  import opened CapturePipeline

  /** The frames of a queue, in order. */
  function Frames(queue: seq<Item>): seq<Buffer> {
    if queue == [] then []
    else (if queue[0].Frame? then [queue[0].b] else []) + Frames(queue[1..])
  }

  lemma {:induction false} FramesAppend(queue: seq<Item>, item: Item)
    ensures Frames(queue + [item]) == Frames(queue) + (if item.Frame? then [item.b] else [])
  {
    if queue != [] {
      FramesAppend(queue[1..], item);
      assert (queue + [item])[1..] == queue[1..] + [item];
    }
  }

  // ----- order and the sentinel -----

  ghost predicate Closed(s: State) {
    s.stopEnqueued || s.lock.Marking?
  }

  ghost predicate EndsInSentinel(queue: seq<Item>) {
    queue != [] && queue[|queue| - 1].Sentinel?
  }

  ghost predicate QueueInv(s: State) {
    && |s.queue| <= QUEUE_MAX
    && (forall i :: 0 <= i < |s.queue| - 1 ==> s.queue[i].Frame?)
    && s.accepted == s.handed + Frames(s.queue)
    && (Closed(s) <==> EndsInSentinel(s.queue) || s.worker.Exited?)
    && (s.worker.Exited? ==> s.queue == [])
    && s.sentinels == (if Closed(s) then 1 else 0)
    && (s.running ==> !Closed(s) && !s.lock.Stopping?)
    && (s.lock.Putting? ==> s.running)
    && (s.lock.Stopping? || s.lock.Marking? ==> !s.stopEnqueued)
  }

  lemma QueueIndexStep(cfg: Config, s: State, step: Step)
    requires QueueInv(s) && Enabled(s, step) && OfIndexLock(step)
    ensures QueueInv(Next(cfg, s, step))
  {
  }

  lemma QueueProducerStep(cfg: Config, s: State, step: Step)
    requires QueueInv(s) && Enabled(s, step) && OfProducer(step)
    ensures QueueInv(Next(cfg, s, step))
  {
    if step.PutDone? {
      FramesAppend(s.queue, Frame(s.lock.b));
    }
  }

  lemma QueueStopStep(cfg: Config, s: State, step: Step)
    requires QueueInv(s) && Enabled(s, step) && OfStop(step)
    ensures QueueInv(Next(cfg, s, step))
  {
    FramesAppend(s.queue, Sentinel);
  }

  lemma QueueWorkerStep(cfg: Config, s: State, step: Step)
    requires QueueInv(s) && Enabled(s, step) && OfWorker(step)
    ensures QueueInv(Next(cfg, s, step))
  {
    if step.Take? {
      assert s.queue == [s.queue[0]] + s.queue[1..];
    }
  }

  lemma QueueStep(cfg: Config, s: State, step: Step)
    requires QueueInv(s) && Enabled(s, step)
    ensures QueueInv(Next(cfg, s, step))
  {
    if OfIndexLock(step) {
      QueueIndexStep(cfg, s, step);
    } else if OfProducer(step) {
      QueueProducerStep(cfg, s, step);
    } else if OfWorker(step) {
      QueueWorkerStep(cfg, s, step);
    } else {
      QueueStopStep(cfg, s, step);
    }
  }

  // ----- identity -----

  /** The frame a producer blocked in `queue.put` holds. */
  function LockHand(s: State): Hand {
    if s.lock.Putting? then Holding(s.lock.b) else Empty
  }

  function Held(h: Hand): nat {
    if h.Holding? then 1 else 0
  }

  /** How many frames have an index but no verdict yet. */
  function InHand(s: State): nat {
    Held(LockHand(s)) + Held(s.hand3d) + Held(s.hand2d)
  }

  ghost predicate DistinctIds(s: seq<Buffer>) {
    forall i, j :: 0 <= i < j < |s| ==> s[i].id != s[j].id
  }

  ghost predicate Known(h: Hand, accepted: seq<Buffer>, reserved: nat) {
    h.Holding? ==> h.b.id < reserved && forall i :: 0 <= i < |accepted| ==> accepted[i].id != h.b.id
  }

  ghost predicate Apart(g: Hand, h: Hand) {
    g.Holding? && h.Holding? ==> g.b.id != h.b.id
  }

  ghost predicate IdsOk(accepted: seq<Buffer>, reserved: nat, dropped: nat, l: Hand, g: Hand, h: Hand) {
    && DistinctIds(accepted)
    && (forall i :: 0 <= i < |accepted| ==> accepted[i].id < reserved)
    && Known(l, accepted, reserved) && Known(g, accepted, reserved) && Known(h, accepted, reserved)
    && Apart(l, g) && Apart(l, h) && Apart(g, h)
    && reserved == |accepted| + dropped + Held(l) + Held(g) + Held(h)
  }

  ghost predicate IdInv(s: State) {
    IdsOk(s.accepted, s.reserved, s.dropped, LockHand(s), s.hand3d, s.hand2d)
  }

  lemma IdsSwap(accepted: seq<Buffer>, reserved: nat, dropped: nat, l: Hand, g: Hand, h: Hand)
    requires IdsOk(accepted, reserved, dropped, l, g, h)
    ensures IdsOk(accepted, reserved, dropped, l, h, g)
    ensures IdsOk(accepted, reserved, dropped, g, l, h)
  {
  }

  lemma IdsNew(accepted: seq<Buffer>, reserved: nat, dropped: nat, l: Hand, h: Hand, b: Buffer)
    requires IdsOk(accepted, reserved, dropped, l, Empty, h) && b.id == reserved
    ensures IdsOk(accepted, reserved + 1, dropped, l, Holding(b), h)
    ensures IdsOk(accepted, reserved + 1, dropped + 1, l, Empty, h)
  {
  }

  lemma IdsDrop(accepted: seq<Buffer>, reserved: nat, dropped: nat, l: Hand, g: Hand, h: Hand)
    requires IdsOk(accepted, reserved, dropped, l, g, h) && l.Holding?
    ensures IdsOk(accepted, reserved, dropped + 1, Empty, g, h)
    ensures IdsOk(accepted + [l.b], reserved, dropped, Empty, g, h)
  {
  }

  /** Any step that gives a producer of `kind` a new frame, or counts that frame as dropped. */
  lemma IdReserved(s: State, t: State, kind: Kind, b: Buffer)
    requires IdInv(s) && s.HandOf(kind).Empty? && b.id == s.reserved
    requires t.accepted == s.accepted && t.reserved == s.reserved + 1 && LockHand(t) == LockHand(s)
    requires kind.Sick? ==> t.hand2d == s.hand2d
    requires kind.Area? ==> t.hand3d == s.hand3d
    requires (t.HandOf(kind) == Holding(b) && t.dropped == s.dropped)
             || (t.HandOf(kind) == Empty && t.dropped == s.dropped + 1)
    ensures IdInv(t)
  {
    var a, r, d, l := s.accepted, s.reserved, s.dropped, LockHand(s);
    if kind.Sick? {
      IdsNew(a, r, d, l, s.hand2d, b);
    } else {
      IdsSwap(a, r, d, l, s.hand3d, Empty);
      IdsNew(a, r, d, l, s.hand3d, b);
      IdsSwap(a, r + 1, t.dropped, l, t.hand2d, s.hand3d);
    }
  }

  lemma IdAdmit(cfg: Config, s: State, kind: Kind)
    requires IdInv(s) && Enabled(s, Admit(kind))
    ensures IdInv(Next(cfg, s, Admit(kind)))
  {
    var a, r, d := s.accepted, s.reserved, s.dropped;
    if kind.Sick? {
      IdsSwap(a, r, d, Empty, s.hand3d, s.hand2d);
      IdsDrop(a, r, d, s.hand3d, Empty, s.hand2d);
    } else {
      IdsSwap(a, r, d, Empty, s.hand3d, s.hand2d);
      IdsSwap(a, r, d, Empty, s.hand2d, s.hand3d);
      IdsSwap(a, r, d, s.hand2d, Empty, s.hand3d);
      IdsDrop(a, r, d, s.hand2d, s.hand3d, Empty);
    }
  }

  lemma IdPut(cfg: Config, s: State, step: Step)
    requires IdInv(s) && Enabled(s, step) && (step.PutDone? || step.PutTimeout?)
    ensures IdInv(Next(cfg, s, step))
  {
    IdsDrop(s.accepted, s.reserved, s.dropped, LockHand(s), s.hand3d, s.hand2d);
  }

  lemma IdUnchanged(s: State, t: State)
    requires IdInv(s)
    requires t.accepted == s.accepted && t.reserved == s.reserved && t.dropped == s.dropped
    requires t.hand3d == s.hand3d && t.hand2d == s.hand2d && LockHand(t) == LockHand(s)
    ensures IdInv(t)
  {
  }

  lemma IdStep(cfg: Config, s: State, step: Step)
    requires IdInv(s) && Enabled(s, step)
    ensures IdInv(Next(cfg, s, step))
  {
    if step.Reserve? {
      IdReserved(s, Next(cfg, s, step), step.kind, Reserved(s, step.kind, step.coil, step.bytes));
    } else if step.Admit? {
      IdAdmit(cfg, s, step.kind);
    } else if step.PutDone? || step.PutTimeout? {
      IdPut(cfg, s, step);
    } else {
      IdUnchanged(s, Next(cfg, s, step));
    }
  }

  // ----- bytes -----

  function Bytes(frames: seq<Buffer>): nat {
    if frames == [] then 0 else frames[0].bytes + Bytes(frames[1..])
  }

  lemma {:induction false} BytesConcat(a: seq<Buffer>, b: seq<Buffer>)
    ensures Bytes(a + b) == Bytes(a) + Bytes(b)
  {
    if a == [] {
      assert a + b == b;
    } else {
      BytesConcat(a[1..], b);
      assert (a + b)[1..] == a[1..] + b;
    }
  }

  /** The frames whose memory the counter stands for, oldest first: the one being saved,
      the queued ones, and the one a producer is still trying to put. */
  function Occupants(s: State): seq<Buffer> {
    (if s.worker.Saving? then [s.worker.b] else [])
    + Frames(s.queue)
    + (if s.lock.Putting? then [s.lock.b] else [])
  }

  /** How many of `frames` have a positive size. */
  function Positive(frames: seq<Buffer>): nat {
    if frames == [] then 0 else (if frames[0].bytes > 0 then 1 else 0) + Positive(frames[1..])
  }

  lemma {:induction false} PositiveConcat(a: seq<Buffer>, b: seq<Buffer>)
    ensures Positive(a + b) == Positive(a) + Positive(b)
  {
    if a == [] {
      assert a + b == b;
    } else {
      PositiveConcat(a[1..], b);
      assert (a + b)[1..] == a[1..] + b;
    }
  }

  lemma {:induction false} NoBytesNoPositive(frames: seq<Buffer>)
    ensures Bytes(frames) == 0 <==> Positive(frames) == 0
  {
    if frames != [] {
      NoBytesNoPositive(frames[1..]);
    }
  }

  ghost predicate WithinBudget(cfg: Config, frames: seq<Buffer>) {
    cfg.budget > 0 && Bytes(frames) > cfg.budget ==> Positive(frames) == 1
  }

  ghost predicate ByteInv(cfg: Config, s: State) {
    s.queuedBytes == Bytes(Occupants(s)) && WithinBudget(cfg, Occupants(s))
  }

  /** Letting one frame in at the young end. */
  lemma AdmitBytes(cfg: Config, frames: seq<Buffer>, b: Buffer)
    requires WithinBudget(cfg, frames) && !Refused(cfg, Bytes(frames), b.bytes)
    ensures Bytes(frames + [b]) == Bytes(frames) + b.bytes
    ensures WithinBudget(cfg, frames + [b])
  {
    BytesConcat(frames, [b]);
    PositiveConcat(frames, [b]);
    NoBytesNoPositive(frames);
  }

  /** Letting the frame between `a` and `c` go. */
  lemma ReleaseBytes(cfg: Config, a: seq<Buffer>, b: Buffer, c: seq<Buffer>)
    requires WithinBudget(cfg, a + [b] + c)
    ensures Bytes(a + [b] + c) == Bytes(a + c) + b.bytes
    ensures Released(Bytes(a + [b] + c), b.bytes) == Bytes(a + [b] + c) - b.bytes
    ensures WithinBudget(cfg, a + c)
  {
    BytesConcat(a + [b], c);
    BytesConcat(a, [b]);
    BytesConcat(a, c);
    PositiveConcat(a + [b], c);
    PositiveConcat(a, [b]);
    PositiveConcat(a, c);
    NoBytesNoPositive(a + c);
  }

  lemma ByteAdmit(cfg: Config, s: State, kind: Kind)
    requires ByteInv(cfg, s) && Enabled(s, Admit(kind))
    ensures ByteInv(cfg, Next(cfg, s, Admit(kind)))
  {
    var t := Next(cfg, s, Admit(kind));
    if t.lock.Putting? {
      AdmitBytes(cfg, Occupants(s), s.HandOf(kind).b);
      assert Occupants(t) == Occupants(s) + [s.HandOf(kind).b];
    } else {
      assert Occupants(t) == Occupants(s);
    }
  }

  lemma BytePutDone(cfg: Config, s: State)
    requires ByteInv(cfg, s) && Enabled(s, PutDone)
    ensures ByteInv(cfg, Next(cfg, s, PutDone))
  {
    FramesAppend(s.queue, Frame(s.lock.b));
    assert Occupants(Next(cfg, s, PutDone)) == Occupants(s);
  }

  lemma BytePutTimeout(cfg: Config, s: State)
    requires ByteInv(cfg, s) && Enabled(s, PutTimeout)
    ensures ByteInv(cfg, Next(cfg, s, PutTimeout))
  {
    var t := Next(cfg, s, PutTimeout);
    assert Occupants(s) == Occupants(t) + [s.lock.b] + [];
    assert Occupants(t) + [] == Occupants(t);
    ReleaseBytes(cfg, Occupants(t), s.lock.b, []);
  }

  lemma ByteSaveDone(cfg: Config, s: State)
    requires ByteInv(cfg, s) && Enabled(s, SaveDone)
    ensures ByteInv(cfg, Next(cfg, s, SaveDone))
  {
    var t := Next(cfg, s, SaveDone);
    assert Occupants(s) == [] + [s.worker.b] + Occupants(t);
    assert [] + Occupants(t) == Occupants(t);
    ReleaseBytes(cfg, [], s.worker.b, Occupants(t));
  }

  lemma ByteTake(cfg: Config, s: State)
    requires ByteInv(cfg, s) && Enabled(s, Take)
    ensures ByteInv(cfg, Next(cfg, s, Take))
  {
    assert Occupants(Next(cfg, s, Take)) == Occupants(s);
  }

  lemma ByteStopStep(cfg: Config, s: State, step: Step)
    requires ByteInv(cfg, s) && Enabled(s, step) && OfStop(step)
    ensures ByteInv(cfg, Next(cfg, s, step))
  {
    FramesAppend(s.queue, Sentinel);
    assert Occupants(Next(cfg, s, step)) == Occupants(s);
  }

  lemma ByteUnchanged(cfg: Config, s: State, t: State)
    requires ByteInv(cfg, s)
    requires t.queuedBytes == s.queuedBytes && t.queue == s.queue && t.lock == s.lock
    requires t.worker.Saving? == s.worker.Saving? && (t.worker.Saving? ==> t.worker.b == s.worker.b)
    ensures ByteInv(cfg, t)
  {
    assert Occupants(t) == Occupants(s);
  }

  lemma ByteStep(cfg: Config, s: State, step: Step)
    requires ByteInv(cfg, s) && Enabled(s, step)
    ensures ByteInv(cfg, Next(cfg, s, step))
  {
    if step.Admit? {
      ByteAdmit(cfg, s, step.kind);
    } else if step.PutDone? {
      BytePutDone(cfg, s);
    } else if step.PutTimeout? {
      BytePutTimeout(cfg, s);
    } else if step.SaveDone? {
      ByteSaveDone(cfg, s);
    } else if step.Take? {
      ByteTake(cfg, s);
    } else if OfStop(step) {
      ByteStopStep(cfg, s, step);
    } else {
      ByteUnchanged(cfg, s, Next(cfg, s, step));
    }
  }

  // ----- whole runs -----

  ghost predicate DeliveryInv(cfg: Config, s: State) {
    QueueInv(s) && IdInv(s) && ByteInv(cfg, s)
  }

  lemma {:induction false} DeliveryKept(cfg: Config, s: State, steps: seq<Step>)
    requires DeliveryInv(cfg, s) && Runnable(cfg, s, steps)
    ensures DeliveryInv(cfg, After(cfg, s, steps))
    decreases |steps|
  {
    if steps != [] {
      DeliveryStep(cfg, s, steps[0]);
      DeliveryKept(cfg, Next(cfg, s, steps[0]), steps[1..]);
    }
  }

  /** Whatever producers, stop calls and the worker do: at most one sentinel is ever
      enqueued and nothing follows it; what the worker was handed is a prefix of what was
      accepted, each frame once and in order, and all of it once the worker has exited. */
  lemma HandedIsAccepted(cfg: Config, disk: seq<FrameFile>, steps: seq<Step>)
    requires Runnable(cfg, Initial(disk), steps)
    ensures var s := After(cfg, Initial(disk), steps);
            && s.sentinels <= 1
            && (forall i :: 0 <= i < |s.queue| && s.queue[i].Sentinel? ==> i == |s.queue| - 1)
            && s.accepted == s.handed + Frames(s.queue)
            && DistinctIds(s.accepted)
            && (s.worker.Exited? ==> s.handed == s.accepted && s.queue == [] && !s.lock.Putting?)
  {
    DeliveryKept(cfg, Initial(disk), steps);
  }

  /** Every frame that got an index was accepted, counted as dropped, or is still with its
      producer. */
  lemma EveryFrameAccountedFor(cfg: Config, disk: seq<FrameFile>, steps: seq<Step>)
    requires Runnable(cfg, Initial(disk), steps)
    ensures var s := After(cfg, Initial(disk), steps);
            s.reserved == |s.accepted| + s.dropped + InHand(s)
  {
    DeliveryKept(cfg, Initial(disk), steps);
  }

  /** The byte counter is exact in every reachable state, so clamping it at zero never
      acts, and with a budget it is exceeded only by one frame of positive size alone. */
  lemma QueuedBytesExact(cfg: Config, disk: seq<FrameFile>, steps: seq<Step>)
    requires Runnable(cfg, Initial(disk), steps)
    ensures var s := After(cfg, Initial(disk), steps);
            && s.queuedBytes == Bytes(Occupants(s))
            && (s.worker.Saving? ==> s.queuedBytes >= s.worker.b.bytes)
            && (s.lock.Putting? ==> s.queuedBytes >= s.lock.b.bytes)
            && (cfg.budget > 0 && s.queuedBytes > cfg.budget ==> Positive(Occupants(s)) == 1)
  {
    DeliveryKept(cfg, Initial(disk), steps);
    var s := After(cfg, Initial(disk), steps);
    if s.lock.Putting? {
      BytesConcat((if s.worker.Saving? then [s.worker.b] else []) + Frames(s.queue), [s.lock.b]);
    }
  }

  /** The frame may join the others: without a budget, without a size of its own or of theirs,
      or within the budget together. */
  predicate Fits(cfg: Config, others: seq<Buffer>, b: Buffer) {
    cfg.budget == 0 || b.bytes == 0 || Positive(others) == 0 || Bytes(others + [b]) <= cfg.budget
  }

  lemma RefusedUnlessFits(cfg: Config, others: seq<Buffer>, b: Buffer)
    ensures Refused(cfg, Bytes(others), b.bytes) <==> !Fits(cfg, others, b)
  {
    BytesConcat(others, [b]);
    NoBytesNoPositive(others);
  }

  /** Exactly which frames are admitted: those that fit while the pipeline runs. Any other is
      counted as dropped. */
  lemma AdmissionExact(cfg: Config, disk: seq<FrameFile>, steps: seq<Step>, kind: Kind)
    requires Runnable(cfg, Initial(disk), steps) && Enabled(After(cfg, Initial(disk), steps), Admit(kind))
    ensures var s := After(cfg, Initial(disk), steps);
            var t, b := Next(cfg, s, Admit(kind)), s.HandOf(kind).b;
            && t.HandOf(kind) == Empty && t.queue == s.queue && t.accepted == s.accepted
            && if s.running && Fits(cfg, Occupants(s), b) then t.lock == Putting(b) && t.dropped == s.dropped
               else t.lock == Free && t.dropped == s.dropped + 1
  {
    DeliveryKept(cfg, Initial(disk), steps);
    var s := After(cfg, Initial(disk), steps);
    RefusedUnlessFits(cfg, Occupants(s), s.HandOf(kind).b);
  }

  lemma DeliveryStep(cfg: Config, s: State, step: Step)
    requires DeliveryInv(cfg, s) && Enabled(s, step)
    ensures DeliveryInv(cfg, Next(cfg, s, step))
  {
    QueueStep(cfg, s, step);
    IdStep(cfg, s, step);
    ByteStep(cfg, s, step);
  }

  lemma StoppedStep(cfg: Config, s: State, step: Step)
    requires QueueInv(s) && !s.running && Enabled(s, step)
    ensures Next(cfg, s, step).accepted == s.accepted && !Next(cfg, s, step).running
  {
  }

  /** Stopping is for good: once a stop call has begun no further frame is accepted,
      however many stop calls time out and are retried. */
  lemma {:induction false} NothingAcceptedAfterStop(cfg: Config, s: State, steps: seq<Step>)
    requires DeliveryInv(cfg, s) && !s.running && Runnable(cfg, s, steps)
    ensures After(cfg, s, steps).accepted == s.accepted && !After(cfg, s, steps).running
    decreases |steps|
  {
    if steps != [] {
      DeliveryStep(cfg, s, steps[0]);
      StoppedStep(cfg, s, steps[0]);
      NothingAcceptedAfterStop(cfg, Next(cfg, s, steps[0]), steps[1..]);
    }
  }
}
