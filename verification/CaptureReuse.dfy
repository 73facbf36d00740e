/** When a frame index is handed out a second time while its frame is pending or on disk:
    never as long as every cache miss is safe, and always in some continuation once one is
    not. */
module CaptureReuse {
  import opened CaptureTypes
  import opened HighWater
  import opened CapturePipeline
  import opened CaptureDelivery
  import opened CaptureNoOverwrite

  /** The step hands out an index that a pending frame or a file already has. */
  ghost predicate Repeats(s: State, step: Step) {
    step.Reserve? && Used(s, step.coil, step.kind, Reserved(s, step.kind, step.coil, step.bytes).index)
  }

  ghost predicate Reuses(cfg: Config, s: State, steps: seq<Step>)
    requires Runnable(cfg, s, steps)
    decreases |steps|
  {
    steps != [] && (Repeats(s, steps[0]) || Reuses(cfg, Next(cfg, s, steps[0]), steps[1..]))
  }

  /** Every resume and every reservation finds its coil in the cache. */
  ghost predicate HitsOnly(cfg: Config, s: State, steps: seq<Step>)
    requires Runnable(cfg, s, steps)
    decreases |steps|
  {
    steps != [] ==>
      && (OfIndexLock(steps[0]) ==> steps[0].coil in s.ix.cache.marks)
      && HitsOnly(cfg, Next(cfg, s, steps[0]), steps[1..])
  }

  // ----- safe misses never reuse -----

  lemma SafeStepFresh(s: State, step: Step)
    requires FrameInv(s) && SafeMiss(s, step)
    ensures !Repeats(s, step)
  {
    if step.Reserve? {
      EntryDominates(s, step);
      forall f | f in s.disk && f.coil == step.coil && KindOf(f.folder) == step.kind
        ensures f.index < EntryMark(s, step).Next(step.kind)
      {
        ScanAboveDisk(s.disk, step.coil, f);
      }
    }
  }

  lemma {:induction false} SafeRunFresh(cfg: Config, s: State, steps: seq<Step>)
    requires OverwriteInv(cfg, s) && Runnable(cfg, s, steps) && SafeRun(cfg, s, steps)
    ensures !Reuses(cfg, s, steps)
    decreases |steps|
  {
    if steps != [] {
      SafeStepFresh(s, steps[0]);
      DeliveryStep(cfg, s, steps[0]);
      FrameStep(cfg, s, steps[0]);
      SafeRunFresh(cfg, Next(cfg, s, steps[0]), steps[1..]);
    }
  }

  lemma {:induction false} HitsAreSafe(cfg: Config, s: State, steps: seq<Step>)
    requires Runnable(cfg, s, steps) && HitsOnly(cfg, s, steps)
    ensures SafeRun(cfg, s, steps)
    decreases |steps|
  {
    if steps != [] {
      HitsAreSafe(cfg, Next(cfg, s, steps[0]), steps[1..]);
    }
  }

  // ----- runs put together -----

  lemma {:induction false} SafeConcat(cfg: Config, s: State, a: seq<Step>, b: seq<Step>)
    requires Runnable(cfg, s, a) && Runnable(cfg, After(cfg, s, a), b)
    requires Runnable(cfg, s, a + b)
    ensures SafeRun(cfg, s, a + b) <==> SafeRun(cfg, s, a) && SafeRun(cfg, After(cfg, s, a), b)
    decreases |a|
  {
    if a == [] {
      assert a + b == b;
    } else {
      assert (a + b)[1..] == a[1..] + b;
      SafeConcat(cfg, Next(cfg, s, a[0]), a[1..], b);
    }
  }

  lemma {:induction false} HitsConcat(cfg: Config, s: State, a: seq<Step>, b: seq<Step>)
    requires Runnable(cfg, s, a) && Runnable(cfg, After(cfg, s, a), b)
    requires Runnable(cfg, s, a + b)
    ensures HitsOnly(cfg, s, a + b) <==> HitsOnly(cfg, s, a) && HitsOnly(cfg, After(cfg, s, a), b)
    decreases |a|
  {
    if a == [] {
      assert a + b == b;
    } else {
      assert (a + b)[1..] == a[1..] + b;
      HitsConcat(cfg, Next(cfg, s, a[0]), a[1..], b);
    }
  }

  lemma {:induction false} ReusesLater(cfg: Config, s: State, a: seq<Step>, b: seq<Step>)
    requires Runnable(cfg, s, a) && Runnable(cfg, After(cfg, s, a), b)
    requires Runnable(cfg, s, a + b)
    requires Reuses(cfg, After(cfg, s, a), b)
    ensures Reuses(cfg, s, a + b)
    decreases |a|
  {
    if a == [] {
      assert a + b == b;
    } else {
      assert (a + b)[1..] == a[1..] + b;
      ReusesLater(cfg, Next(cfg, s, a[0]), a[1..], b);
    }
  }

  // ----- steps outside the index lock -----

  ghost predicate Quiet(steps: seq<Step>) {
    forall i :: 0 <= i < |steps| ==> !OfIndexLock(steps[i])
  }

  lemma {:induction false} QuietRun(cfg: Config, s: State, steps: seq<Step>)
    requires Runnable(cfg, s, steps) && Quiet(steps)
    ensures After(cfg, s, steps).ix == s.ix && HitsOnly(cfg, s, steps)
    decreases |steps|
  {
    if steps != [] {
      QuietRun(cfg, Next(cfg, s, steps[0]), steps[1..]);
    }
  }

  lemma OneStep(cfg: Config, s: State, step: Step)
    requires Enabled(s, step)
    ensures Runnable(cfg, s, [step]) && After(cfg, s, [step]) == Next(cfg, s, step)
  {
    RunFirst(cfg, s, step, []);
    assert [step] + [] == [step];
  }

  /** The frame is queued or being saved: it stays pending until the worker moves. */
  ghost predicate Settled(s: State, b: Buffer) {
    b in Frames(s.queue) || (s.worker.Saving? && s.worker.b == b)
  }

  lemma SettledPending(s: State, b: Buffer)
    requires Settled(s, b)
    ensures b in Pending(s)
  {
  }

  /** `t` differs from `s` only in who holds the stop lock and in the young end of the queue. */
  ghost predicate LockFreed(s: State, t: State) {
    && t.lock.Free? && t.hand3d == s.hand3d && t.hand2d == s.hand2d && t.worker == s.worker
    && t.running == s.running
    && forall b :: Settled(s, b) ==> Settled(t, b)
  }

  /** Whoever has the stop lock can always let go of it. */
  lemma FreeLock(cfg: Config, s: State) returns (steps: seq<Step>)
    ensures Runnable(cfg, s, steps) && Quiet(steps)
    ensures LockFreed(s, After(cfg, s, steps))
    ensures s.lock.Putting? && |s.queue| < QUEUE_MAX ==> Settled(After(cfg, s, steps), s.lock.b)
  {
    if s.lock.Free? {
      return [];
    }
    var step := if s.lock.Putting? then if |s.queue| < QUEUE_MAX then PutDone else PutTimeout
                else if s.lock.Stopping? then StopTimeout
                else StopMark;
    OneStep(cfg, s, step);
    if step.PutDone? {
      FramesAppend(s.queue, Frame(s.lock.b));
    }
    return [step];
  }

  lemma AdmitFrees(cfg: Config, s: State, kind: Kind, b: Buffer) returns (steps: seq<Step>)
    requires Settled(s, b) && s.lock.Free? && s.HandOf(kind).Holding?
    ensures Runnable(cfg, s, steps) && Quiet(steps)
    ensures var t := After(cfg, s, steps); t.lock.Free? && t.HandOf(kind).Empty? && Settled(t, b)
  {
    var t := Next(cfg, s, Admit(kind));
    assert Settled(t, b) && t.HandOf(kind).Empty?;
    var last := FreeLock(cfg, t);
    RunFirst(cfg, s, Admit(kind), last);
    return [Admit(kind)] + last;
  }

  /** A hand can always be emptied while a settled frame stays where it is. */
  lemma EmptyHand(cfg: Config, s: State, kind: Kind, b: Buffer) returns (steps: seq<Step>)
    requires Settled(s, b)
    ensures Runnable(cfg, s, steps) && Quiet(steps)
    ensures var t := After(cfg, s, steps); t.lock.Free? && t.HandOf(kind).Empty? && Settled(t, b)
  {
    var first := FreeLock(cfg, s);
    var t := After(cfg, s, first);
    if t.HandOf(kind).Empty? {
      return first;
    }
    var last := AdmitFrees(cfg, t, kind, b);
    RunConcat(cfg, s, first, last);
    return first + last;
  }

  // ----- bringing a pending frame into the queue -----

  ghost predicate Drained(s: State, t: State) {
    && t.queue == [] && t.worker.Waiting? && t.lock == s.lock && t.running
    && t.hand3d == s.hand3d && t.hand2d == s.hand2d
  }

  lemma TakeRunning(cfg: Config, s: State)
    requires QueueInv(s) && s.running && s.worker.Waiting? && s.queue != []
    ensures var t := Next(cfg, s, Take);
            && t.running && t.worker.Saving? && t.queue == s.queue[1..] && t.lock == s.lock
            && t.hand3d == s.hand3d && t.hand2d == s.hand2d
  {
  }

  /** While the pipeline runs the worker can save everything that is queued. */
  lemma {:induction false} Drain(cfg: Config, s: State) returns (steps: seq<Step>)
    requires QueueInv(s) && s.running
    ensures Runnable(cfg, s, steps) && Quiet(steps) && Drained(s, After(cfg, s, steps))
    decreases |s.queue|, s.worker.Saving?
  {
    if s.worker.Waiting? && s.queue == [] {
      return [];
    }
    var step := if s.worker.Saving? then SaveDone else Take;
    if step.Take? {
      TakeRunning(cfg, s);
    }
    QueueStep(cfg, s, step);
    var more := Drain(cfg, Next(cfg, s, step));
    RunFirst(cfg, s, step, more);
    return [step] + more;
  }

  /** A producer in `queue.put` can always succeed. */
  lemma PutSettles(cfg: Config, s: State) returns (steps: seq<Step>)
    requires QueueInv(s) && s.lock.Putting?
    ensures Runnable(cfg, s, steps) && Quiet(steps) && Settled(After(cfg, s, steps), s.lock.b)
  {
    var first := Drain(cfg, s);
    var last := FreeLock(cfg, After(cfg, s, first));
    RunConcat(cfg, s, first, last);
    return first + last;
  }

  lemma NothingHeldNoBytes(cfg: Config, s: State)
    requires ByteInv(cfg, s) && s.queue == [] && s.worker.Waiting? && s.lock.Free?
    ensures s.queuedBytes == 0
  {
    assert Occupants(s) == [];
  }

  lemma AdmitSettles(cfg: Config, s: State, kind: Kind) returns (steps: seq<Step>)
    requires DeliveryInv(cfg, s) && s.running && s.HandOf(kind).Holding?
    requires s.queue == [] && s.worker.Waiting? && s.lock.Free?
    ensures Runnable(cfg, s, steps) && Quiet(steps) && Settled(After(cfg, s, steps), s.HandOf(kind).b)
  {
    NothingHeldNoBytes(cfg, s);
    QueueStep(cfg, s, Admit(kind));
    var put := PutSettles(cfg, Next(cfg, s, Admit(kind)));
    RunFirst(cfg, s, Admit(kind), put);
    return [Admit(kind)] + put;
  }

  /** A frame in its producer's hand can always be admitted while the pipeline runs. */
  lemma HandSettles(cfg: Config, s: State, kind: Kind) returns (steps: seq<Step>)
    requires DeliveryInv(cfg, s) && s.running && s.HandOf(kind).Holding?
    ensures Runnable(cfg, s, steps) && Quiet(steps) && Settled(After(cfg, s, steps), s.HandOf(kind).b)
  {
    var first := FreeLock(cfg, s);
    DeliveryKept(cfg, s, first);
    var t := After(cfg, s, first);
    var second := Drain(cfg, t);
    DeliveryKept(cfg, t, second);
    var last := AdmitSettles(cfg, After(cfg, t, second), kind);
    RunConcat(cfg, t, second, last);
    RunConcat(cfg, s, first, second + last);
    return first + (second + last);
  }

  /** Every pending frame can be brought into the queue without touching the cache. */
  lemma Settle(cfg: Config, s: State, b: Buffer) returns (steps: seq<Step>)
    requires DeliveryInv(cfg, s) && b in Pending(s)
    ensures Runnable(cfg, s, steps) && Quiet(steps) && Settled(After(cfg, s, steps), b)
  {
    if Settled(s, b) {
      return [];
    } else if s.lock.Putting? && s.lock.b == b {
      steps := PutSettles(cfg, s);
    } else if s.hand3d == Holding(b) {
      steps := HandSettles(cfg, s, Sick);
    } else {
      steps := HandSettles(cfg, s, Area);
    }
  }

  // ----- reserving up to a pending frame's index -----

  /** The coil is cached, and its next index of the frame's kind is not above the frame's. */
  ghost predicate Below(s: State, b: Buffer) {
    s.ix.cache.Valid() && b.coil in s.ix.cache.marks && s.ix.cache.marks[b.coil].Next(b.kind) <= b.index
  }

  lemma ReserveAdvances(cfg: Config, s: State, b: Buffer)
    requires Below(s, b) && Settled(s, b) && s.ix.cache.marks[b.coil].Next(b.kind) < b.index
    ensures var t := DoReserve(cfg, s, b.kind, b.coil, 0);
            && Below(t, b) && Settled(t, b)
            && t.ix.cache.marks[b.coil].Next(b.kind) == s.ix.cache.marks[b.coil].Next(b.kind) + 1
  {
    StoreTouches(cfg.cacheSize, s.ix.cache, b.coil, Advance(s.ix.cache.marks[b.coil], b.kind));
  }

  lemma ReserveRepeats(s: State, b: Buffer)
    requires Below(s, b) && Settled(s, b) && s.ix.cache.marks[b.coil].Next(b.kind) == b.index
    ensures Repeats(s, Reserve(b.kind, b.coil, 0))
  {
    SettledPending(s, b);
  }

  /** Reservations of the coil, all of them hits, reach the index of the settled frame. */
  lemma {:induction false} ReachIndex(cfg: Config, s: State, b: Buffer) returns (rest: seq<Step>)
    requires Below(s, b) && Settled(s, b)
    ensures Runnable(cfg, s, rest) && HitsOnly(cfg, s, rest) && Reuses(cfg, s, rest)
    decreases b.index - s.ix.cache.marks[b.coil].Next(b.kind)
  {
    var ready := EmptyHand(cfg, s, b.kind, b);
    QuietRun(cfg, s, ready);
    var t, step := After(cfg, s, ready), Reserve(b.kind, b.coil, 0);
    var more := [];
    if t.ix.cache.marks[b.coil].Next(b.kind) == b.index {
      ReserveRepeats(t, b);
    } else {
      ReserveAdvances(cfg, t, b);
      more := ReachIndex(cfg, Next(cfg, t, step), b);
    }
    RunFirst(cfg, t, step, more);
    assert ([step] + more)[1..] == more;
    rest := ready + ([step] + more);
    RunConcat(cfg, s, ready, [step] + more);
    HitsConcat(cfg, s, ready, [step] + more);
    ReusesLater(cfg, s, ready, [step] + more);
  }

  /** A miss leaves the coil cached under the mark it entered with. */
  lemma MissEnters(cfg: Config, s: State, step: Step)
    requires s.ix.cache.Valid() && OfIndexLock(step) && Enabled(s, step)
    ensures var t := Next(cfg, s, step);
            && t.ix.cache.Valid() && step.coil in t.ix.cache.marks
            && t.ix.cache.marks[step.coil]
               == (if step.Reserve? then Advance(EntryMark(s, step), step.kind) else EntryMark(s, step))
  {
    StoreTouches(cfg.cacheSize, s.ix.cache, step.coil,
                 if step.Reserve? then Advance(EntryMark(s, step), step.kind) else EntryMark(s, step));
  }

  lemma MissKeepsPending(cfg: Config, s: State, step: Step)
    requires OfIndexLock(step) && Enabled(s, step)
    ensures Pending(s) <= Pending(Next(cfg, s, step))
  {
  }

  /** The exact other side: after an unsafe miss, some continuation without any further
      miss hands out the index of a frame that is still pending. */
  lemma UnsafeMissReuses(cfg: Config, s: State, step: Step) returns (rest: seq<Step>)
    requires DeliveryInv(cfg, s) && s.ix.cache.Valid() && Enabled(s, step) && OfIndexLock(step)
    requires !SafeMiss(s, step)
    ensures Runnable(cfg, Next(cfg, s, step), rest) && HitsOnly(cfg, Next(cfg, s, step), rest)
    ensures Runnable(cfg, s, [step] + rest) && Reuses(cfg, s, [step] + rest)
  {
    var b :| b in Pending(s) && b.coil == step.coil && b.index >= EntryMark(s, step).Next(b.kind);
    var t := Next(cfg, s, step);
    MissEnters(cfg, s, step);
    if step.Reserve? && step.kind == b.kind && EntryMark(s, step).Next(b.kind) == b.index {
      rest := [];
      assert Repeats(s, step);
    } else {
      MissKeepsPending(cfg, s, step);
      DeliveryStep(cfg, s, step);
      var settle := Settle(cfg, t, b);
      QuietRun(cfg, t, settle);
      var u := After(cfg, t, settle);
      var climb := ReachIndex(cfg, u, b);
      rest := settle + climb;
      RunConcat(cfg, t, settle, climb);
      HitsConcat(cfg, t, settle, climb);
      ReusesLater(cfg, t, settle, climb);
    }
    RunFirst(cfg, s, step, rest);
    assert ([step] + rest)[1..] == rest;
  }

  // ----- exactly -----

  /** The first unsafe miss of a run. */
  lemma {:induction false} FirstUnsafe(cfg: Config, s: State, steps: seq<Step>) returns (n: nat)
    requires Runnable(cfg, s, steps) && !SafeRun(cfg, s, steps)
    ensures n < |steps| && Runnable(cfg, s, steps[..n]) && SafeRun(cfg, s, steps[..n])
    ensures var t := After(cfg, s, steps[..n]); Enabled(t, steps[n]) && OfIndexLock(steps[n]) && !SafeMiss(t, steps[n])
    decreases |steps|
  {
    if !SafeMiss(s, steps[0]) {
      return 0;
    }
    n := FirstUnsafe(cfg, Next(cfg, s, steps[0]), steps[1..]);
    RunFirst(cfg, s, steps[0], steps[1..][..n]);
    assert [steps[0]] + steps[1..][..n] == steps[..n + 1];
    n := n + 1;
    assert steps[..n][1..] == steps[1..][..n - 1];
  }

  lemma {:induction false} RunSplit(cfg: Config, s: State, a: seq<Step>, b: seq<Step>)
    requires Runnable(cfg, s, a + b)
    ensures Runnable(cfg, s, a) && Runnable(cfg, After(cfg, s, a), b)
    decreases |a|
  {
    if a == [] {
      assert a + b == b;
    } else {
      assert (a + b)[0] == a[0] && (a + b)[1..] == a[1..] + b;
      RunSplit(cfg, Next(cfg, s, a[0]), a[1..], b);
    }
  }

  /** After the first `n` steps of the run, some further steps that all find their coil in
      the cache hand an index out a second time, if that did not happen before. */
  ghost predicate ReusedAfter(cfg: Config, s: State, steps: seq<Step>, n: nat, rest: seq<Step>) {
    && n <= |steps| && Runnable(cfg, s, steps[..n]) && Runnable(cfg, After(cfg, s, steps[..n]), rest)
    && HitsOnly(cfg, After(cfg, s, steps[..n]), rest)
    && Runnable(cfg, s, steps[..n] + rest) && Reuses(cfg, s, steps[..n] + rest)
  }

  /** The exact condition for indices to be used once. Every miss of a run is safe if and
      only if no index is handed out that a pending frame or a file has, neither in the run
      nor in any continuation of a part of it in which the cache is only hit. */
  lemma NoReuseIff(cfg: Config, disk: seq<FrameFile>, steps: seq<Step>)
    requires Distinct(disk) && Runnable(cfg, Initial(disk), steps)
    ensures SafeRun(cfg, Initial(disk), steps)
       <==> forall n: nat, rest :: !ReusedAfter(cfg, Initial(disk), steps, n, rest)
  {
    var s := Initial(disk);
    InitialOverwriteInv(cfg, disk);
    if SafeRun(cfg, s, steps) {
      forall n: nat, rest
        ensures !ReusedAfter(cfg, s, steps, n, rest)
      {
        if n <= |steps| && ReusedAfter(cfg, s, steps, n, rest) {
          assert steps[..n] + steps[n..] == steps;
          SafeHeadSafe(cfg, s, steps[..n], steps[n..]);
          SafePrefixNoReuse(cfg, s, steps[..n], rest);
          assert false;
        }
      }
    } else {
      var n := FirstUnsafe(cfg, s, steps);
      OverwriteKept(cfg, s, steps[..n]);
      var t := After(cfg, s, steps[..n]);
      var rest := UnsafeMissReuses(cfg, t, steps[n]);
      RunConcat(cfg, s, steps[..n], [steps[n]] + rest);
      ReusesLater(cfg, s, steps[..n], [steps[n]] + rest);
      UnsafeIsReused(cfg, s, steps, n, rest);
    }
  }

  lemma SafeHeadSafe(cfg: Config, s: State, a: seq<Step>, b: seq<Step>)
    requires Runnable(cfg, s, a + b) && SafeRun(cfg, s, a + b)
    ensures Runnable(cfg, s, a) && SafeRun(cfg, s, a)
  {
    RunSplit(cfg, s, a, b);
    SafeConcat(cfg, s, a, b);
  }

  lemma SafePrefixNoReuse(cfg: Config, s: State, a: seq<Step>, rest: seq<Step>)
    requires OverwriteInv(cfg, s) && Runnable(cfg, s, a) && SafeRun(cfg, s, a)
    requires Runnable(cfg, After(cfg, s, a), rest) && HitsOnly(cfg, After(cfg, s, a), rest)
    requires Runnable(cfg, s, a + rest)
    ensures !Reuses(cfg, s, a + rest)
  {
    HitsAreSafe(cfg, After(cfg, s, a), rest);
    SafeConcat(cfg, s, a, rest);
    SafeRunFresh(cfg, s, a + rest);
  }

  lemma UnsafeIsReused(cfg: Config, s: State, steps: seq<Step>, n: nat, rest: seq<Step>)
    requires n < |steps| && Runnable(cfg, s, steps[..n]) && Enabled(After(cfg, s, steps[..n]), steps[n])
    requires Runnable(cfg, Next(cfg, After(cfg, s, steps[..n]), steps[n]), rest)
    requires HitsOnly(cfg, Next(cfg, After(cfg, s, steps[..n]), steps[n]), rest)
    requires Runnable(cfg, s, steps[..n] + ([steps[n]] + rest)) && Reuses(cfg, s, steps[..n] + ([steps[n]] + rest))
    ensures ReusedAfter(cfg, s, steps, n + 1, rest)
  {
    RunExtends(cfg, s, steps[..n], steps[n]);
    OneMore(steps, n, rest);
  }

  lemma OneMore(steps: seq<Step>, n: nat, rest: seq<Step>)
    requires n < |steps|
    ensures steps[..n] + [steps[n]] == steps[..n + 1]
    ensures steps[..n] + ([steps[n]] + rest) == steps[..n + 1] + rest
  {
  }

  ghost predicate ReusedNow(cfg: Config, s: State, step: Step, rest: seq<Step>)
    requires Enabled(s, step)
  {
    && Runnable(cfg, Next(cfg, s, step), rest) && HitsOnly(cfg, Next(cfg, s, step), rest)
    && Runnable(cfg, s, [step] + rest) && Reuses(cfg, s, [step] + rest)
  }

  /** The same for a single step, as a caller could check it on the cache and the pending
      frames before taking the step. */
  lemma SafeMissIff(cfg: Config, s: State, step: Step)
    requires OverwriteInv(cfg, s) && Enabled(s, step) && OfIndexLock(step)
    ensures SafeMiss(s, step) <==> forall rest :: !ReusedNow(cfg, s, step, rest)
  {
    if SafeMiss(s, step) {
      forall rest
        ensures !ReusedNow(cfg, s, step, rest)
      {
        if ReusedNow(cfg, s, step, rest) {
          HitsAreSafe(cfg, Next(cfg, s, step), rest);
          assert ([step] + rest)[1..] == rest;
          SafeRunFresh(cfg, s, [step] + rest);
          assert false;
        }
      }
    } else {
      var rest := UnsafeMissReuses(cfg, s, step);
      assert ReusedNow(cfg, s, step, rest);
    }
  }
}
