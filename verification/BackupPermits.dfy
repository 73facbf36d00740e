/** Admission of image backups (app/Base/utils/Backup.py): who holds one of the permits of
    the semaphore while callers are cancelled, submissions fail and workers run on. */
module BackupPermits {
  import opened Counting

  type Task = nat

  /** Where a call stands. `Attached` awaits its worker; `Detached` was cancelled and has
      left a callback on the worker's future; `Releasing` has the release queued on the
      event loop. `done` says whether the worker has finished. */
  datatype Phase = Admitted | Attached(done: bool) | Detached(done: bool) | Releasing | Released

  /** `submitted` and `ended` are the tasks whose worker was handed to the executor and has
      finished; `releases` lists the releases of the semaphore in order. */
  datatype State = State(
    free: nat,
    tasks: map<Task, Phase>,
    submitted: set<Task>,
    ended: set<Task>,
    releases: seq<Task>)

  /** `loopOpen` says whether the event loop still accepts the queued release. */
  datatype Event =
    | Acquire(t: Task)
    | Submit(t: Task)
    | SubmitFails(t: Task)
    | WorkerEnds(t: Task)
    | Resume(t: Task)
    | Cancel(t: Task)
    | CallbackRuns(t: Task, loopOpen: bool)
    | ReleaseRuns(t: Task)

  function Initial(permits: nat): State {
    State(permits, map[], {}, {}, [])
  }

  predicate In(s: State, t: Task, p: Phase) {
    t in s.tasks && s.tasks[t] == p
  }

  predicate Enabled(s: State, e: Event) {
    match e
    case Acquire(t) => s.free > 0 && t !in s.tasks
    case Submit(t) => In(s, t, Admitted)
    case SubmitFails(t) => In(s, t, Admitted)
    case WorkerEnds(t) => In(s, t, Attached(false)) || In(s, t, Detached(false))
    case Resume(t) => In(s, t, Attached(true))
    case Cancel(t) => t in s.tasks && s.tasks[t].Attached?
    case CallbackRuns(t, _) => In(s, t, Detached(true))
    case ReleaseRuns(t) => In(s, t, Releasing)
  }

  function Move(s: State, t: Task, p: Phase): State {
    s.(tasks := s.tasks[t := p])
  }

  function Release(s: State, t: Task): State {
    Move(s, t, Released).(free := s.free + 1, releases := s.releases + [t])
  }

  function Next(s: State, e: Event): State
    requires Enabled(s, e)
  {
    match e
    case Acquire(t) => Move(s, t, Admitted).(free := s.free - 1)
    case Submit(t) => Move(s, t, Attached(false)).(submitted := s.submitted + {t})
    case SubmitFails(t) => Release(s, t)
    case WorkerEnds(t) =>
      Move(s, t, if s.tasks[t].Attached? then Attached(true) else Detached(true)).(ended := s.ended + {t})
    case Resume(t) => Release(s, t)
    case Cancel(t) => Move(s, t, Detached(s.tasks[t].done))
    case CallbackRuns(t, loopOpen) => if loopOpen then Move(s, t, Releasing) else Release(s, t)
    case ReleaseRuns(t) => Release(s, t)
  }

  ghost predicate Runnable(s: State, events: seq<Event>)
    decreases |events|
  {
    events == [] || (Enabled(s, events[0]) && Runnable(Next(s, events[0]), events[1..]))
  }

  ghost function After(s: State, events: seq<Event>): State
    requires Runnable(s, events)
    decreases |events|
  {
    if events == [] then s else After(Next(s, events[0]), events[1..])
  }

  // ----- conservation -----

  /** The tasks that hold a permit. */
  function Holders(s: State): set<Task> {
    set t | t in s.tasks && s.tasks[t] != Released
  }

  /** The tasks whose worker is queued or running. */
  function Workers(s: State): set<Task> {
    s.submitted - s.ended
  }

  predicate Busy(p: Phase) {
    p == Attached(false) || p == Detached(false)
  }

  ghost predicate Inv(permits: nat, s: State) {
    && s.free + |Holders(s)| == permits
    && s.ended <= s.submitted
    && (forall t :: t in s.submitted ==> t in s.tasks && !s.tasks[t].Admitted?)
    && (forall t :: t in s.tasks ==> (t in Workers(s) <==> Busy(s.tasks[t])))
    && (forall t :: t in s.releases <==> In(s, t, Released))
    && (forall i, j :: 0 <= i < j < |s.releases| ==> s.releases[i] != s.releases[j])
  }

  lemma MoveHolders(s: State, t: Task, p: Phase)
    requires t in s.tasks && s.tasks[t] != Released && p != Released
    ensures Holders(Move(s, t, p)) == Holders(s)
  {
  }

  lemma ReleaseHolders(s: State, t: Task)
    requires t in s.tasks && s.tasks[t] != Released
    ensures Holders(s) == Holders(Release(s, t)) + {t} && t !in Holders(Release(s, t))
    ensures |Holders(s)| == |Holders(Release(s, t))| + 1
  {
    assert Holders(s) == Holders(Release(s, t)) + {t};
  }

  lemma ReleaseKeeps(permits: nat, s: State, t: Task)
    requires Inv(permits, s) && t in s.tasks && s.tasks[t] != Released && !Busy(s.tasks[t])
    ensures Inv(permits, Release(s, t))
  {
    ReleaseHolders(s, t);
    assert t !in s.releases;
  }

  lemma AcquireKeeps(permits: nat, s: State, t: Task)
    requires Inv(permits, s) && Enabled(s, Acquire(t))
    ensures Inv(permits, Next(s, Acquire(t)))
  {
    assert Holders(Next(s, Acquire(t))) == Holders(s) + {t};
  }

  lemma Step(permits: nat, s: State, e: Event)
    requires Inv(permits, s) && Enabled(s, e)
    ensures Inv(permits, Next(s, e))
  {
    match e
    case Acquire(t) => AcquireKeeps(permits, s, t);
    case Submit(t) => MoveHolders(s, t, Attached(false));
    case SubmitFails(t) => ReleaseKeeps(permits, s, t);
    case WorkerEnds(t) => MoveHolders(s, t, if s.tasks[t].Attached? then Attached(true) else Detached(true));
    case Resume(t) => ReleaseKeeps(permits, s, t);
    case Cancel(t) => MoveHolders(s, t, Detached(s.tasks[t].done));
    case CallbackRuns(t, loopOpen) =>
      if loopOpen {
        MoveHolders(s, t, Releasing);
      } else {
        ReleaseKeeps(permits, s, t);
      }
    case ReleaseRuns(t) => ReleaseKeeps(permits, s, t);
  }

  lemma {:induction false} InvKept(permits: nat, s: State, events: seq<Event>)
    requires Inv(permits, s) && Runnable(s, events)
    ensures Inv(permits, After(s, events))
    decreases |events|
  {
    if events != [] {
      Step(permits, s, events[0]);
      InvKept(permits, Next(s, events[0]), events[1..]);
    }
  }

  /** In every interleaving: free and held permits add up, no more workers are queued or
      running than there are permits, and a task has released its permit at most once, not
      before its worker finished, and exactly if it no longer holds it. */
  lemma PermitsConserved(permits: nat, events: seq<Event>)
    requires Runnable(Initial(permits), events)
    ensures var s := After(Initial(permits), events);
            && s.free + |Holders(s)| == permits
            && |Workers(s)| <= permits
            && (forall i, j :: 0 <= i < j < |s.releases| ==> s.releases[i] != s.releases[j])
            && (forall t :: t in s.tasks ==> (t in s.releases <==> t !in Holders(s)))
            && (forall t :: t in s.releases && t in s.submitted ==> t in s.ended)
  {
    assert Holders(Initial(permits)) == {};
    InvKept(permits, Initial(permits), events);
    var s := After(Initial(permits), events);
    assert Workers(s) <= Holders(s);
    SubsetCardinality(Workers(s), Holders(s));
    forall t | t in s.releases && t in s.submitted
      ensures t in s.ended
    {
      assert In(s, t, Released);
    }
  }

  /** What is still to happen until a task in this phase has released its permit, with the
      event loop open or closed by then. */
  function Remaining(t: Task, p: Phase, loopOpen: bool): seq<Event> {
    match p
    case Admitted => [SubmitFails(t)]
    case Attached(done) => if done then [Resume(t)] else [WorkerEnds(t), Resume(t)]
    case Detached(done) =>
      (if done then [] else [WorkerEnds(t)]) + [CallbackRuns(t, loopOpen)] + if loopOpen then [ReleaseRuns(t)] else []
    case Releasing => [ReleaseRuns(t)]
    case Released => []
  }

  lemma One(s: State, a: Event)
    requires Enabled(s, a)
    ensures Runnable(s, [a]) && After(s, [a]) == Next(s, a)
  {
    var t := Next(s, a);
    assert [a][1..] == [];
    assert Runnable(t, []) && After(t, []) == t;
  }

  lemma Two(s: State, a: Event, b: Event)
    requires Enabled(s, a) && Enabled(Next(s, a), b)
    ensures Runnable(s, [a, b]) && After(s, [a, b]) == Next(Next(s, a), b)
  {
    One(Next(s, a), b);
    assert [a, b][1..] == [b];
  }

  lemma Three(s: State, a: Event, b: Event, c: Event)
    requires Enabled(s, a) && Enabled(Next(s, a), b) && Enabled(Next(Next(s, a), b), c)
    ensures Runnable(s, [a, b, c]) && After(s, [a, b, c]) == Next(Next(Next(s, a), b), c)
  {
    Two(Next(s, a), b, c);
    assert [a, b, c][1..] == [b, c];
  }

  /** `t` has released its permit since, and nothing else has changed for the others. */
  ghost predicate ReleasedSince(s: State, u: State, t: Task) {
    && In(u, t, Released) && u.free == s.free + 1 && u.releases == s.releases + [t]
    && u.tasks.Keys == s.tasks.Keys
    && forall other :: other in s.tasks && other != t ==> u.tasks[other] == s.tasks[other]
  }

  lemma DetachedCanRelease(s: State, t: Task, loopOpen: bool)
    requires t in s.tasks && s.tasks[t].Detached?
    ensures Runnable(s, Remaining(t, s.tasks[t], loopOpen))
    ensures ReleasedSince(s, After(s, Remaining(t, s.tasks[t], loopOpen)), t)
  {
    var ending, running, releasing := WorkerEnds(t), CallbackRuns(t, loopOpen), ReleaseRuns(t);
    if s.tasks[t].done && loopOpen {
      Two(s, running, releasing);
      assert Remaining(t, s.tasks[t], loopOpen) == [running, releasing];
    } else if s.tasks[t].done {
      One(s, running);
      assert Remaining(t, s.tasks[t], loopOpen) == [running];
    } else if loopOpen {
      Three(s, ending, running, releasing);
      assert Remaining(t, s.tasks[t], loopOpen) == [ending, running, releasing];
    } else {
      Two(s, ending, running);
      assert Remaining(t, s.tasks[t], loopOpen) == [ending, running];
    }
  }

  /** No permit is lost: from every state every holder can still release, by steps of its
      own alone and whether or not the event loop is closed by then, and the semaphore gains
      exactly that permit. */
  lemma EveryHolderCanRelease(s: State, t: Task, loopOpen: bool)
    requires t in Holders(s)
    ensures Runnable(s, Remaining(t, s.tasks[t], loopOpen))
    ensures ReleasedSince(s, After(s, Remaining(t, s.tasks[t], loopOpen)), t)
  {
    match s.tasks[t]
    case Admitted => One(s, SubmitFails(t));
    case Attached(done) =>
      if done {
        One(s, Resume(t));
      } else {
        Two(s, WorkerEnds(t), Resume(t));
      }
    case Detached(_) => DetachedCanRelease(s, t, loopOpen);
    case Releasing => One(s, ReleaseRuns(t));
    case Released =>
  }
}
