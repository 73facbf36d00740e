/** The supervisor loop of app/algorithm_runtime/watchdog.py, which
    app/plcServer/write_plc_watchdog.py repeats: start the child, probe its heartbeat, stop
    it after enough failures in a row, restart it with a growing delay. */
module Watchdog {
  import opened Options

  /** The environment settings; each is positive in the source. */
  datatype Config = Config(
    grace: real,
    threshold: nat,
    stable: real,
    restartDelay: real,
    restartMaxDelay: real)
  {
    predicate Valid() {
      grace > 0.0 && threshold >= 1 && restartDelay > 0.0 && restartMaxDelay > 0.0
    }
  }

  /** What the world answers during one turn of the loop: whether the child starts (and the
      clock then), whether it has exited when polled (and the clock then), the clock after
      the sleep, and the health check. */
  datatype Turn = Turn(starts: bool, startClock: real, exited: bool, exitClock: real, wake: real, healthy: bool)

  /** What the supervisor does. Children are numbered in the order they are started. */
  datatype Action =
    | Started(child: nat)
    | StartFailed
    | SawExit(child: nat, uptime: real)
    | InGrace(child: nat)
    | Probed(child: nat, uptime: real, ok: bool)
    | Stopped(child: nat)
    | Waited(delay: real)

  datatype Watch = Watch(
    process: Option<nat>,
    consecutiveFailures: nat,
    restartFailures: nat,
    startedAt: real,
    nextChild: nat,
    log: seq<Action>)

  function Initial(): Watch {
    Watch(None, 0, 0, 0.0, 0, [])
  }

  function Pow2(n: nat): nat {
    if n == 0 then 1 else 2 * Pow2(n - 1)
  }

  function Min(a: real, b: real): real {
    if a <= b then a else b
  }

  function MaxReal(a: real, b: real): real {
    if a >= b then a else b
  }

  function Doubled(cfg: Config, times: nat): real {
    cfg.restartDelay * Pow2(times) as real
  }

  function Backoff(cfg: Config, failures: nat): real {
    var exponent := if failures >= 1 then failures - 1 else 0;
    Min(Doubled(cfg, if exponent <= 10 then exponent else 10), MaxReal(cfg.restartMaxDelay, cfg.restartDelay))
  }

  function Uptime(s: Watch, clock: real): real {
    MaxReal(clock - s.startedAt, 0.0)
  }

  /** One more restart is due. */
  function Retry(cfg: Config, s: Watch, restarts: nat, what: seq<Action>): Watch {
    s.(process := None, restartFailures := restarts,
       log := s.log + what + [Waited(Backoff(cfg, restarts))])
  }

  /** A turn from the start attempt to the poll: None when the turn is over. */
  function Ensure(cfg: Config, s: Watch, t: Turn): (Watch, bool) {
    if s.process.Some? then (s, true)
    else if !t.starts then (Retry(cfg, s, s.restartFailures + 1, [StartFailed]), false)
    else (s.(process := Some(s.nextChild), startedAt := t.startClock, consecutiveFailures := 0,
             nextChild := s.nextChild + 1, log := s.log + [Started(s.nextChild)]), true)
  }

  /** The probe at the end of a turn. */
  function Judge(cfg: Config, s: Watch, t: Turn): Watch
    requires s.process.Some?
  {
    var child, uptime := s.process.value, Uptime(s, t.wake);
    if uptime < cfg.grace then s.(log := s.log + [InGrace(child)])
    else if t.healthy then
      s.(consecutiveFailures := 0,
         restartFailures := if uptime >= cfg.stable then 0 else s.restartFailures,
         log := s.log + [Probed(child, uptime, true)])
    else if s.consecutiveFailures + 1 < cfg.threshold then
      s.(consecutiveFailures := s.consecutiveFailures + 1, log := s.log + [Probed(child, uptime, false)])
    else
      Retry(cfg, s.(consecutiveFailures := 0), s.restartFailures + 1, [Probed(child, uptime, false), Stopped(child)])
  }

  function Poll(cfg: Config, s: Watch, t: Turn): Watch
    requires s.process.Some?
  {
    if t.exited then
      var restarts := if Uptime(s, t.exitClock) >= cfg.stable then 0 else s.restartFailures;
      Retry(cfg, s, restarts + 1, [SawExit(s.process.value, Uptime(s, t.exitClock))])
    else Judge(cfg, s, t)
  }

  function Iterate(cfg: Config, s: Watch, t: Turn): Watch {
    var (u, up) := Ensure(cfg, s, t);
    if !up then u
    else
      assert u.process.Some?;
      Poll(cfg, u, t)
  }

  function Supervised(cfg: Config, s: Watch, turns: seq<Turn>): Watch
    decreases |turns|
  {
    if turns == [] then s else Supervised(cfg, Iterate(cfg, s, turns[0]), turns[1..])
  }

  /** Where the loop stands when it is interrupted. */
  function Interrupted(cfg: Config, s: Watch, last: Option<Turn>): Watch {
    if last.Some? then Ensure(cfg, s, last.value).0 else s
  }

  // ----- the loop itself -----

  class Supervisor {
    const cfg: Config
    var process: Option<nat>
    var consecutiveFailures: nat
    var restartFailures: nat
    var startedAt: real
    var nextChild: nat
    var log: seq<Action>

    ghost function View(): Watch
      reads this
    {
      Watch(process, consecutiveFailures, restartFailures, startedAt, nextChild, log)
    }

    constructor (cfg: Config)
      ensures this.cfg == cfg && View() == Initial()
    {
      this.cfg := cfg;
      process, consecutiveFailures, restartFailures, startedAt := None, 0, 0, 0.0;
      nextChild, log := 0, [];
    }

    method WaitBeforeRetry()
      modifies this`log
      ensures log == old(log) + [Waited(Backoff(cfg, restartFailures))]
    {
      log := log + [Waited(Backoff(cfg, restartFailures))];
    }

    /** The start of a turn: a child is running or is started now. */
    method EnsureChild(t: Turn) returns (up: bool)
      modifies this
      ensures up <==> process.Some?
      ensures old(process).Some? ==> View() == old(View())
      ensures old(process).None? && t.starts ==>
                View() == Watch(Some(old(nextChild)), 0, old(restartFailures), t.startClock, old(nextChild) + 1,
                                old(log) + [Started(old(nextChild))])
      ensures old(process).None? && !t.starts ==>
                View() == old(View()).(restartFailures := old(restartFailures) + 1,
                                       log := old(log) + [StartFailed, Waited(Backoff(cfg, restartFailures))])
      ensures (View(), up) == Ensure(cfg, old(View()), t)
    {
      if process == None {
        if !t.starts {
          restartFailures := restartFailures + 1;
          log := log + [StartFailed];
          WaitBeforeRetry();
          return false;
        }
        process := Some(nextChild);
        log := log + [Started(nextChild)];
        nextChild := nextChild + 1;
        startedAt := t.startClock;
        consecutiveFailures := 0;
      }
      return true;
    }

    /** One turn of the loop. */
    method OneTurn(t: Turn)
      modifies this
      ensures old(process).Some? && t.exited ==>
                var uptime := if t.exitClock >= old(startedAt) then t.exitClock - old(startedAt) else 0.0;
                View() == old(View()).(
                  process := None, restartFailures := 1 + (if uptime >= cfg.stable then 0 else old(restartFailures)),
                  log := old(log) + [SawExit(old(process).value, uptime), Waited(Backoff(cfg, restartFailures))])
      ensures View() == Iterate(cfg, old(View()), t)
    {
      var up := EnsureChild(t);
      if !up {
        return;
      }
      var child := process.value;
      if t.exited {
        var uptime := MaxReal(t.exitClock - startedAt, 0.0);
        if uptime >= cfg.stable {
          restartFailures := 0;
        }
        restartFailures := restartFailures + 1;
        process := None;
        log := log + [SawExit(child, uptime)];
        WaitBeforeRetry();
        return;
      }
      CheckHealth(child, t.wake, t.healthy);
    }

    /** After the sleep: the grace period, the probe, and the stop it may lead to. */
    method CheckHealth(child: nat, wake: real, healthy: bool)
      requires process == Some(child)
      modifies this
      ensures var uptime := if wake >= old(startedAt) then wake - old(startedAt) else 0.0;
              var failures := old(consecutiveFailures) + 1;
              && startedAt == old(startedAt) && nextChild == old(nextChild)
              && (uptime < cfg.grace ==> View() == old(View()).(log := old(log) + [InGrace(child)]))
              && (uptime >= cfg.grace && healthy ==>
                    process == Some(child) && consecutiveFailures == 0
                    && restartFailures == (if uptime >= cfg.stable then 0 else old(restartFailures))
                    && log == old(log) + [Probed(child, uptime, true)])
              && (uptime >= cfg.grace && !healthy && failures < cfg.threshold ==>
                    process == Some(child) && consecutiveFailures == failures && restartFailures == old(restartFailures)
                    && log == old(log) + [Probed(child, uptime, false)])
              && (uptime >= cfg.grace && !healthy && failures >= cfg.threshold ==>
                    process == None && consecutiveFailures == 0 && restartFailures == old(restartFailures) + 1
                    && log == old(log) + [Probed(child, uptime, false), Stopped(child), Waited(Backoff(cfg, restartFailures))])
      ensures forall t: Turn :: t.wake == wake && t.healthy == healthy ==> View() == Judge(cfg, old(View()), t)
    {
      var uptime := MaxReal(wake - startedAt, 0.0);
      if uptime < cfg.grace {
        log := log + [InGrace(child)];
        return;
      }
      if healthy {
        log := log + [Probed(child, uptime, true)];
        consecutiveFailures := 0;
        if uptime >= cfg.stable {
          restartFailures := 0;
        }
        return;
      }
      consecutiveFailures := consecutiveFailures + 1;
      if consecutiveFailures < cfg.threshold {
        log := log + [Probed(child, uptime, false)];
        return;
      }
      log := log + [Probed(child, uptime, false), Stopped(child)];
      process := None;
      consecutiveFailures := 0;
      restartFailures := restartFailures + 1;
      WaitBeforeRetry();
    }

    /** The loop until it is interrupted, between two turns or, if `last` is given, in one whose
        child has been found or started. On the way out the child left running, if any, is
        stopped: it is returned. */
    method SuperviseUntilInterrupt(turns: seq<Turn>, last: Option<Turn>) returns (stopped: Option<nat>)
      requires cfg.Valid() && Inv(cfg, View())
      modifies this
      ensures var s := Interrupted(cfg, Supervised(cfg, old(View()), turns), last);
              && stopped == s.process && View() == s.(process := None)
              && RightLog(cfg, log) && stopped == Alive(log)
    {
      LogStaysRight(cfg, View(), turns);
      Supervise(turns);
      if last.Some? {
        EnsureKeeps(cfg, View(), last.value);
        var _ := EnsureChild(last.value);
      }
      stopped := process;
      process := None;
    }

    /** The endless loop, for as many turns as the world has answers for. */
    method Supervise(turns: seq<Turn>)
      modifies this
      ensures View() == Supervised(cfg, old(View()), turns)
    {
      var i := 0;
      while i < |turns|
        invariant i <= |turns|
        invariant Supervised(cfg, View(), turns[i..]) == Supervised(cfg, old(View()), turns)
      {
        assert turns[i..][1..] == turns[i + 1..];
        OneTurn(turns[i]);
        i := i + 1;
      }
    }
  }

  // ----- what the log of any run says -----

  /** The child that is running after these actions. */
  function Alive(log: seq<Action>): Option<nat> {
    if log == [] then None
    else
      match log[|log| - 1]
      case Started(c) => Some(c)
      case SawExit(_, _) => None
      case Stopped(_) => None
      case _ => Alive(log[..|log| - 1])
  }

  /** The child exits by itself or is stopped. */
  predicate EndOf(a: Action, child: nat) {
    a == Stopped(child) || (a.SawExit? && a.child == child)
  }

  function Starts(log: seq<Action>): nat {
    if log == [] then 0
    else Starts(log[..|log| - 1]) + (if log[|log| - 1].Started? then 1 else 0)
  }

  predicate FailureOf(a: Action, child: nat) {
    a.Probed? && a.child == child && !a.ok
  }

  /** How many failing probes of `child` end the log, turns in grace aside. */
  function Trail(log: seq<Action>, child: nat): nat {
    if log == [] then 0
    else
      var past, a := log[..|log| - 1], log[|log| - 1];
      if FailureOf(a, child) then Trail(past, child) + 1
      else if a == InGrace(child) then Trail(past, child)
      else 0
  }

  /** The restarts counted since the service last proved stable: a failed start, an exit and
      a stop each count, a healthy probe or an exit after a stable uptime starts anew. */
  function Restarts(cfg: Config, log: seq<Action>): nat {
    if log == [] then 0
    else
      var past := Restarts(cfg, log[..|log| - 1]);
      match log[|log| - 1]
      case StartFailed => past + 1
      case SawExit(_, uptime) => (if uptime >= cfg.stable then 0 else past) + 1
      case Stopped(_) => past + 1
      case Probed(_, uptime, ok) => if ok && uptime >= cfg.stable then 0 else past
      case _ => past
  }

  /** The action is right after these: only a child that runs is probed, stopped or seen to
      exit, only when none runs is one started, a probe comes after the grace period, and
      a child is stopped exactly when its failures in a row have reached the threshold. */
  predicate Right(cfg: Config, past: seq<Action>, a: Action) {
    match a
    case Started(c) => Alive(past) == None && !Retries(past) && c == Starts(past)
    case StartFailed => Alive(past) == None && !Retries(past)
    case SawExit(c, _) => Alive(past) == Some(c) && Trail(past, c) < cfg.threshold
    case InGrace(c) => Alive(past) == Some(c) && Trail(past, c) < cfg.threshold
    case Probed(c, uptime, _) => Alive(past) == Some(c) && uptime >= cfg.grace && Trail(past, c) < cfg.threshold
    case Stopped(c) => Alive(past) == Some(c) && Trail(past, c) == cfg.threshold
    case Waited(delay) => Alive(past) == None && Retries(past) && delay == Backoff(cfg, Restarts(cfg, past))
  }

  /** A restart has just become due. */
  predicate Retries(log: seq<Action>) {
    log != [] && (log[|log| - 1].StartFailed? || log[|log| - 1].SawExit? || log[|log| - 1].Stopped?)
  }

  predicate RightLog(cfg: Config, log: seq<Action>) {
    log == [] || (RightLog(cfg, log[..|log| - 1]) && Right(cfg, log[..|log| - 1], log[|log| - 1]))
  }

  ghost predicate Inv(cfg: Config, s: Watch) {
    && RightLog(cfg, s.log)
    && s.process == Alive(s.log)
    && s.nextChild == Starts(s.log)
    && s.restartFailures == Restarts(cfg, s.log)
    && !Retries(s.log)
    && (s.process.Some? ==> s.consecutiveFailures == Trail(s.log, s.process.value) < cfg.threshold)
  }

  lemma Snoc(cfg: Config, log: seq<Action>, a: Action)
    ensures (log + [a])[..|log|] == log
    ensures RightLog(cfg, log + [a]) <==> RightLog(cfg, log) && Right(cfg, log, a)
    ensures Starts(log + [a]) == Starts(log) + (if a.Started? then 1 else 0)
    ensures Restarts(cfg, log + [a]) == match a
                                        case StartFailed => Restarts(cfg, log) + 1
                                        case SawExit(_, uptime) => (if uptime >= cfg.stable then 0 else Restarts(cfg, log)) + 1
                                        case Stopped(_) => Restarts(cfg, log) + 1
                                        case Probed(_, uptime, ok) => if ok && uptime >= cfg.stable then 0 else Restarts(cfg, log)
                                        case _ => Restarts(cfg, log)
    ensures forall c :: Trail(log + [a], c) ==
                        if FailureOf(a, c) then Trail(log, c) + 1 else if a == InGrace(c) then Trail(log, c) else 0
    ensures Alive(log + [a]) == match a case Started(c) => Some(c) case SawExit(_, _) => None case Stopped(_) => None case _ => Alive(log)
  {
    assert (log + [a])[..|log|] == log;
  }

  lemma {:induction false} PowPositive(n: nat)
    ensures Pow2(n) >= 1
  {
    if n > 0 {
      PowPositive(n - 1);
    }
  }

  lemma DoubledGrows(cfg: Config, times: nat)
    requires cfg.restartDelay > 0.0
    ensures Doubled(cfg, times) >= cfg.restartDelay
  {
    PowPositive(times);
    ScaleUp(cfg.restartDelay, Pow2(times) as real);
  }

  /** The delay is positive and capped. */
  lemma BackoffBounds(cfg: Config, failures: nat)
    requires cfg.Valid()
    ensures 0.0 < cfg.restartDelay <= Backoff(cfg, failures) <= MaxReal(cfg.restartMaxDelay, cfg.restartDelay)
  {
    var exponent := if failures >= 1 then failures - 1 else 0;
    DoubledGrows(cfg, if exponent <= 10 then exponent else 10);
  }

  /** The delay starts at the base delay, doubles with each further failure, is capped, and
      grows no more after the eleventh. */
  lemma BackoffDoubles(cfg: Config, failures: nat)
    requires cfg.Valid()
    ensures Backoff(cfg, 0) == Backoff(cfg, 1) == cfg.restartDelay
    ensures 1 <= failures <= 10 ==>
              Backoff(cfg, failures + 1) == Min(2.0 * Backoff(cfg, failures), MaxReal(cfg.restartMaxDelay, cfg.restartDelay))
    ensures failures >= 11 ==> Backoff(cfg, failures) == Backoff(cfg, 11)
  {
    assert Pow2(0) == 1;
    if 1 <= failures <= 10 {
      DoubledAgain(cfg, failures - 1);
      DoubledGrows(cfg, failures - 1);
    }
  }

  lemma DoubledAgain(cfg: Config, times: nat)
    ensures Doubled(cfg, times + 1) == 2.0 * Doubled(cfg, times)
  {
    assert Pow2(times + 1) as real == 2.0 * Pow2(times) as real;
    Reorder(cfg.restartDelay, Pow2(times) as real);
  }

  lemma Reorder(d: real, k: real)
    ensures d * (2.0 * k) == 2.0 * (d * k)
  {
  }

  lemma ScaleUp(d: real, k: real)
    requires d > 0.0 && k >= 1.0
    ensures d * k >= d
  {
  }

  lemma RetryKeeps(cfg: Config, s: Watch, restarts: nat, a: Action)
    requires RightLog(cfg, s.log) && s.nextChild == Starts(s.log)
    requires Right(cfg, s.log, a) && (a.StartFailed? || a.SawExit? || a.Stopped?)
    requires restarts == 1 + if a.SawExit? && a.uptime >= cfg.stable then 0 else Restarts(cfg, s.log)
    ensures Inv(cfg, Retry(cfg, s, restarts, [a]))
  {
    Snoc(cfg, s.log, a);
    Snoc(cfg, s.log + [a], Waited(Backoff(cfg, restarts)));
  }

  lemma JudgeKeeps(cfg: Config, s: Watch, t: Turn)
    requires cfg.Valid() && Inv(cfg, s) && s.process.Some?
    ensures Inv(cfg, Judge(cfg, s, t))
  {
    var child, uptime := s.process.value, Uptime(s, t.wake);
    Snoc(cfg, s.log, InGrace(child));
    Snoc(cfg, s.log, Probed(child, uptime, t.healthy));
    if uptime >= cfg.grace && !t.healthy && s.consecutiveFailures + 1 >= cfg.threshold {
      var probed := s.(consecutiveFailures := 0, log := s.log + [Probed(child, uptime, false)]);
      RetryKeeps(cfg, probed, s.restartFailures + 1, Stopped(child));
      assert s.log + [Probed(child, uptime, false), Stopped(child)] == probed.log + [Stopped(child)];
      assert Judge(cfg, s, t) == Retry(cfg, probed, s.restartFailures + 1, [Stopped(child)]);
    }
  }

  lemma EnsureKeeps(cfg: Config, s: Watch, t: Turn)
    requires cfg.Valid() && Inv(cfg, s)
    ensures Inv(cfg, Ensure(cfg, s, t).0)
  {
    if s.process.None? {
      if t.starts {
        Snoc(cfg, s.log, Started(s.nextChild));
      } else {
        RetryKeeps(cfg, s, s.restartFailures + 1, StartFailed);
      }
    }
  }

  lemma PollKeeps(cfg: Config, s: Watch, t: Turn)
    requires cfg.Valid() && Inv(cfg, s) && s.process.Some?
    ensures Inv(cfg, Poll(cfg, s, t))
  {
    if t.exited {
      var restarts := if Uptime(s, t.exitClock) >= cfg.stable then 0 else s.restartFailures;
      RetryKeeps(cfg, s, restarts + 1, SawExit(s.process.value, Uptime(s, t.exitClock)));
    } else {
      JudgeKeeps(cfg, s, t);
    }
  }

  lemma IterateKeeps(cfg: Config, s: Watch, t: Turn)
    requires cfg.Valid() && Inv(cfg, s)
    ensures Inv(cfg, Iterate(cfg, s, t))
  {
    EnsureKeeps(cfg, s, t);
    if Ensure(cfg, s, t).1 {
      PollKeeps(cfg, Ensure(cfg, s, t).0, t);
    }
  }

  /** Over any run the log is right at every action, and no child is left running with the
      threshold reached. */
  lemma {:induction false} LogStaysRight(cfg: Config, s: Watch, turns: seq<Turn>)
    requires cfg.Valid() && Inv(cfg, s)
    ensures Inv(cfg, Supervised(cfg, s, turns))
    decreases |turns|
  {
    if turns != [] {
      IterateKeeps(cfg, s, turns[0]);
      LogStaysRight(cfg, Iterate(cfg, s, turns[0]), turns[1..]);
    }
  }

  lemma {:induction false} RightAt(cfg: Config, log: seq<Action>, i: nat)
    requires RightLog(cfg, log) && i < |log|
    ensures Right(cfg, log[..i], log[i])
  {
    if i < |log| - 1 {
      var past := log[..|log| - 1];
      RightAt(cfg, past, i);
      assert past[..i] == log[..i];
    }
  }

  function Failures(log: seq<Action>, child: nat): nat {
    if log == [] then 0 else Failures(log[..|log| - 1], child) + (if FailureOf(log[|log| - 1], child) then 1 else 0)
  }

  /** A trail of failures is a stretch of the log with nothing but them and grace turns. */
  lemma {:induction false} TrailStretch(cfg: Config, log: seq<Action>, child: nat) returns (j: nat)
    requires RightLog(cfg, log)
    ensures j <= |log| && Failures(log[j..], child) == Trail(log, child)
    ensures forall m :: j <= m < |log| ==>
      log[m] == InGrace(child) || (FailureOf(log[m], child) && log[m].uptime >= cfg.grace)
  {
    if log == [] {
      return 0;
    }
    var past, a := log[..|log| - 1], log[|log| - 1];
    if FailureOf(a, child) || a == InGrace(child) {
      j := TrailStretch(cfg, past, child);
      assert log[j..][..|log[j..]| - 1] == past[j..];
    } else {
      j := |log|;
      assert log[j..] == [];
    }
  }

  /** Restraint: outside shutdown a child is stopped only right after a stretch of exactly
      `threshold` failing probes of that same child, all past the grace period, with no
      healthy probe and no other child in between. */
  lemma StoppedOnlyAfterFailures(cfg: Config, turns: seq<Turn>, i: nat)
    requires cfg.Valid() && i < |Supervised(cfg, Initial(), turns).log|
    requires Supervised(cfg, Initial(), turns).log[i].Stopped?
    ensures var log := Supervised(cfg, Initial(), turns).log;
            var child := log[i].child;
            exists j :: 0 <= j <= i && Failures(log[j..i], child) == cfg.threshold
                        && forall m :: j <= m < i ==>
                             log[m] == InGrace(child) || (FailureOf(log[m], child) && log[m].uptime >= cfg.grace)
  {
    LogStaysRight(cfg, Initial(), turns);
    var j := FailuresBefore(cfg, Supervised(cfg, Initial(), turns).log, i);
  }

  lemma FailuresBefore(cfg: Config, log: seq<Action>, i: nat) returns (j: nat)
    requires RightLog(cfg, log) && i < |log| && log[i].Stopped?
    ensures j <= i && Failures(log[j..i], log[i].child) == cfg.threshold
    ensures forall m :: j <= m < i ==>
      log[m] == InGrace(log[i].child) || (FailureOf(log[m], log[i].child) && log[m].uptime >= cfg.grace)
  {
    RightAt(cfg, log, i);
    PrefixRight(cfg, log, i);
    j := TrailStretch(cfg, log[..i], log[i].child);
    assert log[..i][j..] == log[j..i];
  }

  lemma {:induction false} PrefixRight(cfg: Config, log: seq<Action>, i: nat)
    requires RightLog(cfg, log) && i <= |log|
    ensures RightLog(cfg, log[..i])
  {
    if i < |log| {
      PrefixRight(cfg, log[..|log| - 1], i);
      assert log[..|log| - 1][..i] == log[..i];
    } else {
      assert log[..i] == log;
    }
  }

  /** And promptly: as soon as a running child has that many failures in a row, the very
      next action stops it. */
  lemma StoppedAsSoonAsFailed(cfg: Config, turns: seq<Turn>, i: nat, child: nat)
    requires cfg.Valid() && i <= |Supervised(cfg, Initial(), turns).log|
    requires var past := Supervised(cfg, Initial(), turns).log[..i];
             Alive(past) == Some(child) && Trail(past, child) >= cfg.threshold
    ensures var log := Supervised(cfg, Initial(), turns).log;
            i < |log| && log[i] == Stopped(child)
  {
    LogStaysRight(cfg, Initial(), turns);
    var log := Supervised(cfg, Initial(), turns).log;
    assert log[..|log|] == log;
    if i < |log| {
      RightAt(cfg, log, i);
    }
  }

  /** At most one child at a time: every child is started only when the ones before it have
      been stopped or have exited. */
  lemma OneChildAtATime(cfg: Config, turns: seq<Turn>, i: nat)
    requires cfg.Valid() && i < |Supervised(cfg, Initial(), turns).log|
    requires Supervised(cfg, Initial(), turns).log[i].Started?
    ensures var log := Supervised(cfg, Initial(), turns).log;
            && Alive(log[..i]) == None
            && forall j :: 0 <= j < i && log[j].Started? ==>
                 log[j].child < log[i].child
                 && exists m :: j < m < i && (EndOf(log[m], log[j].child))
  {
    LogStaysRight(cfg, Initial(), turns);
    var log := Supervised(cfg, Initial(), turns).log;
    RightAt(cfg, log, i);
    forall j | 0 <= j < i && log[j].Started?
      ensures log[j].child < log[i].child
      ensures exists m :: j < m < i && (EndOf(log[m], log[j].child))
    {
      RightAt(cfg, log, j);
      StartsGrow(log, j, i);
      var _ := EndedBetween(cfg, log, j, i);
    }
  }

  /** Each failed start, exit or stop is at once followed by a wait, whose length the restarts
      counted up to it determine, and nothing is started before. */
  lemma EachRestartWaits(cfg: Config, turns: seq<Turn>, i: nat)
    requires cfg.Valid() && i < |Supervised(cfg, Initial(), turns).log|
    requires Retries(Supervised(cfg, Initial(), turns).log[..i + 1])
    ensures var log := Supervised(cfg, Initial(), turns).log;
            i + 1 < |log| && log[i + 1] == Waited(Backoff(cfg, Restarts(cfg, log[..i + 1])))
  {
    LogStaysRight(cfg, Initial(), turns);
    var log := Supervised(cfg, Initial(), turns).log;
    assert log[..|log|] == log;
    if i + 1 < |log| {
      RightAt(cfg, log, i);
      RightAt(cfg, log, i + 1);
      assert log[..i + 1][..i] == log[..i];
    }
  }

  lemma {:induction false} StartsGrow(log: seq<Action>, j: nat, i: nat)
    requires j < i <= |log| && log[j].Started?
    ensures Starts(log[..j]) < Starts(log[..i])
    decreases i
  {
    assert log[..i][..i - 1] == log[..i - 1];
    if j < i - 1 {
      StartsGrow(log, j, i - 1);
    }
  }

  /** If the child started at `j` no longer runs just before `i`, its end lies between. */
  lemma {:induction false} EndedBetween(cfg: Config, log: seq<Action>, j: nat, i: nat) returns (m: nat)
    requires RightLog(cfg, log) && j < i <= |log| && log[j].Started? && Alive(log[..i]) != Some(log[j].child)
    ensures j < m < i && (EndOf(log[m], log[j].child))
    decreases i
  {
    assert log[..i][..i - 1] == log[..i - 1];
    assert log[..i][i - 1] == log[i - 1];
    assert j < i - 1;
    RightAt(cfg, log, i - 1);
    if Alive(log[..i - 1]) == Some(log[j].child) {
      m := i - 1;
    } else {
      m := EndedBetween(cfg, log, j, i - 1);
    }
  }
}
