/** Supervisor and process together on one clock: a well-behaved child is never stopped,
    and a child with a hung activity is stopped within a bound. */
module SupervisedProcess {
  import opened Options
  import opened Heartbeat
  import opened HeartbeatProtocol
  import W = Watchdog

  /** What one sleep-and-probe turn of the supervisor answers when the process, still
      running, is in state `p`. */
  function TurnFor(p: Process, timeout: real): W.Turn {
    W.Turn(true, 0.0, false, 0.0, p.clock, Seen(p, timeout).Healthy?)
  }

  /** The process runs through one chunk of events before each probe. */
  ghost predicate RoundsRunnable(p: Process, rounds: seq<seq<Event>>)
    decreases |rounds|
  {
    rounds != [] ==> HeartbeatProtocol.Runnable(p, rounds[0]) && RoundsRunnable(HeartbeatProtocol.After(p, rounds[0]), rounds[1..])
  }

  /** The state of the process when the supervisor wakes for the probe of round `i`. */
  ghost function AtProbe(p: Process, rounds: seq<seq<Event>>, i: nat): Process
    requires RoundsRunnable(p, rounds) && i < |rounds|
    decreases i
  {
    var q := HeartbeatProtocol.After(p, rounds[0]);
    if i == 0 then q else AtProbe(q, rounds[1..], i - 1)
  }

  /** The round in which the supervisor stops the child it watches, if any. */
  ghost function StopRound(cfg: W.Config, timeout: real, p: Process, w: W.Watch, rounds: seq<seq<Event>>): Option<nat>
    requires RoundsRunnable(p, rounds) && w.process.Some?
    decreases |rounds|
  {
    if rounds == [] then None
    else
      var q := HeartbeatProtocol.After(p, rounds[0]);
      var v := W.Iterate(cfg, w, TurnFor(q, timeout));
      if v.process.None? then Some(0)
      else
        match StopRound(cfg, timeout, q, v, rounds[1..])
        case None => None
        case Some(i) => Some(i + 1)
  }

  // ----- the well-behaved child -----

  /** All events, chunk after chunk. */
  function Flat(rounds: seq<seq<Event>>): seq<Event> {
    if rounds == [] then [] else rounds[0] + Flat(rounds[1..])
  }

  lemma {:induction false} FlatRuns(p: Process, rounds: seq<seq<Event>>)
    requires RoundsRunnable(p, rounds)
    ensures HeartbeatProtocol.Runnable(p, Flat(rounds))
    decreases |rounds|
  {
    if rounds != [] {
      FlatRuns(HeartbeatProtocol.After(p, rounds[0]), rounds[1..]);
      RunTogether(p, rounds[0], Flat(rounds[1..]));
    }
  }

  /** The record is fresh at each probe from the moment `probed` on. */
  ghost predicate FreshFrom(p: Process, rounds: seq<seq<Event>>, interval: real, since: real, probed: real)
    requires RoundsRunnable(p, rounds)
  {
    forall i :: 0 <= i < |rounds| && AtProbe(p, rounds, i).clock >= probed ==>
      Rewritten(AtProbe(p, rounds, i), interval, since)
  }

  lemma CalmTurn(cfg: W.Config, timeout: real, q: Process, w: W.Watch)
    requires cfg.Valid() && w.process.Some?
    requires q.clock >= w.startedAt + cfg.grace ==> Seen(q, timeout).Healthy?
    ensures var v := W.Iterate(cfg, w, TurnFor(q, timeout));
            v.process == w.process && v.startedAt == w.startedAt
  {
  }

  /** The rounds of a timely process, some of whose events lie behind it. */
  lemma {:induction false} TimelyNeverStopped(
      cfg: W.Config, timeout: real, interval: real, since: real,
      start: Process, past: seq<Event>, p: Process, w: W.Watch, rounds: seq<seq<Event>>)
    requires cfg.Valid() && 0.0 <= interval <= timeout && w.process.Some?
    requires start.table == [] && RoomyInv(start, interval, since)
    requires HeartbeatProtocol.Runnable(start, past) && p == HeartbeatProtocol.After(start, past)
    requires RoundsRunnable(p, rounds) && HeartbeatProtocol.Runnable(start, past + Flat(rounds))
    requires Timely(start, past + Flat(rounds), interval)
    requires FreshFrom(p, rounds, interval, since, w.startedAt + cfg.grace)
    ensures StopRound(cfg, timeout, p, w, rounds).None?
    decreases |rounds|
  {
    if rounds != [] {
      var q, more := HeartbeatProtocol.After(p, rounds[0]), past + rounds[0];
      var events := past + Flat(rounds);
      assert events == more + Flat(rounds[1..]) && events[..|more|] == more;
      RunTogether(start, past, rounds[0]);
      TimelyRoomy(start, events, |more|, interval, since);
      assert AtProbe(p, rounds, 0) == q;
      if Rewritten(q, interval, since) {
        RoomySeen(q, interval, since, timeout);
      }
      CalmTurn(cfg, timeout, q, w);
      forall i | 0 <= i < |rounds[1..]| && AtProbe(q, rounds[1..], i).clock >= w.startedAt + cfg.grace
        ensures Rewritten(AtProbe(q, rounds[1..], i), interval, since)
      {
        assert AtProbe(p, rounds, i + 1) == AtProbe(q, rounds[1..], i);
      }
      TimelyNeverStopped(cfg, timeout, interval, since, start, more, q, W.Iterate(cfg, w, TurnFor(q, timeout)), rounds[1..]);
    }
  }

  /** No false kill: a child is never stopped if from its start on it ends each activity, or
      progresses it again, at least `interval` before the activity's own timeout has passed
      since its last sign of life, and if at each probe after the grace period its record is
      at most `interval` old, which is not longer than the heartbeat timeout. */
  lemma WellBehavedNeverStopped(
      cfg: W.Config, timeout: real, interval: real, since: real, p: Process, w: W.Watch, rounds: seq<seq<Event>>)
    requires cfg.Valid() && 0.0 <= interval <= timeout && w.process.Some?
    requires p.table == [] && RoomyInv(p, interval, since) && RoundsRunnable(p, rounds)
    requires HeartbeatProtocol.Runnable(p, Flat(rounds)) && Timely(p, Flat(rounds), interval)
    requires FreshFrom(p, rounds, interval, since, w.startedAt + cfg.grace)
    ensures StopRound(cfg, timeout, p, w, rounds).None?
  {
    assert [] + Flat(rounds) == Flat(rounds);
    assert HeartbeatProtocol.Runnable(p, []) && HeartbeatProtocol.After(p, []) == p;
    TimelyNeverStopped(cfg, timeout, interval, since, p, [], p, w, rounds);
  }

  // ----- the hung child -----

  function Times(n: nat, period: real): real {
    if n == 0 then 0.0 else period + Times(n - 1, period)
  }

  lemma {:induction false} TimesGrows(m: nat, n: nat, period: real)
    requires m <= n && period >= 0.0
    ensures 0.0 <= Times(m, period) <= Times(n, period)
    decreases n
  {
    if m < n {
      TimesGrows(m, n - 1, period);
    } else if m > 0 {
      TimesGrows(m - 1, m - 1, period);
    }
  }

  /** The supervisor wakes at most `period` after its last wake. */
  ghost predicate Punctual(p: Process, rounds: seq<seq<Event>>, period: real)
    requires RoundsRunnable(p, rounds)
    decreases |rounds|
  {
    rounds != [] ==>
      var q := HeartbeatProtocol.After(p, rounds[0]);
      q.clock <= p.clock + period && Punctual(q, rounds[1..], period)
  }

  ghost predicate AllSilent(rounds: seq<seq<Event>>, tok: Token) {
    forall i :: 0 <= i < |rounds| ==> Silent(rounds[i], tok)
  }

  /** The later of the moment from which every probe fails and the end of the grace period. */
  function Ripe(cfg: W.Config, w: W.Watch, since: real, deadline: real, timeout: real): real {
    W.MaxReal(W.MaxReal(deadline, since + timeout), w.startedAt + cfg.grace)
  }

  lemma OneFailingTurn(cfg: W.Config, timeout: real, q: Process, w: W.Watch)
    requires w.process.Some? && w.consecutiveFailures < cfg.threshold
    requires q.clock > w.startedAt + cfg.grace && cfg.grace >= 0.0 && Seen(q, timeout).Unhealthy?
    ensures var v := W.Iterate(cfg, w, TurnFor(q, timeout));
            if w.consecutiveFailures + 1 < cfg.threshold
            then v.process == w.process && v.startedAt == w.startedAt && v.consecutiveFailures == w.consecutiveFailures + 1
            else v.process.None?
  {
  }

  /** The induction behind `HungChildStopped`: since the ripe moment at most one period has
      passed for each failure counted. */
  lemma {:induction false} StoppedByFailures(
      cfg: W.Config, timeout: real, period: real, ripe: real,
      p: Process, w: W.Watch, rounds: seq<seq<Event>>, tok: Token, since: real, deadline: real) returns (i: nat)
    requires cfg.Valid() && period >= 0.0 && w.process.Some?
    requires w.consecutiveFailures < cfg.threshold && ripe == Ripe(cfg, w, since, deadline, timeout)
    requires HungInv(p, tok, since, deadline) && RoundsRunnable(p, rounds)
    requires AllSilent(rounds, tok) && Punctual(p, rounds, period)
    requires p.clock <= ripe + Times(w.consecutiveFailures, period)
    requires rounds != [] ==> AtProbe(p, rounds, |rounds| - 1).clock > ripe + Times(cfg.threshold, period)
    requires rounds == [] ==> p.clock > ripe + Times(cfg.threshold, period)
    ensures StopRound(cfg, timeout, p, w, rounds) == Some(i)
    ensures i < |rounds| && AtProbe(p, rounds, i).clock <= ripe + Times(cfg.threshold, period)
    decreases |rounds|
  {
    TimesGrows(w.consecutiveFailures, cfg.threshold, period);
    var q := HeartbeatProtocol.After(p, rounds[0]);
    var v := W.Iterate(cfg, w, TurnFor(q, timeout));
    assert Silent(rounds[0], tok);
    HungKept(p, rounds[0], tok, since, deadline);
    TimesGrows(w.consecutiveFailures + 1, cfg.threshold, period);
    if q.clock > ripe {
      HungSeen(q, tok, since, deadline, timeout);
      OneFailingTurn(cfg, timeout, q, w);
    }
    if v.process.None? {
      return 0;
    }
    TimesGrows(0, v.consecutiveFailures, period);
    i := StoppedByFailures(cfg, timeout, period, ripe, q, v, rounds[1..], tok, since, deadline);
    i := i + 1;
  }

  /** Bounded detection end to end: an activity last begun or progressed by now never ends.
      If the supervisor probes at least every `period`, the child is stopped within
      `threshold` periods of the latest of the activity's deadline, one heartbeat timeout
      from now, and the end of the grace period. */
  lemma HungChildStopped(
      cfg: W.Config, timeout: real, period: real,
      p: Process, w: W.Watch, rounds: seq<seq<Event>>, tok: Token, deadline: real)
    requires cfg.Valid() && period >= 0.0 && timeout >= 0.0
    requires w.process.Some? && w.consecutiveFailures < cfg.threshold
    requires Past(p) && Live(p.table, tok, deadline)
    requires rounds != [] && RoundsRunnable(p, rounds) && AllSilent(rounds, tok) && Punctual(p, rounds, period)
    requires AtProbe(p, rounds, |rounds| - 1).clock > Ripe(cfg, w, p.clock, deadline, timeout) + Times(cfg.threshold, period)
    ensures exists i :: 0 <= i < |rounds|
              && StopRound(cfg, timeout, p, w, rounds) == Some(i)
              && AtProbe(p, rounds, i).clock <= Ripe(cfg, w, p.clock, deadline, timeout) + Times(cfg.threshold, period)
  {
    TimesGrows(0, w.consecutiveFailures, period);
    var _ := StoppedByFailures(cfg, timeout, period, Ripe(cfg, w, p.clock, deadline, timeout),
                               p, w, rounds, tok, p.clock, deadline);
  }
}
