/** The supervised process over time: its workers begin, progress and end activities while
    the heartbeat thread stamps, collects and publishes records, and the supervisor probes
    whatever record was published last. All share one clock. */
module HeartbeatProtocol {
  import opened Options
  import opened Heartbeat

  /** The heartbeat thread between two waits: it has read the clock, or it has built a
      record that is not yet published. */
  datatype Phase = Idle | Stamped(now: real) | Collected(r: Record)

  datatype Process = Process(pid: int, token: string, clock: real, table: seq<Entry>, phase: Phase, file: Record)

  /** `now` is the clock as the calling worker read it, some time before it took the lock. */
  datatype Event =
    | Tick(dt: real)
    | Begin(tok: Token, name: string, workId: Option<string>, timeout: real, now: real)
    | Progress(tok: Token, stage: string, now: real)
    | End(tok: Token)
    | Stamp
    | Collect
    | Publish(ok: bool)
    | Probe

  predicate Enabled(p: Process, e: Event) {
    match e
    case Tick(dt) => dt >= 0.0
    case Begin(token, _, _, timeout, now) => token !in Positions(p.table) && timeout >= 0.0 && now <= p.clock
    case Progress(_, _, now) => now <= p.clock
    case End(_) => true
    case Stamp => p.phase.Idle?
    case Collect => p.phase.Stamped?
    case Publish(_) => p.phase.Collected?
    case Probe => true
  }

  function Next(p: Process, e: Event): Process
    requires Enabled(p, e)
  {
    match e
    case Tick(dt) => p.(clock := p.clock + dt)
    case Begin(token, name, workId, timeout, now) =>
      p.(table := Began(p.table, token, NewActivity(name, workId, timeout, now)))
    case Progress(token, stage, now) => p.(table := Progressed(p.table, token, now, stage))
    case End(token) => p.(table := Ended(p.table, token))
    case Stamp => p.(phase := Stamped(p.clock))
    case Collect => p.(phase := Collected(Payload(p.pid, p.token, p.table, p.phase.now)))
    case Publish(ok) => p.(phase := Idle, file := if ok then p.phase.r else p.file)
    case Probe => p
  }

  ghost predicate Runnable(p: Process, events: seq<Event>)
    decreases |events|
  {
    events == [] || (Enabled(p, events[0]) && Runnable(Next(p, events[0]), events[1..]))
  }

  ghost function After(p: Process, events: seq<Event>): Process
    requires Runnable(p, events)
    decreases |events|
  {
    if events == [] then p else After(Next(p, events[0]), events[1..])
  }

  /** What the supervisor sees when it probes now. */
  function Seen(p: Process, timeout: real): Verdict {
    Judge(p.file, p.pid, p.clock, timeout)
  }

  // ----- no false alarm -----

  /** Every live activity's deadline is at least `interval` away. */
  ghost predicate Margin(table: seq<Entry>, clock: real, interval: real) {
    forall i :: 0 <= i < |table| ==> clock + interval <= table[i].activity.deadline
  }

  /** The record was stamped since the process was started; an earlier one may be a leftover
      of another process. */
  ghost predicate Own(r: Record, since: real) {
    r.Record? && r.updatedAt.Some? && since <= r.updatedAt.value
  }

  /** The published record is the process's own, stamped at most `interval` ago. */
  ghost predicate Rewritten(p: Process, interval: real, since: real) {
    Own(p.file, since) && p.clock - p.file.updatedAt.value <= interval
  }

  /** A record of this process, stamped in the past, whose deadlines all lie at least
      `interval` after its stamp. */
  ghost predicate Roomy(r: Record, pid: int, clock: real, interval: real) {
    r.Record? ==>
      && r.service == SERVICE_NAME && r.pid == Some(pid) && r.updatedAt.Some? && r.updatedAt.value <= clock
      && r.activities.List? && r.status == "ok"
      && forall i :: 0 <= i < |r.activities.items| ==>
           r.activities.items[i].Due? && r.updatedAt.value + interval <= r.activities.items[i].deadline
  }

  ghost predicate RoomyInv(p: Process, interval: real, since: real) {
    && (Own(p.file, since) ==> Roomy(p.file, p.pid, p.clock, interval))
    && (p.phase.Collected? ==> Roomy(p.phase.r, p.pid, p.clock, interval))
    && (p.phase.Stamped? ==> p.phase.now <= p.clock)
  }

  lemma CollectRoomy(p: Process, interval: real)
    requires p.phase.Stamped? && p.phase.now <= p.clock && interval >= 0.0
    requires Margin(p.table, p.clock, interval)
    ensures Roomy(Payload(p.pid, p.token, p.table, p.phase.now), p.pid, p.clock, interval)
  {
    forall e | e in p.table
      ensures p.phase.now <= e.activity.deadline
    {
      var i :| 0 <= i < |p.table| && p.table[i] == e;
    }
  }

  lemma RoomyStep(p: Process, e: Event, interval: real, since: real)
    requires RoomyInv(p, interval, since) && Enabled(p, e) && interval >= 0.0
    requires Margin(p.table, p.clock, interval)
    ensures RoomyInv(Next(p, e), interval, since)
  {
    if e.Collect? {
      CollectRoomy(p, interval);
    }
  }

  lemma RoomySeen(p: Process, interval: real, since: real, timeout: real)
    requires RoomyInv(p, interval, since) && Rewritten(p, interval, since) && 0.0 <= interval <= timeout
    ensures Seen(p, timeout).Healthy?
  {
    HealthyIff(p.file, p.pid, p.clock, timeout);
  }

  // ----- timely signs of life -----

  lemma {:induction false} RunAppended(p: Process, events: seq<Event>, e: Event)
    requires Runnable(p, events + [e])
    ensures Runnable(p, events) && Enabled(After(p, events), e)
    ensures After(p, events + [e]) == Next(After(p, events), e)
    decreases |events|
  {
    if events == [] {
      assert [] + [e] == [e] && [e][1..] == [];
      assert Runnable(Next(p, e), []) && After(Next(p, e), []) == Next(p, e);
    } else {
      assert (events + [e])[1..] == events[1..] + [e];
      RunAppended(Next(p, events[0]), events[1..], e);
    }
  }

  lemma {:induction false} RunTogether(p: Process, a: seq<Event>, b: seq<Event>)
    ensures Runnable(p, a + b) <==> Runnable(p, a) && Runnable(After(p, a), b)
    ensures Runnable(p, a + b) ==> After(p, a + b) == After(After(p, a), b)
    decreases |a|
  {
    if a == [] {
      assert a + b == b;
    } else {
      assert (a + b)[1..] == a[1..] + b;
      if Enabled(p, a[0]) {
        RunTogether(Next(p, a[0]), a[1..], b);
      }
    }
  }

  /** When an activity last gave a sign of life and how long it may then stay silent. */
  datatype Sign = Sign(at: real, timeout: real)

  /** The last sign of the activity, read off the events alone: it was begun and has not
      been ended since. */
  function LastSign(events: seq<Event>, tok: Token): Option<Sign> {
    if events == [] then None
    else
      var past := LastSign(events[..|events| - 1], tok);
      match events[|events| - 1]
      case Begin(t, _, _, timeout, now) => if t == tok then Some(Sign(now, timeout)) else past
      case Progress(t, _, now) => if t == tok && past.Some? then Some(Sign(now, past.value.timeout)) else past
      case End(t) => if t == tok then None else past
      case _ => past
  }

  /** An activity is in the table while it has a sign of life, and its deadline is its own
      timeout after the last one. */
  ghost predicate Signed(table: seq<Entry>, events: seq<Event>) {
    && DistinctTokens(table)
    && (forall tok :: LastSign(events, tok).Some? ==> tok in Positions(table))
    && (forall i :: 0 <= i < |table| ==> SignedEntry(table[i], events))
  }

  ghost predicate SignedEntry(e: Entry, events: seq<Event>) {
    && LastSign(events, e.token) == Some(Sign(e.activity.progressAt, e.activity.timeout))
    && e.activity.deadline == e.activity.progressAt + e.activity.timeout
  }

  lemma {:induction false} EndedExactly(table: seq<Entry>, tok: Token)
    requires DistinctTokens(table)
    ensures DistinctTokens(Ended(table, tok))
    ensures forall e :: e in Ended(table, tok) <==> e in table && e.token != tok
  {
    if table != [] {
      EndedExactly(table[1..], tok);
      assert table == [table[0]] + table[1..];
      if table[0].token != tok {
        assert forall e :: e in Ended(table[1..], tok) ==> e in table[1..];
      }
    }
  }

  lemma SignedEnded(table: seq<Entry>, events: seq<Event>, tok: Token)
    requires Signed(table, events)
    ensures Signed(Ended(table, tok), events + [End(tok)])
  {
    var after, all := Ended(table, tok), events + [End(tok)];
    assert all[..|events|] == events;
    EndedExactly(table, tok);
    forall i | 0 <= i < |after|
      ensures SignedEntry(after[i], all)
    {
      assert after[i] in after;
    }
    forall t | LastSign(all, t).Some?
      ensures t in Positions(after)
    {
      assert t in Positions(table);
      var e :| e in table && e.token == t;
      assert e in after;
    }
  }

  lemma SignedBegan(table: seq<Entry>, events: seq<Event>, e: Event)
    requires Signed(table, events) && e.Begin? && e.tok !in Positions(table)
    ensures Signed(Began(table, e.tok, NewActivity(e.name, e.workId, e.timeout, e.now)), events + [e])
  {
    var after := Began(table, e.tok, NewActivity(e.name, e.workId, e.timeout, e.now));
    assert (events + [e])[..|events|] == events;
    forall i | 0 <= i < |table|
      ensures table[i].token != e.tok && SignedEntry(after[i], events + [e])
    {
      assert table[i] in table && SignedEntry(table[i], events);
    }
    assert after[|table|] in after;
    forall tok | LastSign(events + [e], tok).Some? && tok != e.tok
      ensures tok in Positions(after)
    {
      assert tok in Positions(table);
    }
  }

  lemma SignedProgressed(table: seq<Entry>, events: seq<Event>, e: Event)
    requires Signed(table, events) && e.Progress?
    ensures Signed(Progressed(table, e.tok, e.now, e.stage), events + [e])
  {
    var after := Progressed(table, e.tok, e.now, e.stage);
    assert (events + [e])[..|events|] == events;
    assert forall i :: 0 <= i < |table| ==> after[i].token == table[i].token && SignedEntry(table[i], events);
    forall tok | LastSign(events + [e], tok).Some?
      ensures tok in Positions(after)
    {
      assert tok in Positions(table);
      var i :| 0 <= i < |table| && table[i].token == tok;
      assert after[i] in after;
    }
  }

  lemma SignedStep(p: Process, events: seq<Event>, e: Event)
    requires Signed(p.table, events) && Enabled(p, e)
    ensures Signed(Next(p, e).table, events + [e])
  {
    assert (events + [e])[..|events|] == events;
    match e
    case Begin(_, _, _, _, _) => SignedBegan(p.table, events, e);
    case Progress(_, _, _) => SignedProgressed(p.table, events, e);
    case End(tok) => SignedEnded(p.table, events, tok);
    case _ => assert forall i :: 0 <= i < |p.table| ==> SignedEntry(p.table[i], events);
  }

  /** Over every run the table holds exactly the activities with a sign of life, each with
      its deadline one timeout of its own after the last sign. */
  lemma {:induction false} DeadlinesFollowSigns(p: Process, events: seq<Event>)
    requires p.table == [] && Runnable(p, events)
    ensures Signed(After(p, events).table, events)
  {
    if events != [] {
      var init, e := events[..|events| - 1], events[|events| - 1];
      assert events == init + [e];
      RunAppended(p, init, e);
      DeadlinesFollowSigns(p, init);
      SignedStep(After(p, init), init, e);
    }
  }

  /** Each activity is ended, or progressed again, at least `interval` before its own timeout
      has passed since its last sign of life. */
  ghost predicate Timely(p: Process, events: seq<Event>, interval: real)
    requires Runnable(p, events)
  {
    forall n, tok :: 0 <= n <= |events| && LastSign(events[..n], tok).Some? && Runnable(p, events[..n]) ==>
      var sign := LastSign(events[..n], tok).value;
      After(p, events[..n]).clock <= sign.at + sign.timeout - interval
  }

  /** What is timely keeps its margin at every moment. */
  lemma TimelyMargin(p: Process, events: seq<Event>, interval: real, n: nat)
    requires p.table == [] && Runnable(p, events) && Timely(p, events, interval) && n <= |events|
    ensures Runnable(p, events[..n]) && Margin(After(p, events[..n]).table, After(p, events[..n]).clock, interval)
  {
    assert events == events[..n] + events[n..];
    RunTogether(p, events[..n], events[n..]);
    DeadlinesFollowSigns(p, events[..n]);
    var q := After(p, events[..n]);
    forall i | 0 <= i < |q.table|
      ensures q.clock + interval <= q.table[i].activity.deadline
    {
      assert SignedEntry(q.table[i], events[..n]);
      assert LastSign(events[..n], q.table[i].token).Some?;
    }
  }

  lemma {:induction false} TimelyRoomy(p: Process, events: seq<Event>, n: nat, interval: real, since: real)
    requires p.table == [] && Runnable(p, events) && Timely(p, events, interval) && n <= |events|
    requires interval >= 0.0 && RoomyInv(p, interval, since)
    ensures Runnable(p, events[..n]) && RoomyInv(After(p, events[..n]), interval, since)
  {
    if n > 0 {
      TimelyRoomy(p, events, n - 1, interval, since);
      TimelyMargin(p, events, interval, n - 1);
      TimelyMargin(p, events, interval, n);
      assert events[..n] == events[..n - 1] + [events[n - 1]];
      RunAppended(p, events[..n - 1], events[n - 1]);
      RoomyStep(After(p, events[..n - 1]), events[n - 1], interval, since);
    }
  }

  /** Whenever it is probed, the process has rewritten its record in time. */
  ghost predicate FreshWhenProbed(p: Process, events: seq<Event>, interval: real, since: real)
    requires Runnable(p, events)
  {
    forall n :: 0 <= n < |events| && events[n].Probe? && Runnable(p, events[..n]) ==>
      Rewritten(After(p, events[..n]), interval, since)
  }

  /** No false alarm: if from its start on a process ends or progresses its activities in
      time and has a fresh record whenever it is probed, every probe is healthy, although
      the supervisor sees the deadlines of the last published record, not the live ones. */
  lemma NoFalseAlarm(p: Process, events: seq<Event>, interval: real, since: real, timeout: real)
    requires p.table == [] && Runnable(p, events) && RoomyInv(p, interval, since) && 0.0 <= interval <= timeout
    requires Timely(p, events, interval) && FreshWhenProbed(p, events, interval, since)
    ensures forall n :: 0 <= n < |events| && events[n].Probe? ==>
      Runnable(p, events[..n]) && Seen(After(p, events[..n]), timeout).Healthy?
  {
    forall n | 0 <= n < |events| && events[n].Probe?
      ensures Runnable(p, events[..n]) && Seen(After(p, events[..n]), timeout).Healthy?
    {
      TimelyRoomy(p, events, n, interval, since);
      RoomySeen(After(p, events[..n]), interval, since, timeout);
    }
  }

  // ----- bounded detection -----

  /** The activity is in the table with this deadline. */
  ghost predicate Live(table: seq<Entry>, tok: Token, deadline: real) {
    exists i :: 0 <= i < |table| && table[i].token == tok && table[i].activity.deadline == deadline
  }

  /** Nothing is heard of the activity any more. */
  ghost predicate Silent(events: seq<Event>, tok: Token) {
    forall e :: e in events ==> !(e.Progress? && e.tok == tok) && !(e.End? && e.tok == tok)
  }

  ghost predicate Shows(items: seq<Item>, deadline: real) {
    exists i :: 0 <= i < |items| && items[i].Due? && items[i].deadline == deadline
  }

  /** The record is too old to show the activity, or it shows its deadline. */
  ghost predicate Betrays(r: Record, since: real, deadline: real) {
    r.Record? ==>
      && r.updatedAt.Some?
      && (r.updatedAt.value <= since || (r.activities.List? && Shows(r.activities.items, deadline)))
  }

  ghost predicate HungInv(p: Process, tok: Token, since: real, deadline: real) {
    && Live(p.table, tok, deadline)
    && Betrays(p.file, since, deadline)
    && (p.phase.Collected? ==> Betrays(p.phase.r, since, deadline))
  }

  lemma LiveKept(p: Process, e: Event, tok: Token, deadline: real)
    requires Live(p.table, tok, deadline) && Enabled(p, e) && Silent([e], tok)
    ensures Live(Next(p, e).table, tok, deadline)
  {
    assert e in [e];
    var i :| 0 <= i < |p.table| && p.table[i].token == tok && p.table[i].activity.deadline == deadline;
    match e
    case Begin(_, _, _, _, _) => assert Next(p, e).table[i] == p.table[i];
    case Progress(_, _, _) => assert Next(p, e).table[i] == p.table[i];
    case End(other) => EndedKeeps(p.table, other, i);
    case _ =>
  }

  lemma {:induction false} EndedKeeps(table: seq<Entry>, other: Token, i: nat)
    requires i < |table| && table[i].token != other
    ensures table[i] in Ended(table, other)
  {
    if i > 0 {
      EndedKeeps(table[1..], other, i - 1);
      assert table[1..][i - 1] == table[i];
    }
  }

  lemma HungStep(p: Process, e: Event, tok: Token, since: real, deadline: real)
    requires HungInv(p, tok, since, deadline) && Enabled(p, e) && Silent([e], tok)
    ensures HungInv(Next(p, e), tok, since, deadline)
  {
    LiveKept(p, e, tok, deadline);
    if e.Collect? {
      var i :| 0 <= i < |p.table| && p.table[i].token == tok && p.table[i].activity.deadline == deadline;
      assert ItemsOf(p.table)[i] == ItemOf(p.table[i]);
    }
  }

  lemma {:induction false} HungKept(p: Process, events: seq<Event>, tok: Token, since: real, deadline: real)
    requires HungInv(p, tok, since, deadline) && Runnable(p, events) && Silent(events, tok)
    ensures HungInv(After(p, events), tok, since, deadline)
    decreases |events|
  {
    if events != [] {
      assert events[0] in events;
      HungStep(p, events[0], tok, since, deadline);
      HungKept(Next(p, events[0]), events[1..], tok, since, deadline);
    }
  }

  /** Any record published or in the making was stamped in the past. */
  ghost predicate Past(p: Process) {
    && (p.file.Record? ==> p.file.updatedAt.Some? && p.file.updatedAt.value <= p.clock)
    && (p.phase.Stamped? ==> p.phase.now <= p.clock)
    && (p.phase.Collected? && p.phase.r.Record? ==> p.phase.r.updatedAt.Some? && p.phase.r.updatedAt.value <= p.clock)
  }

  lemma HungSeen(p: Process, tok: Token, since: real, deadline: real, timeout: real)
    requires HungInv(p, tok, since, deadline)
    requires p.clock > deadline && p.clock > since + timeout
    ensures Seen(p, timeout).Unhealthy?
  {
    HealthyIff(p.file, p.pid, p.clock, timeout);
  }

  /** Bounded detection: once an activity has been begun or progressed for the last time,
      every probe after both its deadline and one heartbeat timeout fails, whether the
      heartbeat thread goes on publishing, fails to publish or hangs itself. */
  lemma HungActivityDetected(p: Process, events: seq<Event>, tok: Token, deadline: real, timeout: real)
    requires Past(p) && Live(p.table, tok, deadline)
    requires Runnable(p, events) && Silent(events, tok)
    requires After(p, events).clock > deadline && After(p, events).clock > p.clock + timeout
    ensures Seen(After(p, events), timeout).Unhealthy?
  {
    HungKept(p, events, tok, p.clock, deadline);
    HungSeen(After(p, events), tok, p.clock, deadline, timeout);
  }

  /** The same from the events alone: an activity that has given its last sign of life is
      seen to be overdue once its own timeout has passed since then, and one heartbeat
      timeout since anything was heard of it. */
  lemma HungSinceLastSign(p: Process, before: seq<Event>, later: seq<Event>, tok: Token, timeout: real)
    requires p.table == [] && Past(p) && Runnable(p, before) && Runnable(After(p, before), later)
    requires Silent(later, tok) && LastSign(before, tok).Some?
    requires After(After(p, before), later).clock > LastSign(before, tok).value.at + LastSign(before, tok).value.timeout
    requires After(After(p, before), later).clock > After(p, before).clock + timeout
    ensures Seen(After(After(p, before), later), timeout).Unhealthy?
  {
    PastKept(p, before);
    DeadlinesFollowSigns(p, before);
    var q := After(p, before);
    assert tok in Positions(q.table);
    var i :| 0 <= i < |q.table| && q.table[i].token == tok;
    assert SignedEntry(q.table[i], before);
    HungActivityDetected(q, later, tok, q.table[i].activity.deadline, timeout);
  }

  lemma {:induction false} PastKept(p: Process, events: seq<Event>)
    requires Past(p) && Runnable(p, events)
    ensures Past(After(p, events))
    ensures After(p, events).clock >= p.clock && After(p, events).pid == p.pid
    decreases |events|
  {
    if events != [] {
      PastKept(Next(p, events[0]), events[1..]);
    }
  }
}
