/** Heartbeat identity in the PLC writer's watchdog (app/plcServer/write_plc_watchdog.py):
    every child gets a fresh token and writes it into its records, so a record left behind
    by an earlier child, or written late by one that survived its stop, is never taken for
    the current child's, even when the operating system reuses its process id. */
module WriterWatchdog {
  import opened Options
  import opened Heartbeat

  const WRITER_SERVICE := "LG3D_PLC_WIDTH_WRITER"

  /** The order of the checks differs from the algorithm's in two places: the token is
      compared after the process id, and an absent activity list is invalid. */
  function JudgeWriter(r: Record, pid: int, expectedToken: string, now: real, timeout: real, tolerance: real): Verdict {
    if r.Missing? then Unhealthy(MissingOrInvalid)
    else if r.service != WRITER_SERVICE then Unhealthy(ServiceMismatch)
    else if r.pid.None? || r.updatedAt.None? then Unhealthy(FieldsInvalid)
    else if r.pid.value != pid then Unhealthy(PidMismatch)
    else if r.token != expectedToken then Unhealthy(TokenMismatch)
    else if now - r.updatedAt.value < -tolerance then Unhealthy(ClockInvalid)
    else if now - r.updatedAt.value > timeout then Unhealthy(Stale)
    else if !r.activities.List? then Unhealthy(ActivitiesInvalid)
    else
      var items := JudgeItems(r.activities.items, now);
      if items.Unhealthy? then items
      else if r.status != "ok" then Unhealthy(BadStatus(r.status))
      else Healthy
  }

  lemma WriterHealthyIff(r: Record, pid: int, expectedToken: string, now: real, timeout: real, tolerance: real)
    ensures JudgeWriter(r, pid, expectedToken, now, timeout, tolerance).Healthy? <==>
            && r.Record? && r.service == WRITER_SERVICE && r.pid == Some(pid) && r.token == expectedToken
            && r.updatedAt.Some? && -tolerance <= now - r.updatedAt.value <= timeout
            && r.activities.List?
            && (forall i :: 0 <= i < |r.activities.items| ==>
                  r.activities.items[i].Due? && now <= r.activities.items[i].deadline)
            && r.status == "ok"
  {
    ItemsHealthyIff(if r.Record? && r.activities.List? then r.activities.items else [], now);
  }

  /** Where the two watchdogs look at the same things they give the same reason; a wrong
      token is looked for right after the process id, and an absent list is no list. */
  lemma WriterJudgesLikeAlgorithm(r: Record, pid: int, expectedToken: string, now: real, timeout: real)
    requires r.Record?
    ensures var v := JudgeWriter(r, pid, expectedToken, now, timeout, MAX_FUTURE_SKEW);
            var a := Judge(r.(service := if r.service == WRITER_SERVICE then SERVICE_NAME else [],
                              activities := if r.activities.Absent? then NotAList else r.activities), pid, now, timeout);
            v == if r.token != expectedToken && (a.Healthy? || Rank(a.reason) > Rank(TokenMismatch))
                 then Unhealthy(TokenMismatch) else a
  {
    if r.activities.List? && JudgeItems(r.activities.items, now).Unhealthy? {
      var _ := ItemsFault(r.activities.items, now);
    }
  }

  method WriterHealth(r: Record, pid: int, expectedToken: string, now: real, timeout: real, tolerance: real)
    returns (v: Verdict)
    ensures v == JudgeWriter(r, pid, expectedToken, now, timeout, tolerance)
  {
    if r.Missing? {
      return Unhealthy(MissingOrInvalid);
    }
    if r.service != WRITER_SERVICE {
      return Unhealthy(ServiceMismatch);
    }
    if r.pid.None? || r.updatedAt.None? {
      return Unhealthy(FieldsInvalid);
    }
    if r.pid.value != pid {
      return Unhealthy(PidMismatch);
    }
    if r.token != expectedToken {
      return Unhealthy(TokenMismatch);
    }
    var age := now - r.updatedAt.value;
    if age < -tolerance {
      return Unhealthy(ClockInvalid);
    }
    if age > timeout {
      return Unhealthy(Stale);
    }
    if !r.activities.List? {
      return Unhealthy(ActivitiesInvalid);
    }
    var items := r.activities.items;
    for i := 0 to |items|
      invariant JudgeItems(items, now) == JudgeItems(items[i..], now)
    {
      if items[i].Malformed? {
        return Unhealthy(ActivityInvalid);
      }
      if now > items[i].deadline {
        return Unhealthy(ActivityOverdue(items[i].name, items[i].workId));
      }
    }
    if r.status != "ok" {
      return Unhealthy(BadStatus(r.status));
    }
    return Healthy;
  }

  // ----- who wrote the record -----

  /** A child: its process id, which may be reused, and its token, which may not. */
  datatype Child = Child(pid: int, token: string)

  /** `author` is the child whose record the file holds. */
  datatype Identity = Identity(children: seq<Child>, file: Record, author: nat)

  /** A watchdog starts a child, first removing the old record if it can; any child ever
      started, the current one or a survivor, publishes a record. */
  datatype Event =
    | Spawn(pid: int, token: string, removed: bool)
    | Write(author: nat, updatedAt: real, items: seq<Item>, status: string)

  /** The length of a token in hexadecimal digits; the child keeps the first 128. */
  const TOKEN_LENGTH: nat := 32

  predicate Enabled(s: Identity, e: Event) {
    match e
    case Spawn(_, token, _) => |token| == TOKEN_LENGTH && forall i :: 0 <= i < |s.children| ==> s.children[i].token != token
    case Write(author, _, _, _) => author < |s.children|
  }

  function Next(s: Identity, e: Event): Identity
    requires Enabled(s, e)
  {
    match e
    case Spawn(pid, token, removed) =>
      s.(children := s.children + [Child(pid, token)], file := if removed then Missing else s.file)
    case Write(author, updatedAt, items, status) =>
      var c := s.children[author];
      s.(file := Record(WRITER_SERVICE, Truncated(c.token), Some(c.pid), Some(updatedAt), List(items), status),
         author := author)
  }

  ghost predicate Runnable(s: Identity, events: seq<Event>)
    decreases |events|
  {
    events == [] || (Enabled(s, events[0]) && Runnable(Next(s, events[0]), events[1..]))
  }

  ghost function After(s: Identity, events: seq<Event>): Identity
    requires Runnable(s, events)
    decreases |events|
  {
    if events == [] then s else After(Next(s, events[0]), events[1..])
  }

  ghost predicate Inv(s: Identity) {
    && (forall i, j :: 0 <= i < j < |s.children| ==> s.children[i].token != s.children[j].token)
    && (forall i :: 0 <= i < |s.children| ==> |s.children[i].token| == TOKEN_LENGTH)
    && (s.file.Record? ==> s.author < |s.children|
                           && s.file.token == s.children[s.author].token
                           && s.file.pid == Some(s.children[s.author].pid))
  }

  lemma {:induction false} InvKept(s: Identity, events: seq<Event>)
    requires Inv(s) && Runnable(s, events)
    ensures Inv(After(s, events))
    decreases |events|
  {
    if events != [] {
      InvKept(Next(s, events[0]), events[1..]);
    }
  }

  /** Whatever processes write and whether or not old records are removed: a record judged
      healthy for the current child was written by the current child. */
  lemma HealthyMeansOwnRecord(events: seq<Event>, now: real, timeout: real, tolerance: real)
    requires Runnable(Identity([], Missing, 0), events)
    ensures var s := After(Identity([], Missing, 0), events);
            var current := |s.children| - 1;
            current >= 0
            && JudgeWriter(s.file, s.children[current].pid, s.children[current].token, now, timeout, tolerance).Healthy?
            ==> s.author == current
  {
    InvKept(Identity([], Missing, 0), events);
  }

  /** The token is what makes the difference: with the process id alone, as the algorithm's
      watchdog compares it, an old child's fresh record passes for the current child's
      exactly when the process id was reused. */
  lemma PidAloneAcceptsIff(r: Record, writer: Child, current: Child, now: real, timeout: real)
    requires r.Record? && r.pid == Some(writer.pid)
    requires Judge(r, writer.pid, now, timeout).Healthy?
    ensures Judge(r, current.pid, now, timeout).Healthy? <==> writer.pid == current.pid
  {
    HealthyIff(r, writer.pid, now, timeout);
    HealthyIff(r, current.pid, now, timeout);
  }
}
