/** The heartbeat record of a supervised process: what the process publishes
    (app/algorithm_runtime/runtime_heartbeat.py) and how its supervisor judges it
    (app/algorithm_runtime/watchdog.py). */
module Heartbeat {
  import opened Options

  type Token = string

  datatype Activity = Activity(
    name: string,
    workId: Option<string>,
    startedAt: real,
    progressAt: real,
    deadline: real,
    timeout: real,
    stage: string)

  datatype Entry = Entry(token: Token, activity: Activity)

  // ----- the record -----

  /** One element of the published activity list; `Malformed` has no readable deadline. */
  datatype Item = Malformed | Due(deadline: real, name: string, workId: Option<string>)

  /** The published activity field. */
  datatype Items = Absent | NotAList | List(items: seq<Item>)

  /** The heartbeat file: missing or unreadable, or a JSON object. A field that cannot be
      converted to its type is None. */
  datatype Record =
    | Missing
    | Record(service: string, token: string, pid: Option<int>, updatedAt: Option<real>, activities: Items, status: string)

  const SERVICE_NAME := "LG3D_ALGORITHM_3D"
  const MAX_FUTURE_SKEW := 300.0

  function Truncated(s: string): (r: string)
    ensures r <= s && |r| == if |s| < 128 then |s| else 128
  {
    if |s| > 128 then s[..128] else s
  }

  // ----- the activity table -----

  function Positions(table: seq<Entry>): set<Token> {
    set e | e in table :: e.token
  }

  ghost predicate DistinctTokens(table: seq<Entry>) {
    forall i, j :: 0 <= i < j < |table| ==> table[i].token != table[j].token
  }

  function Began(table: seq<Entry>, token: Token, a: Activity): seq<Entry> {
    table + [Entry(token, a)]
  }

  function NewActivity(name: string, workId: Option<string>, timeout: real, now: real): Activity {
    Activity(Truncated(name), if workId.Some? then Some(Truncated(workId.value)) else None,
             now, now, now + timeout, timeout, "started")
  }

  function ProgressedActivity(a: Activity, now: real, stage: string): Activity {
    a.(progressAt := now, deadline := now + a.timeout, stage := Truncated(stage))
  }

  function Progressed(table: seq<Entry>, token: Token, now: real, stage: string): seq<Entry> {
    seq(|table|, i requires 0 <= i < |table| =>
      if table[i].token == token then Entry(token, ProgressedActivity(table[i].activity, now, stage)) else table[i])
  }

  function Ended(table: seq<Entry>, token: Token): seq<Entry> {
    if table == [] then []
    else if table[0].token == token then Ended(table[1..], token)
    else [table[0]] + Ended(table[1..], token)
  }

  // ----- publishing -----

  function ItemOf(e: Entry): Item {
    Due(e.activity.deadline, e.activity.name, e.activity.workId)
  }

  function ItemsOf(table: seq<Entry>): seq<Item> {
    seq(|table|, i requires 0 <= i < |table| => ItemOf(table[i]))
  }

  predicate AnyOverdue(table: seq<Entry>, now: real) {
    exists e :: e in table && now > e.activity.deadline
  }

  function Payload(pid: int, token: string, table: seq<Entry>, now: real): Record {
    Record(SERVICE_NAME, token, Some(pid), Some(now), List(ItemsOf(table)), if AnyOverdue(table, now) then "stalled" else "ok")
  }

  // ----- judging -----

  datatype Reason =
    | MissingOrInvalid | ServiceMismatch | FieldsInvalid | PidMismatch | TokenMismatch | ClockInvalid | Stale
    | ActivitiesInvalid | ActivityInvalid | ActivityOverdue(name: string, workId: Option<string>) | BadStatus(status: string)

  datatype Verdict = Healthy | Unhealthy(reason: Reason)

  /** The verdict on the list: of the first element that is malformed or overdue. */
  function JudgeItems(items: seq<Item>, now: real): Verdict {
    if items == [] then Healthy
    else if items[0].Malformed? then Unhealthy(ActivityInvalid)
    else if now > items[0].deadline then Unhealthy(ActivityOverdue(items[0].name, items[0].workId))
    else JudgeItems(items[1..], now)
  }

  function Judge(r: Record, pid: int, now: real, timeout: real): Verdict {
    if r.Missing? then Unhealthy(MissingOrInvalid)
    else if r.service != SERVICE_NAME then Unhealthy(ServiceMismatch)
    else if r.pid.None? || r.updatedAt.None? then Unhealthy(FieldsInvalid)
    else if r.pid.value != pid then Unhealthy(PidMismatch)
    else if now - r.updatedAt.value < -MAX_FUTURE_SKEW then Unhealthy(ClockInvalid)
    else if now - r.updatedAt.value > timeout then Unhealthy(Stale)
    else if r.activities.NotAList? then Unhealthy(ActivitiesInvalid)
    else
      var items := JudgeItems(if r.activities.List? then r.activities.items else [], now);
      if items.Unhealthy? then items
      else if r.status != "ok" then Unhealthy(BadStatus(r.status))
      else Healthy
  }

  lemma {:induction false} ItemsHealthyIff(items: seq<Item>, now: real)
    ensures JudgeItems(items, now).Healthy?
            <==> forall i :: 0 <= i < |items| ==> items[i].Due? && now <= items[i].deadline
  {
    if items != [] {
      ItemsHealthyIff(items[1..], now);
      assert forall i :: 0 < i < |items| ==> items[i] == items[1..][i - 1];
      assert forall i :: 0 <= i < |items[1..]| ==> items[1..][i] == items[i + 1];
    }
  }

  /** A record is judged healthy exactly when it is this service's, this process's, neither
      stale nor from the future, all its activities are readable and within their
      deadlines, and it says so itself. */
  lemma HealthyIff(r: Record, pid: int, now: real, timeout: real)
    ensures Judge(r, pid, now, timeout).Healthy? <==>
            && r.Record? && r.service == SERVICE_NAME && r.pid == Some(pid) && r.updatedAt.Some?
            && -MAX_FUTURE_SKEW <= now - r.updatedAt.value <= timeout
            && !r.activities.NotAList?
            && (r.activities.List? ==> forall i :: 0 <= i < |r.activities.items| ==>
                  r.activities.items[i].Due? && now <= r.activities.items[i].deadline)
            && r.status == "ok"
  {
    ItemsHealthyIff(if r.Record? && r.activities.List? then r.activities.items else [], now);
  }

  /** The element is readable and within its deadline. */
  predicate Fine(item: Item, now: real) {
    item.Due? && now <= item.deadline
  }

  /** The first element that is not fine. */
  predicate FirstFault(items: seq<Item>, i: int, now: real) {
    0 <= i < |items| && !Fine(items[i], now) && forall j :: 0 <= j < i ==> Fine(items[j], now)
  }

  /** The reason is true of the record, whatever else is wrong with it. */
  ghost predicate Applies(r: Record, pid: int, now: real, timeout: real, x: Reason) {
    match x
    case MissingOrInvalid => r.Missing?
    case ServiceMismatch => r.Record? && r.service != SERVICE_NAME
    case FieldsInvalid => r.Record? && (r.pid.None? || r.updatedAt.None?)
    case PidMismatch => r.Record? && r.pid.Some? && r.pid.value != pid
    case TokenMismatch => false
    case ClockInvalid => r.Record? && r.updatedAt.Some? && r.updatedAt.value > now + MAX_FUTURE_SKEW
    case Stale => r.Record? && r.updatedAt.Some? && r.updatedAt.value + timeout < now
    case ActivitiesInvalid => r.Record? && r.activities.NotAList?
    case ActivityInvalid =>
      r.Record? && r.activities.List?
      && exists i :: FirstFault(r.activities.items, i, now) && r.activities.items[i].Malformed?
    case ActivityOverdue(name, workId) =>
      r.Record? && r.activities.List?
      && exists i :: FirstFault(r.activities.items, i, now) && r.activities.items[i].Due?
                     && r.activities.items[i].name == name && r.activities.items[i].workId == workId
    case BadStatus(status) => r.Record? && r.status == status && status != "ok"
  }

  /** The order in which reasons are looked for. */
  function Rank(x: Reason): nat {
    match x
    case MissingOrInvalid => 0
    case ServiceMismatch => 1
    case FieldsInvalid => 2
    case PidMismatch => 3
    case TokenMismatch => 4
    case ClockInvalid => 5
    case Stale => 6
    case ActivitiesInvalid => 7
    case ActivityInvalid => 8
    case ActivityOverdue(_, _) => 8
    case BadStatus(_) => 9
  }

  lemma {:induction false} ItemsFault(items: seq<Item>, now: real) returns (i: nat)
    requires JudgeItems(items, now).Unhealthy?
    ensures FirstFault(items, i, now)
    ensures JudgeItems(items, now).reason ==
            if items[i].Malformed? then ActivityInvalid else ActivityOverdue(items[i].name, items[i].workId)
  {
    if !Fine(items[0], now) {
      return 0;
    }
    i := ItemsFault(items[1..], now);
    i := i + 1;
    assert forall j :: 0 < j < |items| ==> items[j] == items[1..][j - 1];
  }

  lemma OneFirstFault(items: seq<Item>, i: int, j: int, now: real)
    requires FirstFault(items, i, now) && FirstFault(items, j, now)
    ensures i == j
  {
  }

  /** The reason given is the first in the order of the checks that is true of the record. */
  lemma ReasonIsFirst(r: Record, pid: int, now: real, timeout: real, x: Reason)
    ensures Judge(r, pid, now, timeout) == Unhealthy(x) <==>
            && Applies(r, pid, now, timeout, x)
            && forall y :: Applies(r, pid, now, timeout, y) ==> Rank(x) <= Rank(y)
  {
    var v := Judge(r, pid, now, timeout);
    if v.Healthy? {
      HealthyIff(r, pid, now, timeout);
      return;
    }
    ReasonApplies(r, pid, now, timeout);
    forall y | Applies(r, pid, now, timeout, y)
      ensures Rank(v.reason) <= Rank(y)
    {
      NoEarlierReason(r, pid, now, timeout, y);
    }
    if Applies(r, pid, now, timeout, x) && Rank(x) == Rank(v.reason) {
      OneReasonARank(r, pid, now, timeout, x, v.reason);
    }
  }

  lemma ReasonApplies(r: Record, pid: int, now: real, timeout: real)
    requires Judge(r, pid, now, timeout).Unhealthy?
    ensures Applies(r, pid, now, timeout, Judge(r, pid, now, timeout).reason)
  {
    if r.Record? && r.activities.List? && JudgeItems(r.activities.items, now).Unhealthy? {
      var _ := ItemsFault(r.activities.items, now);
    }
  }

  lemma NoEarlierReason(r: Record, pid: int, now: real, timeout: real, y: Reason)
    requires Judge(r, pid, now, timeout).Unhealthy? && Applies(r, pid, now, timeout, y)
    ensures Rank(Judge(r, pid, now, timeout).reason) <= Rank(y)
  {
    if Rank(y) == 8 {
      var i :| FirstFault(r.activities.items, i, now);
      ItemsHealthyIff(r.activities.items, now);
      assert !Fine(r.activities.items[i], now);
      var _ := ItemsFault(r.activities.items, now);
    }
  }

  lemma OneReasonARank(r: Record, pid: int, now: real, timeout: real, x: Reason, y: Reason)
    requires Applies(r, pid, now, timeout, x) && Applies(r, pid, now, timeout, y) && Rank(x) == Rank(y)
    ensures x == y
  {
    if Rank(x) == 8 {
      var i :| FirstFault(r.activities.items, i, now)
               && if x.ActivityInvalid? then r.activities.items[i].Malformed?
                  else r.activities.items[i].Due? && x == ActivityOverdue(r.activities.items[i].name, r.activities.items[i].workId);
      var j :| FirstFault(r.activities.items, j, now)
               && if y.ActivityInvalid? then r.activities.items[j].Malformed?
                  else r.activities.items[j].Due? && y == ActivityOverdue(r.activities.items[j].name, r.activities.items[j].workId);
      OneFirstFault(r.activities.items, i, j, now);
    }
  }

  /** The supervisor's check, field by field and activity by activity. */
  method HeartbeatHealth(r: Record, pid: int, now: real, timeout: real) returns (v: Verdict)
    ensures v == Judge(r, pid, now, timeout)
  {
    if r.Missing? {
      return Unhealthy(MissingOrInvalid);
    }
    if r.service != SERVICE_NAME {
      return Unhealthy(ServiceMismatch);
    }
    if r.pid.None? || r.updatedAt.None? {
      return Unhealthy(FieldsInvalid);
    }
    if r.pid.value != pid {
      return Unhealthy(PidMismatch);
    }
    var age := now - r.updatedAt.value;
    if age < -MAX_FUTURE_SKEW {
      return Unhealthy(ClockInvalid);
    }
    if age > timeout {
      return Unhealthy(Stale);
    }
    if r.activities.NotAList? {
      return Unhealthy(ActivitiesInvalid);
    }
    var items := if r.activities.List? then r.activities.items else [];
    for i := 0 to |items|
      invariant JudgeItems(items, now) == JudgeItems(items[i..], now)
    {
      if items[i].Malformed? {
        return Unhealthy(ActivityInvalid);
      }
      if now > items[i].deadline {
        return Unhealthy(ActivityOverdue(items[i].name, items[i].workId));
      }
    }
    if r.status != "ok" {
      return Unhealthy(BadStatus(r.status));
    }
    return Healthy;
  }

  // ----- the publishing object -----

  class RuntimeHeartbeat {
    const pid: int
    const watchdogToken: string
    const defaultTimeout: real
    var activities: seq<Entry>
    var sequence: nat
    var lastWriteAt: real
    var lastWriteFailed: bool
    var file: Record

    ghost predicate Valid()
      reads this
    {
      DistinctTokens(activities)
    }

    constructor (pid: int, watchdogToken: string, defaultTimeout: real)
      ensures Valid() && activities == [] && sequence == 0 && file == Missing
      ensures this.pid == pid && this.watchdogToken == watchdogToken && this.defaultTimeout == defaultTimeout
    {
      this.pid, this.watchdogToken, this.defaultTimeout := pid, watchdogToken, defaultTimeout;
      activities, sequence, lastWriteAt, lastWriteFailed, file := [], 0, 0.0, false, Missing;
    }

    /** `token` is the fresh token the call returns. */
    method BeginActivity(name: string, workId: Option<string>, timeoutSeconds: Option<real>, now: real, token: Token)
      requires Valid() && token !in Positions(activities)
      modifies this`activities
      ensures Valid()
      ensures |activities| == |old(activities)| + 1 && activities[..|old(activities)|] == old(activities)
      ensures var e, a := activities[|old(activities)|], activities[|old(activities)|].activity;
              && e.token == token && a.startedAt == now && a.progressAt == now && a.deadline == now + a.timeout
              && (timeoutSeconds.None? ==> a.timeout == defaultTimeout)
              && (timeoutSeconds.Some? ==> a.timeout >= timeoutSeconds.value && a.timeout >= 1.0
                                           && (a.timeout == timeoutSeconds.value || a.timeout == 1.0))
      ensures var timeout := if timeoutSeconds.None? then defaultTimeout
                             else if timeoutSeconds.value > 1.0 then timeoutSeconds.value else 1.0;
              activities == Began(old(activities), token, NewActivity(name, workId, timeout, now))
    {
      var timeout := if timeoutSeconds.None? then defaultTimeout
                     else if timeoutSeconds.value > 1.0 then timeoutSeconds.value else 1.0;
      var shortId := if workId.None? then None else Some(Truncated(workId.value));
      activities := activities
                    + [Entry(token, Activity(Truncated(name), shortId, now, now, now + timeout, timeout, "started"))];
    }

    method ProgressActivity(token: Token, stage: string, now: real) returns (found: bool)
      requires Valid()
      modifies this`activities
      ensures Valid()
      ensures found <==> token in Positions(old(activities))
      ensures |activities| == |old(activities)|
      ensures forall i :: 0 <= i < |activities| ==>
        var e, was := activities[i], old(activities)[i];
        if was.token == token then
          && e.token == token && e.activity.progressAt == now && e.activity.deadline == now + was.activity.timeout
          && e.activity.timeout == was.activity.timeout && e.activity.startedAt == was.activity.startedAt
          && e.activity.name == was.activity.name && e.activity.workId == was.activity.workId
          && e.activity.stage == Truncated(stage)
        else e == was
      ensures activities == Progressed(old(activities), token, now, stage)
    {
      for i := 0 to |activities|
        invariant activities == old(activities)
        invariant forall j :: 0 <= j < i ==> activities[j].token != token
      {
        if activities[i].token == token {
          var a := activities[i].activity;
          activities := activities[i := Entry(token, a.(progressAt := now, deadline := now + a.timeout, stage := Truncated(stage)))];
          assert old(activities)[i].token in Positions(old(activities));
          return true;
        }
      }
      return false;
    }

    method EndActivity(token: Option<Token>)
      requires Valid()
      modifies this`activities
      ensures Valid()
      ensures token.None? || token.value !in Positions(old(activities)) ==> activities == old(activities)
      ensures token.Some? && token.value in Positions(old(activities)) ==>
                exists i :: 0 <= i < |old(activities)| && old(activities)[i].token == token.value
                            && activities == old(activities)[..i] + old(activities)[i + 1..]
      ensures activities == if token.None? then old(activities) else Ended(old(activities), token.value)
    {
      if token.None? {
        return;
      }
      for i := 0 to |activities|
        invariant activities == old(activities)
        invariant forall j :: 0 <= j < i ==> activities[j].token != token.value
      {
        if activities[i].token == token.value {
          EndedAt(activities, token.value, i);
          activities := activities[..i] + activities[i + 1..];
          return;
        }
      }
      EndedAbsent(activities, token.value);
    }

    method MakePayload(now: real) returns (r: Record)
      modifies this`sequence
      ensures sequence == old(sequence) + 1
      ensures r.Record? && r.service == SERVICE_NAME && r.token == watchdogToken && r.pid == Some(pid) && r.updatedAt == Some(now)
      ensures r.activities.List? && |r.activities.items| == |activities|
      ensures forall i :: 0 <= i < |activities| ==>
        var a := activities[i].activity;
        r.activities.items[i] == Due(a.deadline, a.name, a.workId)
      ensures r.status == if exists i :: 0 <= i < |activities| && now > activities[i].activity.deadline then "stalled" else "ok"
      ensures r == Payload(pid, watchdogToken, activities, now)
    {
      sequence := sequence + 1;
      var items, overdue := [], [];
      for i := 0 to |activities|
        invariant items == ItemsOf(activities[..i])
        invariant overdue != [] <==> AnyOverdue(activities[..i], now)
      {
        var e := activities[i];
        assert activities[..i + 1] == activities[..i] + [e];
        items := items + [Due(e.activity.deadline, e.activity.name, e.activity.workId)];
        if now > e.activity.deadline {
          overdue := overdue + [e];
        }
      }
      assert activities[..|activities|] == activities;
      r := Record(SERVICE_NAME, watchdogToken, Some(pid), Some(now), List(items), if overdue != [] then "stalled" else "ok");
    }

    /** Publish once; `replaced` says whether the file system lets the file be replaced. */
    method WriteOnce(now: real, replaced: bool) returns (ok: bool)
      modifies this`sequence, this`file, this`lastWriteAt, this`lastWriteFailed
      ensures ok == replaced && lastWriteFailed == !ok && sequence == old(sequence) + 1
      ensures file == if ok then Payload(pid, watchdogToken, activities, now) else old(file)
      ensures lastWriteAt == if ok then now else old(lastWriteAt)
    {
      var payload := MakePayload(now);
      if !replaced {
        lastWriteFailed := true;
        return false;
      }
      file := payload;
      lastWriteAt := now;
      lastWriteFailed := false;
      return true;
    }
  }

  lemma {:induction false} EndedAbsent(table: seq<Entry>, token: Token)
    requires forall i :: 0 <= i < |table| ==> table[i].token != token
    ensures Ended(table, token) == table
  {
    if table != [] {
      EndedAbsent(table[1..], token);
    }
  }

  lemma {:induction false} EndedAt(table: seq<Entry>, token: Token, i: nat)
    requires DistinctTokens(table) && i < |table| && table[i].token == token
    ensures Ended(table, token) == table[..i] + table[i + 1..]
  {
    if i == 0 {
      EndedAbsent(table[1..], token);
    } else {
      EndedAt(table[1..], token, i - 1);
      assert [table[0]] + (table[1..][..i - 1] + table[1..][i..]) == table[..i] + table[i + 1..];
    }
  }
}
