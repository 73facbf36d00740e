/** The life of the acquirers of one 3D camera (app/CapTrue/Camera.py): connecting,
    starting, discarding, and the rationed device reset. The SDK is a source of outcomes;
    an acquirer is the number it was made under. */
module SickCameraModel {
  import opened Options

  type Acquirer = nat

  /** What connecting comes to: no acquirer, one that cannot be configured, one whose
      temperature read raises after it has been configured, or a working one. */
  datatype Connecting = NoDevice | ConfigureFails | TemperatureRaises | Connects

  /** What starting comes to. Reading the diagnostics of a failed start may itself raise. */
  datatype Starting = Starts | Fails(locked: bool) | FailsUndiagnosed

  datatype Event =
    | StartFailed | Started | AutoReset(a: Acquirer) | ManualReset(a: Acquirer) | ReconnectRequested | ResetRequested

  /** What API threads ask for. They take no lock, so it can come at any moment. */
  datatype Ask = Reconnect | DeviceReset

  datatype Reset = NoReset | Automatic | Manual

  /** `made` counts the acquirers made, `destroyed` lists those destroyed, `log` the events
      that matter for resets. The last two record the past. */
  datatype Camera = Camera(
    camera: Option<Acquirer>,
    lastDiscarded: Option<Acquirer>,
    startFailures: nat,
    resetAttempted: bool,
    reconnectEvent: bool,
    resetEvent: bool,
    made: nat,
    destroyed: seq<Acquirer>,
    log: seq<Event>)

  function Blank(): Camera {
    Camera(None, None, 0, false, false, false, 0, [], [])
  }

  function Discard(s: Camera, a: Option<Acquirer>, reset: Reset): Camera {
    if a.None? || a == s.lastDiscarded then s
    else
      s.(lastDiscarded := a,
         camera := if s.camera == a then None else s.camera,
         resetAttempted := s.resetAttempted || !reset.NoReset?,
         log := s.log + (match reset
                         case NoReset => []
                         case Automatic => [AutoReset(a.value)]
                         case Manual => [ManualReset(a.value)]),
         destroyed := s.destroyed + [a.value])
  }

  /** A new acquirer becomes the current one. */
  function Adopt(s: Camera): Camera {
    s.(camera := Some(s.made), made := s.made + 1)
  }

  function CountFailure(s: Camera): Camera {
    s.(startFailures := s.startFailures + 1, log := s.log + [StartFailed])
  }

  /** The second result says whether connecting went through without raising. */
  function Connect(s: Camera, how: Connecting): (Camera, bool) {
    if how.NoDevice? then (s, false)
    else
      var t := Adopt(s);
      match how
      case ConfigureFails => (Discard(t, Some(s.made), NoReset), false)
      case TemperatureRaises => (t, false)
      case _ => (t, true)
  }

  function GetCamera(s: Camera, how: Connecting): (Camera, bool) {
    if s.camera.None? then Connect(s, how) else (s, true)
  }

  predicate ShouldReset(threshold: int, s: Camera, locked: bool) {
    threshold > 0 && locked && !s.resetAttempted && s.startFailures >= threshold
  }

  function RequestReconnect(s: Camera): Camera {
    s.(resetAttempted := false, reconnectEvent := true, log := s.log + [ReconnectRequested])
  }

  function RequestReset(s: Camera): Camera {
    s.(resetEvent := true, log := s.log + [ResetRequested])
  }

  /** The requests arrive one after another. */
  function Asked(s: Camera, asks: seq<Ask>): Camera {
    if asks == [] then s
    else
      var t := Asked(s, asks[..|asks| - 1]);
      if asks[|asks| - 1].Reconnect? then RequestReconnect(t) else RequestReset(t)
  }

  /** Requests may arrive while a failed start is diagnosed, and once it has been decided
      whether to reset. */
  function Start(threshold: int, s: Camera, start: Starting, diagnosing: seq<Ask>, decided: seq<Ask>): (Camera, bool) {
    match start
    case Starts => (s.(startFailures := 0, resetAttempted := false, log := s.log + [Started]), true)
    case FailsUndiagnosed => (CountFailure(s), false)
    case Fails(locked) =>
      var t := Asked(CountFailure(s), diagnosing);
      var u := Asked(t, decided);
      (Discard(u, u.camera, if ShouldReset(threshold, t, locked) then Automatic else NoReset), false)
  }

  function Open(threshold: int, s: Camera, how: Connecting, start: Starting, diagnosing: seq<Ask>, decided: seq<Ask>)
      : (Camera, bool)
  {
    var (t, up) := GetCamera(s, how);
    if !up then (t, false) else Start(threshold, t, start, diagnosing, decided)
  }

  function Release(s: Camera): Camera {
    Discard(s, s.camera, NoReset)
  }

  /** When requests arrive while pending actions are processed: between the reads of the two
      events, before the acquirer is discarded, and before the events are cleared. */
  datatype Meanwhile = Meanwhile(between: seq<Ask>, early: seq<Ask>, late: seq<Ask>)

  /** What to do, as read from the two events. */
  function ToReset(s: Camera): bool {
    s.resetEvent
  }

  function ToReconnect(s: Camera, m: Meanwhile): bool {
    Asked(s, m.between).reconnectEvent
  }

  /** The camera to discard is at hand. */
  function AtHand(s: Camera, how: Connecting, m: Meanwhile): (Camera, bool) {
    var t := Asked(s, m.between);
    if ToReset(s) && t.camera.None? then Connect(t, how) else (t, true)
  }

  /** The second result says whether control returns normally: only when nothing was asked. */
  function ProcessPending(s: Camera, how: Connecting, m: Meanwhile): (Camera, bool) {
    if !ToReset(s) && !ToReconnect(s, m) then (Asked(s, m.between), true)
    else
      var (t, up) := AtHand(s, how, m);
      var u := Asked(t, m.early);
      if !up then (u, false)
      else
        var v := Asked(Discard(u, u.camera, if ToReset(s) then Manual else NoReset), m.late);
        (v.(resetEvent := false, reconnectEvent := false), false)
  }

  function Fetch(s: Camera, how: Connecting, m: Meanwhile, again: Connecting): Camera {
    var (t, on) := ProcessPending(s, how, m);
    if on then GetCamera(t, again).0 else t
  }

  datatype Call =
    | DoOpen(how: Connecting, start: Starting, diagnosing: seq<Ask>, decided: seq<Ask>)
    | DoRelease
    | DoProcessPending(how: Connecting, m: Meanwhile)
    | DoFetch(how: Connecting, m: Meanwhile, again: Connecting)
    | DoAsk(ask: Ask)

  function Serve(threshold: int, s: Camera, c: Call): Camera {
    match c
    case DoOpen(how, start, diagnosing, decided) => Open(threshold, s, how, start, diagnosing, decided).0
    case DoRelease => Release(s)
    case DoProcessPending(how, m) => ProcessPending(s, how, m).0
    case DoFetch(how, m, again) => Fetch(s, how, m, again)
    case DoAsk(ask) => Asked(s, [ask])
  }

  function ServeAll(threshold: int, s: Camera, calls: seq<Call>): Camera
    decreases |calls|
  {
    if calls == [] then s else ServeAll(threshold, Serve(threshold, s, calls[0]), calls[1..])
  }

  // ----- acquirers -----

  ghost predicate Owned(s: Camera) {
    && (s.camera.Some? ==> s.camera.value < s.made && s.camera.value !in s.destroyed && s.lastDiscarded != s.camera)
    && (s.lastDiscarded.Some? ==> s.lastDiscarded.value < s.made)
    && (forall a :: 0 <= a < s.made ==> s.camera == Some(a) || a in s.destroyed)
    && (forall i :: 0 <= i < |s.destroyed| ==> s.destroyed[i] < s.made)
    && (forall i, j :: 0 <= i < j < |s.destroyed| ==> s.destroyed[i] != s.destroyed[j])
  }

  lemma DiscardOwned(s: Camera, reset: Reset)
    requires Owned(s)
    ensures Owned(Discard(s, s.camera, reset)) && Discard(s, s.camera, reset).camera.None?
  {
  }

  lemma AdoptOwned(s: Camera)
    requires Owned(s) && s.camera.None?
    ensures Owned(Adopt(s))
  {
  }

  lemma ConnectOwned(s: Camera, how: Connecting)
    requires Owned(s) && s.camera.None?
    ensures Owned(Connect(s, how).0)
    ensures Connect(s, how).1 ==> Connect(s, how).0.camera.Some?
  {
    AdoptOwned(s);
    DiscardOwned(Adopt(s), NoReset);
  }

  lemma CountFailureOwned(s: Camera)
    requires Owned(s)
    ensures Owned(CountFailure(s))
  {
  }

  lemma {:induction false} AskedOwned(s: Camera, asks: seq<Ask>)
    requires Owned(s)
    ensures Owned(Asked(s, asks)) && Asked(s, asks).camera == s.camera
  {
    if asks != [] {
      AskedOwned(s, asks[..|asks| - 1]);
    }
  }

  lemma StartOwned(threshold: int, s: Camera, start: Starting, diagnosing: seq<Ask>, decided: seq<Ask>)
    requires Owned(s)
    ensures Owned(Start(threshold, s, start, diagnosing, decided).0)
  {
    CountFailureOwned(s);
    if start.Fails? {
      AskedOwned(CountFailure(s), diagnosing);
      var t := Asked(CountFailure(s), diagnosing);
      AskedOwned(t, decided);
      DiscardOwned(Asked(t, decided), if ShouldReset(threshold, t, start.locked) then Automatic else NoReset);
    }
  }

  lemma AtHandOwned(s: Camera, how: Connecting, m: Meanwhile)
    requires Owned(s)
    ensures Owned(AtHand(s, how, m).0)
    ensures AtHand(s, how, m).1 && ToReset(s) ==> AtHand(s, how, m).0.camera.Some?
  {
    AskedOwned(s, m.between);
    if s.camera.None? {
      ConnectOwned(Asked(s, m.between), how);
    }
  }

  lemma ProcessOwned(s: Camera, how: Connecting, m: Meanwhile)
    requires Owned(s)
    ensures Owned(ProcessPending(s, how, m).0)
  {
    AskedOwned(s, m.between);
    AtHandOwned(s, how, m);
    var t := AtHand(s, how, m).0;
    AskedOwned(t, m.early);
    var u := Asked(t, m.early);
    var reset := if ToReset(s) then Manual else NoReset;
    DiscardOwned(u, reset);
    AskedOwned(Discard(u, u.camera, reset), m.late);
  }

  lemma ServeOwned(threshold: int, s: Camera, c: Call)
    requires Owned(s)
    ensures Owned(Serve(threshold, s, c))
  {
    match c
    case DoOpen(how, start, diagnosing, decided) =>
      if s.camera.None? {
        ConnectOwned(s, how);
      }
      StartOwned(threshold, GetCamera(s, how).0, start, diagnosing, decided);
    case DoRelease => DiscardOwned(s, NoReset);
    case DoProcessPending(how, m) => ProcessOwned(s, how, m);
    case DoFetch(how, m, again) =>
      ProcessOwned(s, how, m);
      var t := ProcessPending(s, how, m).0;
      if t.camera.None? {
        ConnectOwned(t, again);
      }
    case DoAsk(ask) => AskedOwned(s, [ask]);
  }

  lemma {:induction false} OwnedKept(threshold: int, s: Camera, calls: seq<Call>)
    requires Owned(s)
    ensures Owned(ServeAll(threshold, s, calls))
    decreases |calls|
  {
    if calls != [] {
      ServeOwned(threshold, s, calls[0]);
      OwnedKept(threshold, Serve(threshold, s, calls[0]), calls[1..]);
    }
  }

  /** Over any calls and outcomes: of the acquirers made, at most the current one is live,
      and none is destroyed twice or while it is current. */
  lemma OneLiveAcquirer(threshold: int, calls: seq<Call>)
    ensures var s := ServeAll(threshold, Blank(), calls);
            && (forall a, b :: 0 <= a < b < s.made ==> a in s.destroyed || b in s.destroyed)
            && (forall a :: 0 <= a < s.made && a !in s.destroyed <==> s.camera == Some(a))
            && (forall i, j :: 0 <= i < j < |s.destroyed| ==> s.destroyed[i] != s.destroyed[j])
  {
    OwnedKept(threshold, Blank(), calls);
  }

  // ----- the ration of resets -----

  /** Failed starts since the last successful one. */
  function FailuresSinceStart(log: seq<Event>): nat {
    if log == [] then 0
    else
      match log[|log| - 1]
      case Started => 0
      case StartFailed => FailuresSinceStart(log[..|log| - 1]) + 1
      case _ => FailuresSinceStart(log[..|log| - 1])
  }

  /** A reset has happened with no successful start and no manual reconnect since. */
  predicate ResetSpent(log: seq<Event>) {
    if log == [] then false
    else
      match log[|log| - 1]
      case Started => false
      case ReconnectRequested => false
      case StartFailed => ResetSpent(log[..|log| - 1])
      case ResetRequested => ResetSpent(log[..|log| - 1])
      case _ => true
  }

  predicate Request(e: Event) {
    e.ReconnectRequested? || e.ResetRequested?
  }

  /** Requests aside, the last event is a failed start. */
  predicate FailedLast(log: seq<Event>) {
    log != [] && (log[|log| - 1].StartFailed? || (Request(log[|log| - 1]) && FailedLast(log[..|log| - 1])))
  }

  /** An automatic reset is due at the end of these events. */
  predicate Earned(threshold: int, past: seq<Event>) {
    threshold > 0 && FailuresSinceStart(past) >= threshold && !ResetSpent(past) && FailedLast(past)
  }

  ghost predicate RationedLog(threshold: int, log: seq<Event>) {
    forall i :: 0 <= i < |log| && log[i].AutoReset? ==> Earned(threshold, log[..i])
  }

  ghost predicate Rationed(threshold: int, s: Camera) {
    && s.startFailures == FailuresSinceStart(s.log)
    && (s.resetAttempted <==> ResetSpent(s.log))
    && RationedLog(threshold, s.log)
  }

  lemma LogGrows(threshold: int, log: seq<Event>, e: Event)
    requires RationedLog(threshold, log) && (e.AutoReset? ==> Earned(threshold, log))
    ensures (log + [e])[..|log|] == log
    ensures RationedLog(threshold, log + [e])
  {
    var all := log + [e];
    assert all[..|log|] == log;
    forall i | 0 <= i < |all| && all[i].AutoReset?
      ensures Earned(threshold, all[..i])
    {
      if i < |log| {
        assert all[..i] == log[..i];
      }
    }
  }

  lemma DiscardRationed(threshold: int, s: Camera, reset: Reset)
    requires Rationed(threshold, s) && (reset.Automatic? ==> Earned(threshold, s.log))
    ensures Rationed(threshold, Discard(s, s.camera, reset))
  {
    if s.camera.Some? && s.camera != s.lastDiscarded {
      match reset {
        case NoReset => assert s.log + [] == s.log;
        case Automatic => LogGrows(threshold, s.log, AutoReset(s.camera.value));
        case Manual => LogGrows(threshold, s.log, ManualReset(s.camera.value));
      }
    }
  }

  lemma ConnectRationed(threshold: int, s: Camera, how: Connecting)
    requires Rationed(threshold, s)
    ensures Rationed(threshold, Connect(s, how).0)
  {
    DiscardRationed(threshold, Adopt(s), NoReset);
  }

  lemma CountFailureRationed(threshold: int, s: Camera)
    requires Rationed(threshold, s)
    ensures Rationed(threshold, CountFailure(s))
  {
    LogGrows(threshold, s.log, StartFailed);
  }

  lemma {:induction false} AskedRationed(threshold: int, s: Camera, asks: seq<Ask>)
    requires Rationed(threshold, s)
    ensures Rationed(threshold, Asked(s, asks))
    ensures Earned(threshold, s.log) ==> Earned(threshold, Asked(s, asks).log)
  {
    if asks != [] {
      AskedRationed(threshold, s, asks[..|asks| - 1]);
      var t := Asked(s, asks[..|asks| - 1]);
      LogGrows(threshold, t.log, if asks[|asks| - 1].Reconnect? then ReconnectRequested else ResetRequested);
    }
  }

  lemma {:induction false} AskedFailedLast(s: Camera, asks: seq<Ask>)
    requires FailedLast(s.log)
    ensures FailedLast(Asked(s, asks).log) && Asked(s, asks).startFailures == s.startFailures
  {
    if asks != [] {
      AskedFailedLast(s, asks[..|asks| - 1]);
      var t := Asked(s, asks[..|asks| - 1]);
      var e := if asks[|asks| - 1].Reconnect? then ReconnectRequested else ResetRequested;
      assert (t.log + [e])[..|t.log|] == t.log;
    }
  }

  lemma StartRationed(threshold: int, s: Camera, start: Starting, diagnosing: seq<Ask>, decided: seq<Ask>)
    requires Rationed(threshold, s)
    ensures Rationed(threshold, Start(threshold, s, start, diagnosing, decided).0)
  {
    CountFailureRationed(threshold, s);
    match start
    case Starts => LogGrows(threshold, s.log, Started);
    case FailsUndiagnosed =>
    case Fails(locked) =>
      var c := CountFailure(s);
      AskedRationed(threshold, c, diagnosing);
      AskedFailedLast(c, diagnosing);
      var t := Asked(c, diagnosing);
      AskedRationed(threshold, t, decided);
      var u := Asked(t, decided);
      DiscardRationed(threshold, u, if ShouldReset(threshold, t, locked) then Automatic else NoReset);
  }

  lemma AtHandRationed(threshold: int, s: Camera, how: Connecting, m: Meanwhile)
    requires Rationed(threshold, s)
    ensures Rationed(threshold, AtHand(s, how, m).0)
  {
    AskedRationed(threshold, s, m.between);
    ConnectRationed(threshold, Asked(s, m.between), how);
  }

  lemma ProcessRationed(threshold: int, s: Camera, how: Connecting, m: Meanwhile)
    requires Rationed(threshold, s)
    ensures Rationed(threshold, ProcessPending(s, how, m).0)
  {
    AskedRationed(threshold, s, m.between);
    AtHandRationed(threshold, s, how, m);
    var t := AtHand(s, how, m).0;
    AskedRationed(threshold, t, m.early);
    var u := Asked(t, m.early);
    var reset := if ToReset(s) then Manual else NoReset;
    DiscardRationed(threshold, u, reset);
    AskedRationed(threshold, Discard(u, u.camera, reset), m.late);
  }

  lemma ServeRationed(threshold: int, s: Camera, c: Call)
    requires Rationed(threshold, s)
    ensures Rationed(threshold, Serve(threshold, s, c))
  {
    match c
    case DoOpen(how, start, diagnosing, decided) =>
      ConnectRationed(threshold, s, how);
      StartRationed(threshold, GetCamera(s, how).0, start, diagnosing, decided);
    case DoRelease => DiscardRationed(threshold, s, NoReset);
    case DoProcessPending(how, m) => ProcessRationed(threshold, s, how, m);
    case DoFetch(how, m, again) =>
      ProcessRationed(threshold, s, how, m);
      ConnectRationed(threshold, ProcessPending(s, how, m).0, again);
    case DoAsk(ask) => AskedRationed(threshold, s, [ask]);
  }

  lemma {:induction false} RationedKept(threshold: int, s: Camera, calls: seq<Call>)
    requires Rationed(threshold, s)
    ensures Rationed(threshold, ServeAll(threshold, s, calls))
    decreases |calls|
  {
    if calls != [] {
      ServeRationed(threshold, s, calls[0]);
      RationedKept(threshold, Serve(threshold, s, calls[0]), calls[1..]);
    }
  }

  /** While a reset is spent, the event that lifts it is still to come. */
  lemma {:induction false} LiftedBetween(log: seq<Event>, i: nat, j: nat) returns (m: nat)
    requires i < j <= |log| && (log[i].AutoReset? || log[i].ManualReset?) && !ResetSpent(log[..j])
    ensures i < m < j && (log[m].Started? || log[m].ReconnectRequested?)
    decreases j
  {
    assert log[..j][..j - 1] == log[..j - 1];
    assert log[..j][j - 1] == log[j - 1];
    if log[j - 1].Started? || log[j - 1].ReconnectRequested? {
      m := j - 1;
    } else {
      m := LiftedBetween(log, i, j - 1);
    }
  }

  /** The failed start behind an automatic reset; only requests come between the two. */
  lemma {:induction false} FailedBefore(log: seq<Event>, j: nat) returns (k: nat)
    requires j <= |log| && FailedLast(log[..j])
    ensures k < j && log[k] == StartFailed && forall m :: k < m < j ==> Request(log[m])
  {
    assert log[..j][j - 1] == log[j - 1];
    if log[j - 1].StartFailed? {
      k := j - 1;
    } else {
      assert log[..j][..j - 1] == log[..j - 1];
      k := FailedBefore(log, j - 1);
    }
  }

  /** Over any calls and outcomes, requests arriving in the middle of them: only requests come
      between an automatic reset and the failed start it answers, at least `threshold` starts
      have failed since the last successful one, and between it and any earlier reset there
      is a successful start or a manual reconnect. */
  lemma ResetsAreRationed(threshold: int, calls: seq<Call>, j: nat)
    requires j < |ServeAll(threshold, Blank(), calls).log|
    requires ServeAll(threshold, Blank(), calls).log[j].AutoReset?
    ensures var log := ServeAll(threshold, Blank(), calls).log;
            && 0 < threshold <= FailuresSinceStart(log[..j])
            && (exists k :: 0 <= k < j && log[k] == StartFailed && forall m :: k < m < j ==> Request(log[m]))
            && forall i :: 0 <= i < j && (log[i].AutoReset? || log[i].ManualReset?) ==>
                 exists m :: i < m < j && (log[m].Started? || log[m].ReconnectRequested?)
  {
    RationedKept(threshold, Blank(), calls);
    var log := ServeAll(threshold, Blank(), calls).log;
    assert Earned(threshold, log[..j]);
    var k := FailedBefore(log, j);
    assert log[k] == StartFailed;
    forall i | 0 <= i < j && (log[i].AutoReset? || log[i].ManualReset?)
      ensures exists m :: i < m < j && (log[m].Started? || log[m].ReconnectRequested?)
    {
      var _ := LiftedBetween(log, i, j);
    }
  }

  // ----- requests that are lost -----

  function EventOf(ask: Ask): Event {
    if ask.Reconnect? then ReconnectRequested else ResetRequested
  }

  function EventsOf(asks: seq<Ask>): seq<Event> {
    seq(|asks|, i requires 0 <= i < |asks| => EventOf(asks[i]))
  }

  lemma {:induction false} AskedLog(s: Camera, asks: seq<Ask>)
    ensures Asked(s, asks).log == s.log + EventsOf(asks)
  {
    if asks != [] {
      var init, last := asks[..|asks| - 1], asks[|asks| - 1];
      AskedLog(s, init);
      assert EventsOf(asks) == EventsOf(init) + [EventOf(last)];
    }
  }

  /** Requests touch no acquirer. */
  lemma {:induction false} AskedKeeps(s: Camera, asks: seq<Ask>)
    ensures var t := Asked(s, asks);
            && t.camera == s.camera && t.lastDiscarded == s.lastDiscarded && t.startFailures == s.startFailures
            && t.made == s.made && t.destroyed == s.destroyed
  {
    if asks != [] {
      AskedKeeps(s, asks[..|asks| - 1]);
    }
  }

  lemma InSnoc(asks: seq<Ask>, ask: Ask)
    requires asks != []
    ensures ask in asks <==> ask in asks[..|asks| - 1] || ask == asks[|asks| - 1]
  {
  }

  /** A reconnect request sets its event. */
  lemma {:induction false} AskedReconnect(s: Camera, asks: seq<Ask>)
    ensures Asked(s, asks).reconnectEvent <==> s.reconnectEvent || Reconnect in asks
  {
    if asks != [] {
      InSnoc(asks, Reconnect);
      AskedReconnect(s, asks[..|asks| - 1]);
    }
  }

  /** A failed start discards its acquirer, and resets the device exactly when the start
      failed on the lock, failures in a row have reached a positive threshold and no reset
      has been spent since the last successful start or manual reconnect, as it stands after
      the requests that arrived during the diagnosis. */
  lemma AutomaticResetIff(threshold: int, s: Camera, locked: bool, diagnosing: seq<Ask>, decided: seq<Ask>)
    requires Owned(s) && Rationed(threshold, s) && s.camera.Some?
    ensures var (t, up) := Start(threshold, s, Fails(locked), diagnosing, decided);
            var past := s.log + [StartFailed] + EventsOf(diagnosing);
            && !up && t.camera.None? && t.destroyed == s.destroyed + [s.camera.value]
            && t.log == past + EventsOf(decided)
                        + if locked && 0 < threshold <= FailuresSinceStart(past) && !ResetSpent(past)
                          then [AutoReset(s.camera.value)] else []
  {
    var c := CountFailure(s);
    CountFailureRationed(threshold, s);
    AskedRationed(threshold, c, diagnosing);
    AskedLog(c, diagnosing);
    AskedKeeps(c, diagnosing);
    var t := Asked(c, diagnosing);
    AskedLog(t, decided);
    AskedKeeps(t, decided);
  }

  /** The call has something to do and gets to the end of it. */
  predicate Clears(s: Camera, how: Connecting, m: Meanwhile) {
    (ToReset(s) || ToReconnect(s, m)) && AtHand(s, how, m).1
  }

  /** What the call does is a manual reset exactly when one was asked before it began to read. */
  lemma ProcessLog(s: Camera, how: Connecting, m: Meanwhile) returns (done: seq<Event>)
    requires Owned(s) && Clears(s, how, m)
    ensures |done| <= 1 && (ToReset(s) <==> done != []) && (done != [] ==> done[0].ManualReset?)
    ensures var t := ProcessPending(s, how, m).0;
            && t.log == s.log + EventsOf(m.between + m.early) + done + EventsOf(m.late)
            && !t.resetEvent && !t.reconnectEvent
  {
    AskedOwned(s, m.between);
    AskedLog(s, m.between);
    AtHandOwned(s, how, m);
    var t := AtHand(s, how, m).0;
    AskedOwned(t, m.early);
    AskedLog(t, m.early);
    var u := Asked(t, m.early);
    assert EventsOf(m.between + m.early) == EventsOf(m.between) + EventsOf(m.early);
    assert u.log == s.log + EventsOf(m.between + m.early);
    done := if ToReset(s) then [ManualReset(u.camera.value)] else [];
    AskedLog(Discard(u, u.camera, if ToReset(s) then Manual else NoReset), m.late);
  }

  /** The call returns normally exactly when nothing was asked: no reset before it, no
      reconnect before it reads that event. Then nothing but requests has happened. */
  lemma NothingPendingIff(s: Camera, how: Connecting, m: Meanwhile)
    ensures ProcessPending(s, how, m).1 <==> !s.resetEvent && !s.reconnectEvent && Reconnect !in m.between
    ensures ProcessPending(s, how, m).1 ==> ProcessPending(s, how, m).0 == Asked(s, m.between)
  {
    AskedReconnect(s, m.between);
  }

  /** The call gives up the acquirer that was current, or the one it made to reset the device,
      and does not return normally. */
  lemma ProcessDiscards(s: Camera, how: Connecting, m: Meanwhile)
    requires Owned(s) && Clears(s, how, m)
    ensures var (t, normal) := ProcessPending(s, how, m);
            && !normal && t.camera.None?
            && (s.camera.Some? ==> t.destroyed == s.destroyed + [s.camera.value])
            && (s.camera.None? && ToReset(s) ==> t.destroyed == s.destroyed + [s.made])
            && (s.camera.None? && !ToReset(s) ==> t.destroyed == s.destroyed)
  {
    AskedKeeps(s, m.between);
    AskedOwned(s, m.between);
    AtHandOwned(s, how, m);
    var t := AtHand(s, how, m).0;
    AskedKeeps(t, m.early);
    AskedOwned(t, m.early);
    var u := Asked(t, m.early);
    AskedKeeps(Discard(u, u.camera, if ToReset(s) then Manual else NoReset), m.late);
  }

  /** When a device reset asked during the call is lost. The call clears both events, so what
      it did not do for the request will not be done: it is served exactly when a reset had
      already been asked before the call and the new request comes before the reset. */
  lemma ResetRequestServedIff(s: Camera, how: Connecting, m: Meanwhile, k: nat)
    requires Owned(s) && Clears(s, how, m)
    requires |s.log| <= k < |ProcessPending(s, how, m).0.log| && ProcessPending(s, how, m).0.log[k] == ResetRequested
    ensures var t := ProcessPending(s, how, m).0;
            && !t.resetEvent
            && ((exists j :: k < j < |t.log| && t.log[j].ManualReset?)
                <==> s.resetEvent && k < |s.log| + |m.between| + |m.early|)
  {
    var done := ProcessLog(s, how, m);
    var t, n := ProcessPending(s, how, m).0, |s.log| + |m.between| + |m.early|;
    assert forall j :: |s.log| <= j < n ==> t.log[j] == EventOf((m.between + m.early)[j - |s.log|]);
    assert forall j :: n + |done| <= j < |t.log| ==> t.log[j] == EventOf(m.late[j - n - |done|]);
    if done != [] {
      assert t.log[n] == done[0];
    }
  }

  // ----- the object -----

  class SickCamera {
    const threshold: int
    var camera: Option<Acquirer>
    var lastDiscardedCamera: Option<Acquirer>
    var consecutiveStartFailures: nat
    var deviceResetAttempted: bool
    var reconnectEvent: bool
    var deviceResetEvent: bool
    var made: nat
    ghost var destroyed: seq<Acquirer>
    ghost var log: seq<Event>

    ghost function View(): Camera
      reads this
    {
      Camera(camera, lastDiscardedCamera, consecutiveStartFailures, deviceResetAttempted,
             reconnectEvent, deviceResetEvent, made, destroyed, log)
    }

    constructor (threshold: int)
      ensures this.threshold == threshold && View() == Blank()
    {
      this.threshold := threshold;
      camera, lastDiscardedCamera := None, None;
      consecutiveStartFailures, deviceResetAttempted, reconnectEvent, deviceResetEvent := 0, false, false, false;
      made, destroyed, log := 0, [], [];
    }

    method DiscardCamera(a: Option<Acquirer>, reset: Reset) returns (discarded: bool)
      modifies this
      ensures View() == Discard(old(View()), a, reset)
      ensures discarded <==> a.Some? && a != old(lastDiscardedCamera)
      ensures discarded ==>
                lastDiscardedCamera == a && destroyed == old(destroyed) + [a.value]
                && camera == if old(camera) == a then None else old(camera)
      ensures discarded && reset.NoReset? ==> log == old(log) && deviceResetAttempted == old(deviceResetAttempted)
      ensures discarded && !reset.NoReset? ==>
                deviceResetAttempted
                && log == old(log) + [if reset.Automatic? then AutoReset(a.value) else ManualReset(a.value)]
      ensures !discarded ==> View() == old(View())
    {
      if a.None? || a == lastDiscardedCamera {
        return false;
      }
      lastDiscardedCamera := a;
      if camera == a {
        camera := None;
      }
      if !reset.NoReset? {
        deviceResetAttempted := true;
        log := log + [if reset.Automatic? then AutoReset(a.value) else ManualReset(a.value)];
      }
      destroyed := destroyed + [a.value];
      return true;
    }

    method ConnectDevice(how: Connecting) returns (ok: bool)
      modifies this
      ensures (View(), ok) == Connect(old(View()), how)
      ensures ok <==> how.Connects?
      ensures how.NoDevice? ==> View() == old(View())
      ensures how.Connects? || how.TemperatureRaises? ==>
                View() == old(View()).(camera := Some(old(made)), made := old(made) + 1)
      ensures how.ConfigureFails? && Owned(old(View())) ==>
                && camera == None && lastDiscardedCamera == Some(old(made)) && made == old(made) + 1
                && destroyed == old(destroyed) + [old(made)] && log == old(log)
    {
      if how.NoDevice? {
        return false;
      }
      var a := made;
      made := made + 1;
      camera := Some(a);
      if how.ConfigureFails? {
        var _ := DiscardCamera(Some(a), NoReset);
        return false;
      }
      return how.Connects?;
    }

    method CurrentCamera(how: Connecting) returns (ok: bool)
      modifies this
      ensures (View(), ok) == GetCamera(old(View()), how)
      ensures old(camera).Some? ==> ok && View() == old(View())
      ensures ok ==> camera.Some?
    {
      if camera.None? {
        ok := ConnectDevice(how);
      } else {
        ok := true;
      }
    }

    method Hear(asks: seq<Ask>)
      modifies this
      ensures View() == Asked(old(View()), asks)
    {
      for i := 0 to |asks|
        invariant View() == Asked(old(View()), asks[..i])
      {
        assert asks[..i + 1][..i] == asks[..i];
        if asks[i].Reconnect? {
          AskReconnect();
        } else {
          AskDeviceReset();
        }
      }
      assert asks[..|asks|] == asks;
    }

    method OpenCamera(how: Connecting, start: Starting, diagnosing: seq<Ask>, decided: seq<Ask>) returns (ok: bool)
      modifies this
      ensures (View(), ok) == Open(threshold, old(View()), how, start, diagnosing, decided)
    {
      ok := CurrentCamera(how);
      if !ok {
        return;
      }
      ok := StartCamera(start, diagnosing, decided);
    }

    method StartCamera(start: Starting, diagnosing: seq<Ask>, decided: seq<Ask>) returns (ok: bool)
      modifies this
      ensures (View(), ok) == Start(threshold, old(View()), start, diagnosing, decided)
      ensures ok <==> start.Starts?
      ensures ok ==> View() == old(View()).(startFailures := 0, resetAttempted := false, log := old(log) + [Started])
      ensures start.FailsUndiagnosed? ==>
                View() == old(View()).(startFailures := old(consecutiveStartFailures) + 1, log := old(log) + [StartFailed])
    {
      if !start.Starts? {
        consecutiveStartFailures := consecutiveStartFailures + 1;
        log := log + [StartFailed];
        if start.Fails? {
          Hear(diagnosing);
          var reset := threshold > 0 && start.locked && !deviceResetAttempted && consecutiveStartFailures >= threshold;
          Hear(decided);
          var _ := DiscardCamera(camera, if reset then Automatic else NoReset);
        }
        return false;
      }
      consecutiveStartFailures := 0;
      deviceResetAttempted := false;
      log := log + [Started];
      return true;
    }

    method ReleaseCamera()
      modifies this
      ensures View() == Release(old(View()))
      ensures Owned(old(View())) ==>
                && camera.None? && log == old(log) && made == old(made)
                && destroyed == if old(camera).Some? then old(destroyed) + [old(camera).value] else old(destroyed)
    {
      if camera.None? {
        return;
      }
      var _ := DiscardCamera(camera, NoReset);
    }

    method ProcessPendingActions(how: Connecting, m: Meanwhile) returns (normal: bool)
      modifies this
      ensures (View(), normal) == ProcessPending(old(View()), how, m)
    {
      var resetRequested := deviceResetEvent;
      Hear(m.between);
      var reconnectRequested := reconnectEvent;
      if !resetRequested && !reconnectRequested {
        return true;
      }
      var up := true;
      if resetRequested && camera.None? {
        up := ConnectDevice(how);
      }
      Hear(m.early);
      if !up {
        return false;
      }
      if camera.Some? {
        var _ := DiscardCamera(camera, if resetRequested then Manual else NoReset);
      }
      Hear(m.late);
      deviceResetEvent := false;
      reconnectEvent := false;
      return false;
    }

    method GetBuffer(how: Connecting, m: Meanwhile, again: Connecting)
      modifies this
      ensures View() == Fetch(old(View()), how, m, again)
      ensures !old(deviceResetEvent) && !old(reconnectEvent) && m.between == [] ==>
                && (old(camera).Some? ==> View() == old(View()))
                && (old(camera).None? && again.Connects? ==> camera == Some(old(made)))
    {
      var normal := ProcessPendingActions(how, m);
      if normal {
        var _ := CurrentCamera(again);
      }
    }

    method AskReconnect()
      modifies this
      ensures View() == RequestReconnect(old(View()))
    {
      deviceResetAttempted := false;
      reconnectEvent := true;
      log := log + [ReconnectRequested];
    }

    method AskDeviceReset()
      modifies this
      ensures View() == RequestReset(old(View()))
    {
      deviceResetEvent := true;
      log := log + [ResetRequested];
    }
  }
}
