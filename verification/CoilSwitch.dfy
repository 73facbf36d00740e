/** How the capture follows the production line: the signal thread polls for the current
    coil (app/CapTrue/Signal.py) and tells its subscribers, which bind the frames they
    capture to the coil last announced (app/CapTrue/CapTure.py). */
module CoilSwitch {
  import opened Options

  datatype CoilRecord = CoilRecord(id: int, coilNo: string)

  datatype Event = Init(coil: CoilRecord) | In(coil: CoilRecord) | Out(coil: CoilRecord)

  /** One poll of the database. */
  datatype Poll = Fails | NoCoil | Found(coil: CoilRecord)

  /** A capture unit: the coil it was told of, whether it captures, and what it heard. */
  datatype Capture = Capture(coil: Option<CoilRecord>, running: bool, heard: seq<Event>)

  const IDLE := Capture(None, false, [])

  /** `on_signal`: announcing a coil scans the disk and may raise after the coil has been
      taken over and before capturing is switched on. */
  function OnSignal(c: Capture, e: Event, raises: bool): Capture {
    Capture(Some(e.coil), if e.Out? then false else if raises then c.running else true, c.heard + [e])
  }

  /** The coil a frame arriving now is bound to. */
  function Snapshot(c: Capture): Option<CoilRecord> {
    if !c.running then None else c.coil
  }

  /** The coil of the latest announcement, unless it has gone out since. */
  function Announced(heard: seq<Event>): Option<CoilRecord> {
    if heard == [] || heard[|heard| - 1].Out? then None else Some(heard[|heard| - 1].coil)
  }

  // ----- the trace of events -----

  /** A trace is empty, or an init followed by pairs: out of the old coil, in of one with
      another number. `current` is the coil it ends on. */
  predicate SwitchTrace(events: seq<Event>, current: Option<CoilRecord>) {
    var n := |events|;
    if n == 0 then current == None
    else if n == 1 then events[0].Init? && current == Some(events[0].coil)
    else
      && events[n - 1].In? && current == Some(events[n - 1].coil)
      && events[n - 2].Out? && events[n - 2].coil.coilNo != events[n - 1].coil.coilNo
      && SwitchTrace(events[..n - 2], Some(events[n - 2].coil))
  }

  lemma SwitchAppends(events: seq<Event>, old_: CoilRecord, coil: CoilRecord)
    requires SwitchTrace(events, Some(old_)) && old_.coilNo != coil.coilNo
    ensures SwitchTrace(events + [Out(old_), In(coil)], Some(coil))
  {
    var all := events + [Out(old_), In(coil)];
    assert all[..|all| - 2] == events;
  }

  /** What the signal does for one poll: the coil it ends on and the events it sends. */
  function AfterPoll(current: Option<CoilRecord>, poll: Poll): (Option<CoilRecord>, seq<Event>) {
    if !poll.Found? then (current, [])
    else if current.None? then (Some(poll.coil), [Init(poll.coil)])
    else if poll.coil.coilNo != current.value.coilNo then (Some(poll.coil), [Out(current.value), In(poll.coil)])
    else (current, [])
  }

  /** The capture unit follows what it hears: a frame is bound to a coil only if that coil is
      the one announced last and has not gone out. */
  ghost predicate Follows(c: Capture) {
    && (c.heard == [] ==> c == IDLE)
    && (c.heard != [] ==> c.coil == Some(c.heard[|c.heard| - 1].coil))
    && (Snapshot(c).Some? ==> Snapshot(c) == Announced(c.heard))
  }

  lemma OnSignalFollows(c: Capture, e: Event, raises: bool)
    requires Follows(c)
    ensures Follows(OnSignal(c, e, raises))
    ensures !raises && !e.Out? ==> Snapshot(OnSignal(c, e, raises)) == Some(e.coil)
    ensures e.Out? ==> Snapshot(OnSignal(c, e, raises)).None?
  {
  }

  /** Events delivered one after another, each with whether its handling raises. */
  function HearAll(deliveries: seq<(Event, bool)>): Capture {
    if deliveries == [] then IDLE
    else
      var last := deliveries[|deliveries| - 1];
      OnSignal(HearAll(deliveries[..|deliveries| - 1]), last.0, last.1)
  }

  /** An announcement has been handled without raising since the last out. */
  predicate Listening(deliveries: seq<(Event, bool)>) {
    deliveries != []
    && var last := deliveries[|deliveries| - 1];
       !last.0.Out? && (!last.1 || Listening(deliveries[..|deliveries| - 1]))
  }

  /** Whatever events a unit hears and however often its handling of them raises: frames are
      bound exactly while an announcement has been handled since the last out, and then to
      the coil announced last. */
  lemma {:induction false} FramesBoundToAnnounced(deliveries: seq<(Event, bool)>)
    ensures Follows(HearAll(deliveries))
    ensures Snapshot(HearAll(deliveries)) ==
            if Listening(deliveries) then Some(deliveries[|deliveries| - 1].0.coil) else None
    ensures Snapshot(HearAll(deliveries)).Some? ==> Snapshot(HearAll(deliveries)) == Announced(HearAll(deliveries).heard)
  {
    if deliveries != [] {
      var last := deliveries[|deliveries| - 1];
      FramesBoundToAnnounced(deliveries[..|deliveries| - 1]);
      OnSignalFollows(HearAll(deliveries[..|deliveries| - 1]), last.0, last.1);
    }
  }

  // ----- the wait before a switch -----

  /** The clock and whether the cameras have been quiet, as read in one turn of the wait. */
  datatype Reading = Reading(clock: real, quiet: bool)

  /** Each turn sleeps at least one second. */
  ghost predicate Sleeps(read: nat -> Reading) {
    forall k: nat :: read(k + 1).clock >= read(k).clock + 1.0
  }

  /** The wait ends at the first turn that is quiet or has reached the limit; with turns of
      one second, after fewer turns than the limit has seconds, plus one. */
  method AwaitQuiet(read: nat -> Reading, limit: real) returns (turn: nat)
    requires Sleeps(read)
    ensures read(turn).quiet || read(turn).clock - read(0).clock >= limit
    ensures forall k :: 0 <= k < turn ==> !read(k).quiet && read(k).clock - read(0).clock < limit
    ensures turn > 0 ==> turn as real - 1.0 < limit
  {
    var started := read(0).clock;
    turn := 0;
    while true
      invariant forall k :: 0 <= k < turn ==> !read(k).quiet && read(k).clock - started < limit
      invariant read(turn).clock - started >= turn as real
      invariant turn > 0 ==> turn as real - 1.0 < limit
      decreases limit + 1.0 - turn as real
    {
      var now := read(turn);
      if now.quiet || now.clock - started >= limit {
        return;
      }
      turn := turn + 1;
    }
  }

  // ----- the signal object -----

  class Signal {
    var coil: Option<CoilRecord>
    var regFunc: seq<Capture>

    /** Every subscriber has heard an init and then switches, ending on the signal's coil,
        and binds its frames accordingly. */
    ghost predicate Valid()
      reads this
    {
      forall i :: 0 <= i < |regFunc| ==> Follows(regFunc[i]) && SwitchTrace(regFunc[i].heard, coil)
    }

    constructor ()
      ensures Valid() && coil == None && regFunc == []
    {
      coil, regFunc := None, [];
    }

    /** Every subscriber hears the event, whichever of them raise. */
    method Trigger(e: Event, raises: nat -> bool)
      modifies this`regFunc
      ensures |regFunc| == |old(regFunc)|
      ensures forall i :: 0 <= i < |regFunc| ==> regFunc[i] == OnSignal(old(regFunc)[i], e, raises(i))
    {
      for i := 0 to |regFunc|
        invariant |regFunc| == |old(regFunc)|
        invariant forall j :: 0 <= j < i ==> regFunc[j] == OnSignal(old(regFunc)[j], e, raises(j))
        invariant forall j :: i <= j < |regFunc| ==> regFunc[j] == old(regFunc)[j]
      {
        regFunc := regFunc[i := OnSignal(regFunc[i], e, raises(i))];
      }
    }

    /** A late subscriber is told of the current coil at once. */
    method Register(raises: bool)
      requires Valid()
      modifies this`regFunc
      ensures Valid()
      ensures regFunc == old(regFunc) + [if coil.Some? then OnSignal(IDLE, Init(coil.value), raises) else IDLE]
    {
      regFunc := regFunc + [IDLE];
      if coil.Some? {
        regFunc := regFunc[|regFunc| - 1 := OnSignal(IDLE, Init(coil.value), raises)];
      }
    }

    /** One turn of the polling loop. */
    method PollOnce(poll: Poll, raises: nat -> bool, read: nat -> Reading, limit: real)
      requires Valid() && Sleeps(read)
      modifies this
      ensures Valid() && |regFunc| == |old(regFunc)|
      ensures poll.Found? && old(coil).None? ==>
                coil == Some(poll.coil)
                && forall i :: 0 <= i < |regFunc| ==> regFunc[i].heard == old(regFunc)[i].heard + [Init(poll.coil)]
      ensures poll.Found? && old(coil).Some? && old(coil).value.coilNo != poll.coil.coilNo ==>
                coil == Some(poll.coil)
                && forall i :: 0 <= i < |regFunc| ==>
                     regFunc[i].heard == old(regFunc)[i].heard + [Out(old(coil).value), In(poll.coil)]
      ensures !poll.Found? || (old(coil).Some? && old(coil).value.coilNo == poll.coil.coilNo) ==>
                coil == old(coil) && regFunc == old(regFunc)
      ensures regFunc != old(regFunc) ==> forall i :: 0 <= i < |regFunc| && !raises(i) ==> Snapshot(regFunc[i]) == coil
      ensures coil == AfterPoll(old(coil), poll).0
      ensures forall i :: 0 <= i < |regFunc| ==> regFunc[i].heard == old(regFunc)[i].heard + AfterPoll(old(coil), poll).1
    {
      if !poll.Found? {
        return;
      }
      if coil.None? {
        coil := Some(poll.coil);
        Trigger(Init(poll.coil), raises);
      } else if poll.coil.coilNo != coil.value.coilNo {
        var _ := AwaitQuiet(read, limit);
        Switch(poll.coil, raises);
      }
    }

    method Switch(next: CoilRecord, raises: nat -> bool)
      requires Valid() && coil.Some? && next.coilNo != coil.value.coilNo
      modifies this
      ensures Valid() && coil == Some(next) && |regFunc| == |old(regFunc)|
      ensures forall i :: 0 <= i < |regFunc| ==>
        && regFunc[i].heard == old(regFunc)[i].heard + [Out(old(coil).value), In(next)]
        && (!raises(i) ==> Snapshot(regFunc[i]) == Some(next))
    {
      ghost var before := regFunc;
      Trigger(Out(coil.value), (i: nat) => false);
      ghost var between := regFunc;
      coil := Some(next);
      Trigger(In(next), raises);
      forall i | 0 <= i < |regFunc|
        ensures Follows(regFunc[i]) && SwitchTrace(regFunc[i].heard, coil)
        ensures regFunc[i].heard == before[i].heard + [Out(old(coil).value), In(next)]
      {
        OnSignalFollows(before[i], Out(old(coil).value), false);
        OnSignalFollows(between[i], In(next), raises(i));
        assert regFunc[i].heard == before[i].heard + [Out(old(coil).value), In(next)];
        SwitchAppends(before[i].heard, old(coil).value, next);
      }
    }
  }

  // ----- over all polls -----

  /** The events of a series of polls. */
  function Sent(current: Option<CoilRecord>, polls: seq<Poll>): seq<Event>
    decreases |polls|
  {
    if polls == [] then []
    else
      var (next, events) := AfterPoll(current, polls[0]);
      events + Sent(next, polls[1..])
  }

  function CoilAfter(current: Option<CoilRecord>, polls: seq<Poll>): Option<CoilRecord>
    decreases |polls|
  {
    if polls == [] then current else CoilAfter(AfterPoll(current, polls[0]).0, polls[1..])
  }

  lemma PollGrows(past: seq<Event>, current: Option<CoilRecord>, poll: Poll)
    requires SwitchTrace(past, current)
    ensures SwitchTrace(past + AfterPoll(current, poll).1, AfterPoll(current, poll).0)
  {
    var events := AfterPoll(current, poll).1;
    if |events| == 2 {
      SwitchAppends(past, current.value, poll.coil);
    } else if |events| == 0 {
      assert past + events == past;
    } else {
      assert past == [] && past + events == events;
    }
  }

  lemma {:induction false} TraceGrows(past: seq<Event>, current: Option<CoilRecord>, polls: seq<Poll>)
    requires SwitchTrace(past, current)
    ensures SwitchTrace(past + Sent(current, polls), CoilAfter(current, polls))
    decreases |polls|
  {
    if polls == [] {
      assert past + [] == past;
    } else {
      var (next, events) := AfterPoll(current, polls[0]);
      PollGrows(past, current, polls[0]);
      TraceGrows(past + events, next, polls[1..]);
      assert past + (events + Sent(next, polls[1..])) == past + events + Sent(next, polls[1..]);
    }
  }

  /** Over all polls and poll failures the signal sends an init and then out-in pairs of
      coils with differing numbers. */
  lemma PollsMakeASwitchTrace(polls: seq<Poll>)
    ensures SwitchTrace(Sent(None, polls), CoilAfter(None, polls))
  {
    TraceGrows([], None, polls);
    assert [] + Sent(None, polls) == Sent(None, polls);
  }

  // ----- which coils are announced -----

  /** The coil found last, if any poll has found one. */
  function LastFound(polls: seq<Poll>): Option<CoilRecord> {
    if polls == [] then None
    else if polls[|polls| - 1].Found? then Some(polls[|polls| - 1].coil)
    else LastFound(polls[..|polls| - 1])
  }

  /** The coils found, each only where its number differs from that of the one found before. */
  function Changes(polls: seq<Poll>): seq<CoilRecord> {
    if polls == [] then []
    else
      var before, poll := LastFound(polls[..|polls| - 1]), polls[|polls| - 1];
      Changes(polls[..|polls| - 1])
      + if poll.Found? && (before.None? || before.value.coilNo != poll.coil.coilNo) then [poll.coil] else []
  }

  /** How a series of coils is announced: an init, then out of each and in of the next. */
  function Announcing(coils: seq<CoilRecord>): seq<Event> {
    var n := |coils|;
    if n == 0 then []
    else if n == 1 then [Init(coils[0])]
    else Announcing(coils[..n - 1]) + [Out(coils[n - 2]), In(coils[n - 1])]
  }

  lemma {:induction false} PollAppended(current: Option<CoilRecord>, polls: seq<Poll>, poll: Poll)
    ensures CoilAfter(current, polls + [poll]) == AfterPoll(CoilAfter(current, polls), poll).0
    ensures Sent(current, polls + [poll]) == Sent(current, polls) + AfterPoll(CoilAfter(current, polls), poll).1
    decreases |polls|
  {
    if polls == [] {
      assert [poll][1..] == [];
      assert [] + [poll] == [poll];
    } else {
      var (next, events) := AfterPoll(current, polls[0]);
      assert (polls + [poll])[1..] == polls[1..] + [poll];
      PollAppended(next, polls[1..], poll);
    }
  }

  /** Over all polls and poll failures exactly the changes of the coil number are announced,
      in order, each with the record found at the change; the coil ended on is the last of
      them and carries the number of the coil found last. */
  lemma {:induction false} EveryChangeAnnounced(polls: seq<Poll>)
    ensures Sent(None, polls) == Announcing(Changes(polls))
    ensures CoilAfter(None, polls) == if Changes(polls) == [] then None else Some(Changes(polls)[|Changes(polls)| - 1])
    ensures CoilAfter(None, polls).None? <==> LastFound(polls).None?
    ensures LastFound(polls).Some? ==> CoilAfter(None, polls).value.coilNo == LastFound(polls).value.coilNo
  {
    if polls != [] {
      var init, poll := polls[..|polls| - 1], polls[|polls| - 1];
      assert polls == init + [poll];
      EveryChangeAnnounced(init);
      PollAppended(None, init, poll);
      if Changes(polls) != Changes(init) {
        assert Changes(polls)[..|Changes(polls)| - 1] == Changes(init);
      }
    }
  }
}
