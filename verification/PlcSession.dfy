/** The single PLC session of app/plcServer/server.py: connect, reconnect once, retarget.
    The vendor SDK is a source of outcomes; a client is the number it was built under. */
module PlcSession {
  import opened Options

  datatype Target = Target(ip: string, rack: int, slot: int)

  type Client = nat

  /** What building a client comes to. The factory may raise or return nothing; a client it
      does return may refuse the two timeout fields. */
  datatype Factory = Raises | ReturnsNone | RefusesTimeouts | Builds

  datatype Outcome<+V> = Value(v: V) | Raised

  /** What the SDK answers during one connect-and-call attempt. */
  datatype Attempt<+V> = Attempt(factory: Factory, connects: bool, call: Outcome<V>)

  /** `built` holds the target each client was built for, `closed` the clients closed so
      far, in order; `leaked` those that refused their timeouts, `called` the clients a
      callback ran on. The last four record the past. */
  datatype Session = Session(
    client: Option<Client>,
    connected: bool,
    target: Target,
    failed: bool,
    operation: Option<string>,
    locked: bool,
    built: seq<Target>,
    closed: seq<Client>,
    leaked: seq<Client>,
    called: seq<Client>)

  function Fresh(target: Target): Session {
    Session(None, false, target, false, None, false, [], [], [], [])
  }

  /** `_new_client` and the SDK's connect; the second result says whether it worked. */
  function Connect(s: Session, factory: Factory, connects: bool): (Session, bool) {
    if s.client.Some? && s.connected then (s, true)
    else
      var h := |s.built|;
      match factory
      case Raises => (s.(connected := false, failed := true), false)
      case ReturnsNone => (s.(connected := false, failed := true), false)
      case RefusesTimeouts =>
        (s.(connected := false, failed := true, built := s.built + [s.target], leaked := s.leaked + [h]), false)
      case Builds =>
        if connects
        then (s.(client := Some(h), connected := true, failed := false, built := s.built + [s.target]), true)
        else (s.(connected := false, failed := true, built := s.built + [s.target], closed := s.closed + [h]), false)
  }

  function Disconnect(s: Session): Session {
    s.(client := None, connected := false,
       closed := if s.client.Some? then s.closed + [s.client.value] else s.closed)
  }

  /** The callback on the current client; an error drops the session. */
  function Call<V>(c: Session, call: Outcome<V>): (Session, Outcome<V>)
    requires c.client.Some?
  {
    var called := c.(called := c.called + [c.client.value]);
    if call.Value? then (called.(connected := true, failed := false), call)
    else (Disconnect(called.(failed := true)), Raised)
  }

  /** One attempt: connect if need be, call, and on any error drop the session. */
  function TryOnce<V>(s: Session, a: Attempt<V>): (Session, Outcome<V>) {
    var (c, up) := Connect(s, a.factory, a.connects);
    if up && c.client.Some? then Call(c, a.call) else (Disconnect(c.(failed := true)), Raised)
  }

  function Execute<V>(s: Session, first: Attempt<V>, second: Attempt<V>): (Session, Outcome<V>) {
    var (t, r) := TryOnce(s, first);
    if r.Value? then (t, r) else TryOnce(t, second)
  }

  function Configure(s: Session, target: Target, connect: bool, factory: Factory, connects: bool): Session {
    var t := Disconnect(s).(target := target);
    if connect then Connect(t, factory, connects).0 else t
  }

  // ----- ownership of clients -----

  ghost predicate Inv(s: Session) {
    && (s.connected <==> s.client.Some?)
    && (s.client.Some? ==> s.client.value < |s.built| && s.built[s.client.value] == s.target
                           && s.client.value !in s.closed && s.client.value !in s.leaked)
    && (forall h :: 0 <= h < |s.built| ==> s.client == Some(h) || h in s.closed || h in s.leaked)
    && (forall i :: 0 <= i < |s.closed| ==> s.closed[i] < |s.built| && s.closed[i] !in s.leaked)
    && (forall i :: 0 <= i < |s.leaked| ==> s.leaked[i] < |s.built|)
    && (forall i, j :: 0 <= i < j < |s.closed| ==> s.closed[i] != s.closed[j])
  }

  lemma ConnectKeeps(s: Session, factory: Factory, connects: bool)
    requires Inv(s)
    ensures Inv(Connect(s, factory, connects).0)
    ensures Connect(s, factory, connects).1 <==> Connect(s, factory, connects).0.connected
    ensures Connect(s, factory, connects).0.called == s.called
  {
  }

  lemma DisconnectKeeps(s: Session)
    requires Inv(s)
    ensures Inv(Disconnect(s)) && !Disconnect(s).connected
  {
  }

  lemma CallKeeps<V>(c: Session, call: Outcome<V>)
    requires Inv(c) && c.client.Some?
    ensures Inv(Call(c, call).0) && (Call(c, call).1.Value? <==> Call(c, call).0.connected)
    ensures Call(c, call).1 == call
  {
    DisconnectKeeps(c.(called := c.called + [c.client.value], failed := true));
  }

  lemma TryOnceInv<V>(s: Session, a: Attempt<V>)
    requires Inv(s)
    ensures Inv(TryOnce(s, a).0)
    ensures TryOnce(s, a).1.Value? <==> TryOnce(s, a).0.connected
    ensures TryOnce(s, a).1.Value? ==> TryOnce(s, a).1 == a.call
  {
    ConnectKeeps(s, a.factory, a.connects);
    var c := Connect(s, a.factory, a.connects).0;
    if c.client.Some? {
      CallKeeps(c, a.call);
    } else {
      DisconnectKeeps(c.(failed := true));
    }
  }

  lemma TryOnceCalls<V>(s: Session, a: Attempt<V>)
    requires Inv(s)
    ensures TryOnce(s, a).1.Raised? <==> TryOnce(s, a).0.failed
    ensures s.called <= TryOnce(s, a).0.called && |TryOnce(s, a).0.called| <= |s.called| + 1
    ensures !s.connected && |TryOnce(s, a).0.called| > |s.called| ==> TryOnce(s, a).0.called[|s.called|] == |s.built|
    ensures |s.built| <= |TryOnce(s, a).0.built| && TryOnce(s, a).0.target == s.target
  {
    ConnectKeeps(s, a.factory, a.connects);
  }

  /** A call runs at most twice, the second time only after the first failed and only on a
      client built after it; it ends connected with that call's value, or disconnected. */
  lemma ExecuteReconnectsOnce<V>(s: Session, first: Attempt<V>, second: Attempt<V>)
    requires Inv(s)
    ensures var (t, r) := Execute(s, first, second);
            && Inv(t) && t.target == s.target
            && (r.Value? <==> t.connected) && (r.Raised? <==> t.failed)
            && s.called <= t.called && |t.called| <= |s.called| + 2
            && (r.Value? ==> r == first.call || r == second.call)
            && (|t.called| == |s.called| + 2 ==>
                  && first.call.Raised?
                  && t.called[|s.called| + 1] >= |s.built|
                  && t.called[|s.called| + 1] != t.called[|s.called|])
  {
    TryOnceInv(s, first);
    TryOnceCalls(s, first);
    var (t, r) := TryOnce(s, first);
    if r.Raised? {
      TryOnceInv(t, second);
      TryOnceCalls(t, second);
      SecondCall(s, first, second);
    }
  }

  /** If both attempts call, the second does so on a client built since. */
  lemma SecondCall<V>(s: Session, first: Attempt<V>, second: Attempt<V>)
    requires Inv(s) && TryOnce(s, first).1.Raised?
    ensures var called := TryOnce(TryOnce(s, first).0, second).0.called;
            |called| == |s.called| + 2 ==>
              && first.call.Raised?
              && called[|s.called| + 1] >= |s.built|
              && called[|s.called| + 1] != called[|s.called|]
  {
    TryOnceInv(s, first);
    TryOnceCalls(s, first);
    var t := TryOnce(s, first).0;
    TryOnceCalls(t, second);
    if |TryOnce(t, second).0.called| == |s.called| + 2 {
      CalledInClosed(s, first);
    }
  }

  /** An attempt gets as far as the callback. */
  predicate Reaches<V>(connected: bool, a: Attempt<V>) {
    connected || (a.factory.Builds? && a.connects)
  }

  /** The client the callback of an attempt runs on: the live one, or the next to be built. */
  function ClientFor(s: Session): Client {
    if s.client.Some? then s.client.value else |s.built|
  }

  lemma TryOnceAnswers<V>(s: Session, a: Attempt<V>)
    requires Inv(s)
    ensures var (t, r) := TryOnce(s, a);
            && r == (if Reaches(s.connected, a) then a.call else Raised)
            && t.called == s.called + (if Reaches(s.connected, a) then [ClientFor(s)] else [])
            && (s.connected && a.call.Value? ==> t.client == s.client && t.built == s.built && t.closed == s.closed)
            && (s.connected && a.call.Raised? ==> t.built == s.built && t.closed == s.closed + [ClientFor(s)])
            && (r.Raised? ==> !t.connected && t.client.None?)
            && (r.Value? ==> t.connected && t.client == Some(ClientFor(s)))
  {
    ConnectKeeps(s, a.factory, a.connects);
  }

  /** What a call comes to. The first attempt answers if it reaches the callback, on the live
      client if there is one, and the callback succeeds; otherwise the second one does, on a
      newly built client. A live session that answers is left as it is. */
  lemma ExecuteAnswers<V>(s: Session, first: Attempt<V>, second: Attempt<V>)
    requires Inv(s)
    ensures var (t, r) := Execute(s, first, second);
            var answered := Reaches(s.connected, first) && first.call.Value?;
            && r == (if answered then first.call else if Reaches(false, second) then second.call else Raised)
            && |t.called| == |s.called| + (if Reaches(s.connected, first) then 1 else 0)
                             + (if !answered && Reaches(false, second) then 1 else 0)
            && (Reaches(s.connected, first) ==> t.called[|s.called|] == ClientFor(s))
            && (s.connected && answered ==> t.client == s.client && t.built == s.built && t.closed == s.closed)
  {
    TryOnceInv(s, first);
    TryOnceAnswers(s, first);
    var (t, r) := TryOnce(s, first);
    if r.Raised? {
      TryOnceAnswers(t, second);
    }
  }

  lemma CalledInClosed<V>(s: Session, a: Attempt<V>)
    requires Inv(s) && TryOnce(s, a).1.Raised? && |TryOnce(s, a).0.called| == |s.called| + 1
    ensures TryOnce(s, a).0.called[|s.called|] < |TryOnce(s, a).0.built|
    ensures a.call.Raised?
  {
    ConnectKeeps(s, a.factory, a.connects);
  }

  lemma ConfigureKeeps(s: Session, target: Target, connect: bool, factory: Factory, connects: bool)
    requires Inv(s)
    ensures Inv(Configure(s, target, connect, factory, connects))
    ensures Configure(s, target, connect, factory, connects).target == target
    ensures s.client.Some? ==> s.client.value in Configure(s, target, connect, factory, connects).closed
  {
    DisconnectKeeps(s);
    ConnectKeeps(Disconnect(s).(target := target), factory, connects);
  }

  // ----- any sequence of requests -----

  datatype Request =
    | DoConnect(factory: Factory, connects: bool)
    | DoConfigure(target: Target, connect: bool, factory: Factory, connects: bool)
    | DoExecute(first: Attempt<int>, second: Attempt<int>)
    | DoClose

  function Serve(s: Session, r: Request): Session {
    match r
    case DoConnect(factory, connects) => Connect(s, factory, connects).0
    case DoConfigure(target, connect, factory, connects) => Configure(s, target, connect, factory, connects)
    case DoExecute(first, second) => Execute(s, first, second).0
    case DoClose => Disconnect(s)
  }

  function ServeAll(s: Session, requests: seq<Request>): Session
    decreases |requests|
  {
    if requests == [] then s else ServeAll(Serve(s, requests[0]), requests[1..])
  }

  lemma {:induction false} InvKept(s: Session, requests: seq<Request>)
    requires Inv(s)
    ensures Inv(ServeAll(s, requests))
    decreases |requests|
  {
    if requests != [] {
      match requests[0] {
        case DoConnect(factory, connects) => ConnectKeeps(s, factory, connects);
        case DoConfigure(target, connect, factory, connects) => ConfigureKeeps(s, target, connect, factory, connects);
        case DoExecute(first, second) => ExecuteReconnectsOnce(s, first, second);
        case DoClose => DisconnectKeeps(s);
      }
      InvKept(Serve(s, requests[0]), requests[1..]);
    }
  }

  /** Serving the request builds a client that refuses its timeout fields: the request has
      to build one, and that is what the factory returns. */
  predicate Refuses(s: Session, r: Request) {
    match r
    case DoConnect(factory, _) => !(s.client.Some? && s.connected) && factory.RefusesTimeouts?
    case DoConfigure(_, connect, factory, _) => connect && factory.RefusesTimeouts?
    case DoExecute(first, second) =>
      || (!(s.client.Some? && s.connected) && first.factory.RefusesTimeouts?)
      || (TryOnce(s, first).1.Raised? && second.factory.RefusesTimeouts?)
    case DoClose => false
  }

  predicate NoneRefuses(s: Session, requests: seq<Request>)
    decreases |requests|
  {
    requests == [] || (!Refuses(s, requests[0]) && NoneRefuses(Serve(s, requests[0]), requests[1..]))
  }

  lemma TryOnceLeaks<V>(s: Session, a: Attempt<V>)
    ensures s.leaked <= TryOnce(s, a).0.leaked
    ensures TryOnce(s, a).0.leaked == s.leaked <==> (s.client.Some? && s.connected) || !a.factory.RefusesTimeouts?
    ensures TryOnce(s, a).1.Raised? ==> TryOnce(s, a).0.client.None?
  {
  }

  lemma ServeLeaks(s: Session, r: Request)
    ensures s.leaked <= Serve(s, r).leaked
    ensures Serve(s, r).leaked == s.leaked <==> !Refuses(s, r)
  {
    if r.DoExecute? {
      TryOnceLeaks(s, r.first);
      TryOnceLeaks(TryOnce(s, r.first).0, r.second);
    }
  }

  lemma {:induction false} LeakedIffRefused(s: Session, requests: seq<Request>)
    ensures s.leaked <= ServeAll(s, requests).leaked
    ensures ServeAll(s, requests).leaked == s.leaked <==> NoneRefuses(s, requests)
    decreases |requests|
  {
    if requests != [] {
      ServeLeaks(s, requests[0]);
      LeakedIffRefused(Serve(s, requests[0]), requests[1..]);
    }
  }

  /** Over any sequence of requests: connected means there is a client, it was built for the
      current target, no client is closed twice or while current, and every client ever
      built is the current one or closed - exactly when no request built one that refused
      its timeout fields. */
  lemma EveryClientAccountedFor(target: Target, requests: seq<Request>)
    ensures var s := ServeAll(Fresh(target), requests);
            && (s.connected <==> s.client.Some?)
            && (s.client.Some? ==> s.client.value < |s.built| && s.built[s.client.value] == s.target && s.client.value !in s.closed)
            && (forall i, j :: 0 <= i < j < |s.closed| ==> s.closed[i] != s.closed[j])
            && ((forall h :: 0 <= h < |s.built| ==> s.client == Some(h) || h in s.closed)
                <==> NoneRefuses(Fresh(target), requests))
  {
    InvKept(Fresh(target), requests);
    LeakedIffRefused(Fresh(target), requests);
    var s := ServeAll(Fresh(target), requests);
    if s.leaked != [] {
      var h := s.leaked[0];
      assert h in s.leaked;
      assert h !in s.closed;
    }
  }

  function Unmark(s: Session): Session {
    s.(operation := None, locked := false)
  }

  /** An attempt neither looks at nor touches the lock and the operation marker. */
  lemma Unmarking<V>(s: Session, a: Attempt<V>)
    ensures Unmark(TryOnce(s, a).0) == TryOnce(Unmark(s), a).0
    ensures TryOnce(s, a).1 == TryOnce(Unmark(s), a).1
    ensures TryOnce(s, a).0.operation == s.operation && TryOnce(s, a).0.locked == s.locked
  {
  }

  // ----- the object -----

  class PLCConnectionManager {
    var client: Option<Client>
    var connected: bool
    var target: Target
    var failed: bool
    var operation: Option<string>
    var locked: bool
    var built: seq<Target>
    ghost var closed: seq<Client>
    ghost var leaked: seq<Client>
    ghost var called: seq<Client>

    ghost function View(): Session
      reads this
    {
      Session(client, connected, target, failed, operation, locked, built, closed, leaked, called)
    }

    constructor (target: Target)
      ensures View() == Fresh(target)
    {
      client, connected, this.target, failed, operation, locked := None, false, target, false, None, false;
      built, closed, leaked, called := [], [], [], [];
    }

    /** None when the client could not be built and handed its timeouts. */
    method NewClient(factory: Factory) returns (made: Option<Client>)
      modifies this`built, this`leaked
      ensures made.Some? <==> factory.Builds?
      ensures made.Some? ==> made.value == |old(built)|
      ensures built == if factory.Builds? || factory.RefusesTimeouts? then old(built) + [target] else old(built)
      ensures leaked == if factory.RefusesTimeouts? then old(leaked) + [|old(built)|] else old(leaked)
    {
      if factory.Raises? || factory.ReturnsNone? {
        return None;
      }
      built := built + [target];
      if factory.RefusesTimeouts? {
        leaked := leaked + [|built| - 1];
        return None;
      }
      return Some(|built| - 1);
    }

    method ConnectLocked(factory: Factory, connects: bool) returns (ok: bool)
      modifies this
      ensures (View(), ok) == Connect(old(View()), factory, connects)
      ensures old(client).Some? && old(connected) ==> ok && View() == old(View())
      ensures !(old(client).Some? && old(connected)) ==>
                && (ok <==> factory.Builds? && connects) && connected == ok && failed == !ok
                && client == (if ok then Some(|old(built)|) else old(client))
                && built == (if factory.Builds? || factory.RefusesTimeouts? then old(built) + [target] else old(built))
                && closed == if factory.Builds? && !connects then old(closed) + [|old(built)|] else old(closed)
    {
      if client.Some? && connected {
        return true;
      }
      var made := NewClient(factory);
      if made.None? || !connects {
        connected := false;
        failed := true;
        SafeClose(made);
        return false;
      }
      client := made;
      connected := true;
      failed := false;
      return true;
    }

    method SafeClose(c: Option<Client>)
      modifies this`closed
      ensures closed == if c.Some? then old(closed) + [c.value] else old(closed)
    {
      if c.None? {
        return;
      }
      closed := closed + [c.value];
    }

    method DisconnectLocked()
      modifies this
      ensures View() == Disconnect(old(View()))
      ensures client == None && !connected && built == old(built)
      ensures closed == if old(client).Some? then old(closed) + [old(client).value] else old(closed)
    {
      var c := client;
      client := None;
      connected := false;
      SafeClose(c);
    }

    /** The lock is taken within its timeout unless another operation holds it too long. */
    method Acquire(name: string, free: bool) returns (ok: bool)
      requires free ==> !locked
      modifies this`locked, this`operation
      ensures ok == free
      ensures if ok then locked && operation == Some(name) else locked == old(locked) && operation == old(operation)
    {
      if !free {
        return false;
      }
      locked := true;
      operation := Some(name);
      return true;
    }

    method Release()
      modifies this`locked, this`operation
      ensures !locked && operation == None
    {
      operation := None;
      locked := false;
    }

    method ConfigureTarget(target: Target, connect: bool, factory: Factory, connects: bool, free: bool) returns (busy: bool)
      requires Inv(View()) && (free ==> !locked && operation == None)
      modifies this
      ensures busy == !free && Inv(View())
      ensures View() == if busy then old(View()) else Configure(old(View()), target, connect, factory, connects)
      ensures !busy ==> this.target == target && (connected <==> connect && factory.Builds? && connects)
      ensures !busy && connected ==> client == Some(|old(built)|) && built == old(built) + [target]
      ensures !busy && old(client).Some? ==> old(client).value in closed
    {
      ConfigureKeeps(View(), target, connect, factory, connects);
      var ok := Acquire("PLC configure", free);
      if !ok {
        return true;
      }
      DisconnectLocked();
      this.target := target;
      if connect {
        var _ := ConnectLocked(factory, connects);
      }
      Release();
      return false;
    }

    /** Connect, call and reconnect once; on every path the lock and the operation marker
        are cleared again. */
    method ExecuteCall<V>(name: string, attempts: seq<Attempt<V>>, free: bool) returns (busy: bool, r: Outcome<V>)
      requires |attempts| == 2
      requires Inv(View()) && (free ==> !locked && operation == None)
      modifies this
      ensures busy == !free && Inv(View())
      ensures busy ==> View() == old(View()) && r == Raised
      ensures !busy ==> (View(), r) == Execute(old(View()), attempts[0], attempts[1])
      ensures !busy ==> !locked && operation == None && (connected <==> r.Value?)
    {
      ExecuteReconnectsOnce(View(), attempts[0], attempts[1]);
      var ok := Acquire(name, free);
      if !ok {
        return true, Raised;
      }
      r := Raised;
      var attempt := 0;
      while attempt < 2 && r.Raised?
        invariant attempt <= 2 && (attempt == 0 ==> r.Raised?)
        invariant locked && operation == Some(name)
        invariant attempt == 0 ==> Unmarked() == old(View())
        invariant attempt == 1 ==> (Unmarked(), r) == TryOnce(old(View()), attempts[0])
        invariant attempt == 2 ==> (Unmarked(), r) == Execute(old(View()), attempts[0], attempts[1])
      {
        Unmarking(View(), attempts[attempt]);
        r := AttemptOnce(attempts[attempt]);
        attempt := attempt + 1;
      }
      Release();
      return false, r;
    }

    /** The state as it reads once the lock and the marker are cleared. */
    ghost function Unmarked(): Session
      reads this
    {
      Unmark(View())
    }

    method AttemptOnce<V>(a: Attempt<V>) returns (r: Outcome<V>)
      modifies this
      ensures (View(), r) == TryOnce(old(View()), a)
    {
      var up := ConnectLocked(a.factory, a.connects);
      if up && client.Some? {
        r := CallBack(a.call);
      } else {
        failed := true;
        DisconnectLocked();
        r := Raised;
      }
    }

    method CallBack<V>(call: Outcome<V>) returns (r: Outcome<V>)
      requires client.Some?
      modifies this
      ensures (View(), r) == Call(old(View()), call)
    {
      called := called + [client.value];
      if call.Value? {
        connected := true;
        failed := false;
        return call;
      }
      failed := true;
      DisconnectLocked();
      return Raised;
    }

    /** Shutdown drops the session, unless an operation still holds the lock. */
    method Close(free: bool) returns (done: bool)
      requires Inv(View()) && (free ==> !locked)
      modifies this
      ensures done == free && Inv(View())
      ensures View() == if done then Disconnect(old(View())) else old(View())
      ensures done ==> !connected && client.None?
    {
      DisconnectKeeps(View());
      if !free {
        return false;
      }
      locked := true;
      DisconnectLocked();
      locked := false;
      return true;
    }

    /** A read succeeds only with exactly the requested number of bytes. */
    method Read(name: string, length: nat, answers: seq<Attempt<seq<bv8>>>, free: bool) returns (busy: bool, r: Outcome<seq<bv8>>)
      requires |answers| == 2
      requires Inv(View()) && (free ==> !locked && operation == None)
      modifies this
      ensures Inv(View()) && (r.Value? ==> |r.v| == length && connected)
      ensures busy ==> View() == old(View()) && r == Raised
      ensures !busy ==> r == if Reaches(old(connected), answers[0]) && HasLength(answers[0], length) then answers[0].call
                             else if Reaches(false, answers[1]) && HasLength(answers[1], length) then answers[1].call
                             else Raised
      ensures !busy ==> (View(), r) == Execute(old(View()), Exact(answers[0], length), Exact(answers[1], length))
    {
      ExecuteAnswers(View(), Exact(answers[0], length), Exact(answers[1], length));
      busy, r := ExecuteCall(name, [Exact(answers[0], length), Exact(answers[1], length)], free);
    }
  }

  predicate HasLength(a: Attempt<seq<bv8>>, length: nat) {
    a.call.Value? && |a.call.v| == length
  }

  /** The read callback: an answer of the wrong length counts as a failed call. */
  function Exact(a: Attempt<seq<bv8>>, length: nat): Attempt<seq<bv8>> {
    if a.call.Value? && |a.call.v| != length then a.(call := Raised) else a
  }
}
