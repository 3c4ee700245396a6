/**
 The whole link as one state machine: the facade's status, the service's
 delegation, one adapter (chosen by platform, as dependency injection does),
 and every connect attempt made so far. Each event is one atomic step: a UI
 request, or a callback from the BLE library about one attempt.
 */
module LiftSystem {
  import opened Wrappers
  import opened Transport
  import Adapter = CommunicationAdapter
  import NativeScriptAdapter = NativescriptBluetoothAdapter
  import WebAdapter = WebBluetoothAdapter
  import Service = LiftDeviceService
  import Hex
  import Facade = LiftControlFacade

  datatype Platform = NativeScript | Web

  datatype System = System(
    platform: Platform,
    link: Adapter.State,
    attempts: seq<Adapter.Attempt>,
    facade: Facade.Status)

  datatype Event =
    | Request(op: Service.Operation)
    | Discovery(attempt: nat, peripheral: Peripheral)
    | WindowEnd(attempt: nat)
    | TransportFailure(attempt: nat)
    | TransportConnected(attempt: nat)
    | PeripheralConnected(attempt: nat, peripheral: Peripheral)
    | PeripheralDisconnected(attempt: nat)

  function Payload(platform: Platform, data: string): string {
    match platform
    case NativeScript => NativeScriptAdapter.Payload(data)
    case Web => WebAdapter.Payload(data)
  }

  /** The same command reaches the two transports in different forms: the
      NativeScript payload is the hex encoding of the Web one, twice as long,
      and decodes back to it. */
  lemma PlatformPayloads(c: Service.Command)
    ensures Payload(NativeScript, Service.WireString(c)) != Payload(Web, Service.WireString(c))
    ensures |Payload(NativeScript, Service.WireString(c))| == 2 * |Payload(Web, Service.WireString(c))|
    ensures Hex.DecodePairs(Payload(NativeScript, Service.WireString(c))) == Some(Payload(Web, Service.WireString(c)))
  {
    Service.HexPayloadDecodesToCommand(c);
  }

  function WindowElapsedOn(platform: Platform, st: Adapter.State, a: Adapter.Attempt): Adapter.Transition {
    match platform
    case NativeScript => NativeScriptAdapter.WindowElapsed(st, a)
    case Web => WebAdapter.WindowElapsed(st, a)
  }

  function TransportErrorOn(platform: Platform, a: Adapter.Attempt): Adapter.Attempt {
    match platform
    case NativeScript => NativeScriptAdapter.TransportError(a)
    case Web => WebAdapter.TransportError(a)
  }

  function WriteDataOn(platform: Platform, st: Adapter.State, data: string): Adapter.State {
    match platform
    case NativeScript => NativeScriptAdapter.WriteData(st, data)
    case Web => WebAdapter.WriteData(st, data)
  }

  function Init(platform: Platform): System {
    System(platform, Adapter.Init(), [], Facade.Init())
  }

  /** The facade's subscription sees an attempt settle at most once. When it
      does, `finalize` clears `isConnecting`, and a failure shows the facade's own
      fixed message whatever the adapter's message was. Any other step of the
      attempt leaves the status alone. */
  function Observe(s: Facade.Status, before: Adapter.Attempt, after: Adapter.Attempt): (r: Facade.Status)
    ensures before.Settled? || !after.Settled? ==> r == s
    ensures !before.Settled? && after.Settled? ==> !r.isConnecting
    ensures !before.Settled? && after.Settled? && after.outcome.Failed? ==>
      r.connectionError == Some(Facade.ErrorMessage)
    ensures !before.Settled? && after.Settled? && after.outcome.Succeeded? ==>
      r.connectionError == s.connectionError
  {
    if !before.Settled? && after.Settled? then Facade.Finish(s, after.outcome).status else s
  }

  /** A facade intent: the facade's own bookkeeping, then the one adapter call
      the service makes for it. */
  function Perform(sys: System, op: Service.Operation): (r: System)
    ensures r.platform == sys.platform
    ensures r.link.connectedDevice == sys.link.connectedDevice
    ensures r.link.connectionState == sys.link.connectionState
    ensures op.Connect? ==>
      && r.attempts == sys.attempts + [Adapter.Scanning(op.deviceName, None)]
      && r.facade == Facade.Status(true, None)
      && r.link.trace == sys.link.trace + [StartScanning(LiftServiceUuid, ScanSeconds)]
    ensures !op.Connect? ==> r.attempts == sys.attempts && r.facade == sys.facade
    ensures op.Disconnect? ==>
      r.link.trace == sys.link.trace +
        (if sys.link.connectedDevice.Some? then [DisconnectPeripheral(sys.link.connectedDevice.value.uuid)] else [])
    ensures op.Send? ==>
      r.link.trace == sys.link.trace +
        (if sys.link.connectedDevice.Some?
         then [Write(sys.link.connectedDevice.value.uuid, LiftServiceUuid, LiftCharacteristicUuid,
                     Payload(sys.platform, Service.WireString(op.command)))]
         else [])
  {
    match Service.Delegate(op)[0]
    case AdapterConnect(name) =>
      var t := Adapter.Connect(sys.link, name);
      sys.(link := t.state, attempts := sys.attempts + [t.attempt], facade := Facade.ConnectStarted(sys.facade))
    case AdapterDisconnect =>
      sys.(link := Adapter.Disconnect(sys.link))
    case AdapterWriteData(data) =>
      sys.(link := WriteDataOn(sys.platform, sys.link, data))
  }

  function Update(sys: System, i: nat, t: Adapter.Transition): System
    requires i < |sys.attempts|
  {
    sys.(link := t.state,
         attempts := sys.attempts[i := t.attempt],
         facade := Observe(sys.facade, sys.attempts[i], t.attempt))
  }

  /** One event. An event about an attempt that does not exist, or a
      connection callback for an attempt that never registered one, is ignored. */
  function Step(sys: System, e: Event): System {
    match e
    case Request(op) => Perform(sys, op)
    case Discovery(i, p) =>
      if i < |sys.attempts| then Update(sys, i, Adapter.Transition(sys.link, Adapter.Discover(sys.attempts[i], p))) else sys
    case WindowEnd(i) =>
      if i < |sys.attempts| then Update(sys, i, WindowElapsedOn(sys.platform, sys.link, sys.attempts[i])) else sys
    case TransportFailure(i) =>
      if i < |sys.attempts| then Update(sys, i, Adapter.Transition(sys.link, TransportErrorOn(sys.platform, sys.attempts[i]))) else sys
    case TransportConnected(i) =>
      if i < |sys.attempts| then Update(sys, i, Adapter.Transition(sys.link, Adapter.ConnectResolved(sys.attempts[i]))) else sys
    case PeripheralConnected(i, p) =>
      if i < |sys.attempts| && Adapter.Registered(sys.attempts[i]) then sys.(link := Adapter.OnConnected(sys.link, p)) else sys
    case PeripheralDisconnected(i) =>
      if i < |sys.attempts| && Adapter.Registered(sys.attempts[i]) then sys.(link := Adapter.OnDisconnected(sys.link)) else sys
  }

  /** The system after a sequence of events from a freshly constructed one. */
  function Run(platform: Platform, events: seq<Event>): System {
    if events == [] then Init(platform) else Step(Run(platform, events[..|events| - 1]), events[|events| - 1])
  }

  /** `isConnected$`: the facade hands out the service's `connectionState$`,
      which is the adapter's. */
  function IsConnected(sys: System): bool {
    sys.link.connectionState
  }

  /** A write the adapter may legitimately have issued: to the lift
      characteristic, carrying the payload of one of the three commands. */
  predicate IsCommandWrite(platform: Platform, c: TransportCall) {
    && c.Write?
    && c.serviceUuid == LiftServiceUuid
    && c.characteristicUuid == LiftCharacteristicUuid
    && (|| c.value == Payload(platform, Service.WireString(Service.MoveUp))
        || c.value == Payload(platform, Service.WireString(Service.MoveDown))
        || c.value == Payload(platform, Service.WireString(Service.Stop)))
  }

  function RequestedUuid(a: Adapter.Attempt): string
    requires Adapter.Registered(a)
  {
    if a.Connecting? then a.target.uuid else a.requested.value.uuid
  }

  /** What holds in every reachable system. */
  ghost predicate Inv(sys: System) {
    && Adapter.Valid(sys.link)
    && (forall c :: c in sys.link.trace && c.Write? ==> IsCommandWrite(sys.platform, c))
    && (forall a :: a in sys.attempts && Adapter.Registered(a) ==> ConnectPeripheral(RequestedUuid(a)) in sys.link.trace)
    && (sys.link.connectionState ==> exists a :: a in sys.attempts && Adapter.Registered(a))
    && (sys.facade.isConnecting ==> |sys.attempts| > 0 && !sys.attempts[|sys.attempts| - 1].Settled?)
    && (sys.facade.connectionError.Some? ==>
          && sys.facade.connectionError == Some(Facade.ErrorMessage)
          && exists a :: a in sys.attempts && a.Settled? && a.outcome.Failed?)
  }

  lemma InitInv(platform: Platform)
    ensures Inv(Init(platform))
  {
  }

  /** Every event only appends to the transport trace. */
  lemma StepExtendsTrace(sys: System, e: Event)
    ensures sys.link.trace <= Step(sys, e).link.trace
    ensures Step(sys, e).platform == sys.platform
  {
    match e
    case WindowEnd(i) =>
      if i < |sys.attempts| {
        WindowElapsedMoves(sys.platform, sys.link, sys.attempts[i]);
      }
    case Request(op) =>
      if op.Send? {
        assert Service.Delegate(op)[0] == Service.AdapterWriteData(Service.WireString(op.command));
      }
    case _ =>
  }

  lemma StepInv(sys: System, e: Event)
    requires Inv(sys)
    ensures Inv(Step(sys, e))
  {
    match e
    case Request(op) =>
      PerformInv(sys, op);
    case Discovery(i, p) =>
      if i < |sys.attempts| {
        DiscoverMoves(sys.link, sys.attempts[i], p);
        AttemptUpdateInv(sys, i, Adapter.Transition(sys.link, Adapter.Discover(sys.attempts[i], p)));
      }
    case WindowEnd(i) =>
      if i < |sys.attempts| {
        WindowElapsedMoves(sys.platform, sys.link, sys.attempts[i]);
        AttemptUpdateInv(sys, i, WindowElapsedOn(sys.platform, sys.link, sys.attempts[i]));
      }
    case TransportFailure(i) =>
      if i < |sys.attempts| {
        TransportErrorMoves(sys.platform, sys.link, sys.attempts[i]);
        AttemptUpdateInv(sys, i, Adapter.Transition(sys.link, TransportErrorOn(sys.platform, sys.attempts[i])));
      }
    case TransportConnected(i) =>
      if i < |sys.attempts| {
        ConnectResolvedMoves(sys.link, sys.attempts[i]);
        AttemptUpdateInv(sys, i, Adapter.Transition(sys.link, Adapter.ConnectResolved(sys.attempts[i])));
      }
    case PeripheralConnected(i, p) =>
      if i < |sys.attempts| && Adapter.Registered(sys.attempts[i]) {
        assert sys.attempts[i] in sys.attempts;
      }
    case PeripheralDisconnected(i) =>
  }

  lemma PerformInv(sys: System, op: Service.Operation)
    requires Inv(sys)
    ensures Inv(Perform(sys, op))
  {
    match op
    case Connect(name) => ConnectRequestInv(sys, name);
    case Disconnect => DisconnectRequestInv(sys);
    case Send(command) => SendRequestInv(sys, command);
  }

  lemma ConnectRequestInv(sys: System, name: string)
    requires Inv(sys)
    ensures Inv(Perform(sys, Service.Connect(name)))
  {
    assert Perform(sys, Service.Connect(name)) == ScanStarted(sys, name);
    ScanStartedInv(sys, name);
  }

  /** The system right after the facade's `connect`: one more attempt, scanning. */
  function ScanStarted(sys: System, name: string): System {
    sys.(link := sys.link.(trace := sys.link.trace + [StartScanning(LiftServiceUuid, ScanSeconds)]),
         attempts := sys.attempts + [Adapter.Scanning(name, None)],
         facade := Facade.Status(true, None))
  }

  lemma ScanStartedInv(sys: System, name: string)
    requires Inv(sys)
    ensures Inv(ScanStarted(sys, name))
  {
    var next := ScanStarted(sys, name);
    assert forall a :: a in sys.attempts ==> a in next.attempts;
    assert forall c :: c in next.link.trace && c.Write? ==> c in sys.link.trace;
    assert forall c :: c in sys.link.trace ==> c in next.link.trace;
  }

  lemma DisconnectRequestInv(sys: System)
    requires Inv(sys)
    ensures Inv(Perform(sys, Service.Disconnect))
  {
    var next := Perform(sys, Service.Disconnect);
    assert next.attempts == sys.attempts && next.facade == sys.facade;
    assert forall c :: c in next.link.trace && c.Write? ==> c in sys.link.trace;
    assert forall c :: c in sys.link.trace ==> c in next.link.trace;
  }

  lemma SendRequestInv(sys: System, command: Service.Command)
    requires Inv(sys)
    ensures Inv(Perform(sys, Service.Send(command)))
  {
    var next := Perform(sys, Service.Send(command));
    if sys.link.connectedDevice.Some? {
      var w := Write(sys.link.connectedDevice.value.uuid, LiftServiceUuid, LiftCharacteristicUuid,
                     Payload(sys.platform, Service.WireString(command)));
      assert next == sys.(link := sys.link.(trace := sys.link.trace + [w]));
      CommandWriteInv(sys, w);
    } else {
      assert next == sys;
    }
  }

  /** Appending one command write keeps the invariant. */
  lemma CommandWriteInv(sys: System, w: TransportCall)
    requires Inv(sys)
    requires IsCommandWrite(sys.platform, w)
    ensures Inv(sys.(link := sys.link.(trace := sys.link.trace + [w])))
  {
    var next := sys.(link := sys.link.(trace := sys.link.trace + [w]));
    forall c | c in next.link.trace && c.Write?
      ensures IsCommandWrite(sys.platform, c)
    {
      if c != w {
        assert c in sys.link.trace;
      }
    }
    forall a | a in next.attempts && Adapter.Registered(a)
      ensures ConnectPeripheral(RequestedUuid(a)) in next.link.trace
    {
      assert ConnectPeripheral(RequestedUuid(a)) in sys.link.trace;
    }
  }

  /** The transitions an attempt can make, as the facade and the invariant see them. */
  ghost predicate AttemptMove(st: Adapter.State, before: Adapter.Attempt, t: Adapter.Transition) {
    && st.trace <= t.state.trace
    && t.state.connectedDevice == st.connectedDevice
    && t.state.connectionState == st.connectionState
    && (forall k :: |st.trace| <= k < |t.state.trace| ==> !t.state.trace[k].Write?)
    && (Adapter.Registered(before) ==> Adapter.Registered(t.attempt) && RequestedUuid(t.attempt) == RequestedUuid(before))
    && (Adapter.Registered(t.attempt) && !Adapter.Registered(before) ==> ConnectPeripheral(RequestedUuid(t.attempt)) in t.state.trace)
    && (before.Settled? ==> t.attempt == before)
  }

  lemma DiscoverMoves(st: Adapter.State, a: Adapter.Attempt, p: Peripheral)
    ensures AttemptMove(st, a, Adapter.Transition(st, Adapter.Discover(a, p)))
  {
  }

  lemma WindowElapsedMoves(platform: Platform, st: Adapter.State, a: Adapter.Attempt)
    ensures AttemptMove(st, a, WindowElapsedOn(platform, st, a))
  {
    var t := WindowElapsedOn(platform, st, a);
    if a.Scanning? && a.slot.Some? {
      assert t.state.trace[|t.state.trace| - 1] == ConnectPeripheral(a.slot.value.uuid);
    }
  }

  lemma TransportErrorMoves(platform: Platform, st: Adapter.State, a: Adapter.Attempt)
    ensures AttemptMove(st, a, Adapter.Transition(st, TransportErrorOn(platform, a)))
  {
  }

  lemma ConnectResolvedMoves(st: Adapter.State, a: Adapter.Attempt)
    ensures AttemptMove(st, a, Adapter.Transition(st, Adapter.ConnectResolved(a)))
  {
  }

  lemma AttemptUpdateInv(sys: System, i: nat, t: Adapter.Transition)
    requires Inv(sys) && i < |sys.attempts|
    requires AttemptMove(sys.link, sys.attempts[i], t)
    ensures Inv(Update(sys, i, t))
  {
    var next := Update(sys, i, t);
    var before := sys.attempts[i];
    assert forall c :: c in sys.link.trace ==> c in next.link.trace;
    forall c | c in next.link.trace && c.Write?
      ensures IsCommandWrite(sys.platform, c)
    {
      var k :| 0 <= k < |next.link.trace| && next.link.trace[k] == c;
      assert k < |sys.link.trace|;
      assert c in sys.link.trace;
    }
    forall a | a in next.attempts && Adapter.Registered(a)
      ensures ConnectPeripheral(RequestedUuid(a)) in next.link.trace
    {
      var k :| 0 <= k < |next.attempts| && next.attempts[k] == a;
      if k != i {
        assert sys.attempts[k] in sys.attempts;
      } else if Adapter.Registered(before) {
        assert before in sys.attempts;
      }
    }
    if next.link.connectionState {
      var a :| a in sys.attempts && Adapter.Registered(a);
      var k :| 0 <= k < |sys.attempts| && sys.attempts[k] == a;
      assert next.attempts[k] in next.attempts;
    }
    if next.facade.connectionError.Some? {
      if !before.Settled? && t.attempt.Settled? && t.attempt.outcome.Failed? {
        assert next.attempts[i] in next.attempts;
      } else {
        var a :| a in sys.attempts && a.Settled? && a.outcome.Failed?;
        var k :| 0 <= k < |sys.attempts| && sys.attempts[k] == a;
        assert next.attempts[k] in next.attempts;
      }
    }
  }

  /** Every reachable system satisfies the invariant. */
  lemma {:induction false} RunInv(platform: Platform, events: seq<Event>)
    ensures Inv(Run(platform, events))
  {
    if events == [] {
      InitInv(platform);
    } else {
      RunInv(platform, events[..|events| - 1]);
      StepInv(Run(platform, events[..|events| - 1]), events[|events| - 1]);
    }
  }

  /** No write reaches the transport while the link reads disconnected,
      whatever the event. */
  lemma {:induction false} NoWriteWhileDisconnected(platform: Platform, events: seq<Event>, e: Event)
    requires !IsConnected(Run(platform, events))
    ensures Run(platform, events).link.trace <= Run(platform, events + [e]).link.trace
    ensures forall k :: |Run(platform, events).link.trace| <= k < |Run(platform, events + [e]).link.trace|
                        ==> !Run(platform, events + [e]).link.trace[k].Write?
  {
    var sys := Run(platform, events);
    assert (events + [e])[..|events|] == events;
    RunInv(platform, events);
    StepExtendsTrace(sys, e);
    var next := Step(sys, e);
    match e
    case Request(op) =>
      assert next.link.trace == sys.link.trace || (op.Connect? && next.link.trace == sys.link.trace + [StartScanning(LiftServiceUuid, ScanSeconds)]);
    case WindowEnd(i) =>
      if i < |sys.attempts| {
        WindowElapsedMoves(platform, sys.link, sys.attempts[i]);
      }
    case _ =>
  }

  /** A motion intent on a connected link puts exactly one write on the
      transport: to the held device, on the lift characteristic, carrying the
      platform's payload for that command; nothing else changes. */
  lemma {:induction false} SendWhileConnected(platform: Platform, events: seq<Event>, c: Service.Command)
    requires IsConnected(Run(platform, events))
    ensures var sys := Run(platform, events);
      && sys.link.connectedDevice.Some?
      && Step(sys, Request(Service.Send(c))) ==
         sys.(link := sys.link.(trace := sys.link.trace +
           [Write(sys.link.connectedDevice.value.uuid, LiftServiceUuid, LiftCharacteristicUuid,
                  Payload(platform, Service.WireString(c)))]))
  {
    var sys := Run(platform, events);
    RunInv(platform, events);
    RunKeepsPlatform(platform, events);
    assert Adapter.Valid(sys.link);
    assert Service.Delegate(Service.Send(c))[0] == Service.AdapterWriteData(Service.WireString(c));
    assert Perform(sys, Service.Send(c)) == sys.(link := WriteDataOn(platform, sys.link, Service.WireString(c)));
  }

  /** `isConnected$` reads true exactly when the adapter holds a device. */
  lemma {:induction false} IsConnectedIffDeviceHeld(platform: Platform, events: seq<Event>)
    ensures IsConnected(Run(platform, events)) <==> Run(platform, events).link.connectedDevice.Some?
  {
    RunInv(platform, events);
  }

  /** The link only ever reads connected after the adapter asked the transport
      to connect. */
  lemma {:induction false} ConnectedOnlyAfterTransportConnect(platform: Platform, events: seq<Event>)
    requires IsConnected(Run(platform, events))
    ensures exists uuid :: ConnectPeripheral(uuid) in Run(platform, events).link.trace
  {
    var sys := Run(platform, events);
    RunInv(platform, events);
    var a :| a in sys.attempts && Adapter.Registered(a);
    assert ConnectPeripheral(RequestedUuid(a)) in sys.link.trace;
  }

  /** Every write ever issued went to the lift characteristic with the payload of
      one of the three commands. */
  lemma {:induction false} OnlyCommandWrites(platform: Platform, events: seq<Event>)
    ensures forall c :: c in Run(platform, events).link.trace && c.Write? ==> IsCommandWrite(platform, c)
  {
    RunInv(platform, events);
    RunKeepsPlatform(platform, events);
  }

  lemma {:induction false} RunKeepsPlatform(platform: Platform, events: seq<Event>)
    ensures Run(platform, events).platform == platform
  {
    if events != [] {
      RunKeepsPlatform(platform, events[..|events| - 1]);
      StepExtendsTrace(Run(platform, events[..|events| - 1]), events[|events| - 1]);
    }
  }

  /** The facade's `connect` is never refused: from any state, connected or with
      other attempts in flight, it marks the facade connecting with no error and
      starts a fresh scan; the connection signal is untouched. */
  lemma ConnectNeverRejected(sys: System, name: string)
    ensures var next := Step(sys, Request(Service.Connect(name)));
      && next.attempts == sys.attempts + [Adapter.Scanning(name, None)]
      && next.facade == Facade.Status(true, None)
      && next.link.connectedDevice == sys.link.connectedDevice
      && next.link.connectionState == sys.link.connectionState
      && next.link.trace == sys.link.trace + [StartScanning(LiftServiceUuid, ScanSeconds)]
  {
  }

  /** The facade's `disconnect`: status and connection signal untouched; at most
      one transport disconnect, for the held device. */
  lemma DisconnectRequest(sys: System)
    ensures var next := Step(sys, Request(Service.Disconnect));
      && next.facade == sys.facade
      && next.attempts == sys.attempts
      && next.link.connectionState == sys.link.connectionState
      && next.link.connectedDevice == sys.link.connectedDevice
      && (sys.link.connectedDevice.None? ==> next == sys)
      && (sys.link.connectedDevice.Some? ==>
            next.link.trace == sys.link.trace + [DisconnectPeripheral(sys.link.connectedDevice.value.uuid)])
  {
  }

  /** While connecting, the most recent attempt is still pending. */
  lemma {:induction false} ConnectingMeansLatestPending(platform: Platform, events: seq<Event>)
    requires Run(platform, events).facade.isConnecting
    ensures var sys := Run(platform, events);
      |sys.attempts| > 0 && !sys.attempts[|sys.attempts| - 1].Settled?
  {
    RunInv(platform, events);
  }
}
