/**
 The `CommunicationAdapter` contract and the behaviour both of its
 implementations share. The two adapter classes are near copies; what differs
 between them (when `stopScanning` is issued, the write payload and the
 failure message) lives in the NativescriptBluetoothAdapter and
 WebBluetoothAdapter modules.

 Every rxjs callback is one atomic transition. A connect attempt is a value of
 its own (each `connect` call creates its own `discoveredDevice$` subject), so
 any number of attempts can be in flight at once.
 */
module CommunicationAdapter {
  import opened Wrappers
  import opened Ascii
  import opened Transport

  /** `connectedDevice`, the current value of `_connectionState$`, and every
      call the adapter has made on the BLE library so far. */
  datatype State = State(connectedDevice: Option<Peripheral>, connectionState: bool, trace: seq<TransportCall>)

  /** The connection signal says "connected" exactly when a device is held. */
  ghost predicate Valid(st: State) {
    st.connectionState == st.connectedDevice.Some?
  }

  function Init(): (st: State)
    ensures Valid(st)
    ensures !st.connectionState && st.connectedDevice.None? && st.trace == []
  {
    State(None, false, [])
  }

  /** How the Observable returned by `connect` ended: it emitted `true`, or it errored. */
  datatype Outcome = Succeeded | Failed(message: string)

  /** One connect attempt: scanning with its discovery slot; connecting to the
      chosen peripheral; or settled, remembering whether a transport connect was
      issued (and so whether the connection callbacks were registered). */
  datatype Attempt =
    | Scanning(deviceName: string, slot: Option<Peripheral>)
    | Connecting(deviceName: string, target: Peripheral)
    | Settled(deviceName: string, requested: Option<Peripheral>, outcome: Outcome)

  /** The attempt handed `onConnected`/`onDisconnected` to the library. */
  predicate Registered(a: Attempt) {
    a.Connecting? || (a.Settled? && a.requested.Some?)
  }

  datatype Transition = Transition(state: State, attempt: Attempt)

  /** `peripheral.name?.toLowerCase().includes(deviceName.toLowerCase())`. */
  function Matches(p: Peripheral, deviceName: string): (r: bool)
    ensures r <==> p.name.Some? && exists i :: OccursAt(Lower(p.name.value), Lower(deviceName), i)
  {
    if p.name.None? then false
    else
      IncludesIffOccurs(Lower(p.name.value), Lower(deviceName));
      Includes(Lower(p.name.value), Lower(deviceName))
  }

  /** Matching ignores the case of ASCII letters on both sides. */
  lemma MatchesIgnoresCase(p: Peripheral, q: Peripheral, deviceName: string, other: string)
    requires p.name.Some? && q.name.Some? && Lower(p.name.value) == Lower(q.name.value)
    requires Lower(deviceName) == Lower(other)
    ensures Matches(p, deviceName) == Matches(q, other)
  {
  }

  /** `connect`: starts a scan for the lift service with an empty discovery slot.
      Nothing is checked first: neither a held connection nor another attempt in
      flight stops a new one. */
  function Connect(st: State, deviceName: string): (t: Transition)
    ensures t.attempt == Scanning(deviceName, None)
    ensures t.state.connectedDevice == st.connectedDevice
    ensures t.state.connectionState == st.connectionState
    ensures t.state.trace == st.trace + [StartScanning(LiftServiceUuid, ScanSeconds)]
  {
    Transition(st.(trace := st.trace + [StartScanning(LiftServiceUuid, ScanSeconds)]), Scanning(deviceName, None))
  }

  /** `onDiscovered`: a matching peripheral overwrites the slot (`next` on the
      subject); anything else, and any discovery once scanning is over, changes
      nothing. */
  function Discover(a: Attempt, p: Peripheral): (r: Attempt)
    ensures a.Scanning? && Matches(p, a.deviceName) ==> r == a.(slot := Some(p))
    ensures !(a.Scanning? && Matches(p, a.deviceName)) ==> r == a
  {
    if a.Scanning? && Matches(p, a.deviceName) then a.(slot := Some(p)) else a
  }

  /** A sequence of discoveries, in arrival order. */
  function DiscoverAll(a: Attempt, ps: seq<Peripheral>): Attempt {
    if ps == [] then a else Discover(DiscoverAll(a, ps[..|ps| - 1]), ps[|ps| - 1])
  }

  /** The last match wins: after a run of discoveries the slot holds the most
      recent matching peripheral, or is as before if none matched. */
  lemma {:induction false} LastMatchWins(a: Attempt, ps: seq<Peripheral>)
    requires a.Scanning?
    ensures DiscoverAll(a, ps).Scanning? && DiscoverAll(a, ps).deviceName == a.deviceName
    ensures (forall i :: 0 <= i < |ps| ==> !Matches(ps[i], a.deviceName)) ==> DiscoverAll(a, ps) == a
    ensures forall i :: 0 <= i < |ps| && Matches(ps[i], a.deviceName)
                        && (forall j :: i < j < |ps| ==> !Matches(ps[j], a.deviceName))
                        ==> DiscoverAll(a, ps).slot == Some(ps[i])
  {
    if ps != [] {
      var init := ps[..|ps| - 1];
      LastMatchWins(a, init);
      forall i | 0 <= i < |ps| && Matches(ps[i], a.deviceName)
                 && (forall j :: i < j < |ps| ==> !Matches(ps[j], a.deviceName))
        ensures DiscoverAll(a, ps).slot == Some(ps[i])
      {
        if i < |ps| - 1 {
          assert init[i] == ps[i];
          assert forall j :: i < j < |init| ==> init[j] == ps[j];
        }
      }
      if forall i :: 0 <= i < |ps| ==> !Matches(ps[i], a.deviceName) {
        assert forall i :: 0 <= i < |init| ==> init[i] == ps[i];
      }
    }
  }

  /** The transport `connect` promise resolved: the Observable emits `true`. */
  function ConnectResolved(a: Attempt): (r: Attempt)
    ensures a.Connecting? ==> r == Settled(a.deviceName, Some(a.target), Succeeded)
    ensures !a.Connecting? ==> r == a
  {
    if a.Connecting? then Settled(a.deviceName, Some(a.target), Succeeded) else a
  }

  /** `catchError`: whatever went wrong in a pending attempt, it ends with the
      one given message; a settled attempt is past its pipeline. */
  function Fail(a: Attempt, message: string): (r: Attempt)
    ensures !a.Settled? ==> r.Settled? && r.outcome == Failed(message) && r.deviceName == a.deviceName
    ensures a.Scanning? ==> r.requested.None?
    ensures a.Connecting? ==> r.requested == Some(a.target)
    ensures a.Settled? ==> r == a
  {
    match a
    case Scanning(name, _) => Settled(name, None, Failed(message))
    case Connecting(name, target) => Settled(name, Some(target), Failed(message))
    case Settled(_, _, _) => a
  }

  /** The `onConnected(p)` callback: hold `p` and emit `true`. Whatever came
      before, the result keeps the signal and the device in step. */
  function OnConnected(st: State, p: Peripheral): (r: State)
    ensures Valid(r)
    ensures r.connectionState && r.connectedDevice == Some(p)
    ensures r.trace == st.trace
  {
    st.(connectedDevice := Some(p), connectionState := true)
  }

  /** The `onDisconnected()` callback: drop the device and emit `false`. */
  function OnDisconnected(st: State): (r: State)
    ensures Valid(r)
    ensures !r.connectionState && r.connectedDevice.None?
    ensures r.trace == st.trace
  {
    st.(connectedDevice := None, connectionState := false)
  }

  /** `disconnect()`: asks the library to disconnect the held device, and only
      that; the local state waits for the `onDisconnected` callback. Without a
      device it does nothing at all. */
  function Disconnect(st: State): (r: State)
    ensures r.connectedDevice == st.connectedDevice && r.connectionState == st.connectionState
    ensures st.connectedDevice.None? ==> r == st
    ensures st.connectedDevice.Some? ==> r.trace == st.trace + [DisconnectPeripheral(st.connectedDevice.value.uuid)]
  {
    match st.connectedDevice
    case None => st
    case Some(device) => st.(trace := st.trace + [DisconnectPeripheral(device.uuid)])
  }

  /** The guarded write both `writeData` bodies perform, given the payload each
      one computes: nothing without a device, else one write to the lift's
      characteristic on the held device. */
  function WriteValue(st: State, value: string): (r: State)
    ensures r.connectedDevice == st.connectedDevice && r.connectionState == st.connectionState
    ensures st.connectedDevice.None? ==> r == st
    ensures st.connectedDevice.Some? ==>
      r.trace == st.trace + [Write(st.connectedDevice.value.uuid, LiftServiceUuid, LiftCharacteristicUuid, value)]
  {
    match st.connectedDevice
    case None => st
    case Some(device) => st.(trace := st.trace + [Write(device.uuid, LiftServiceUuid, LiftCharacteristicUuid, value)])
  }
}
