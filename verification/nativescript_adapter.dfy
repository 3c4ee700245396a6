/**
 The NativeScript adapter: after the scan window it stops scanning only when a
 match was found, and it writes the hex encoding of the data.
 */
module NativescriptBluetoothAdapter {
  import opened Wrappers
  import opened Transport
  import opened Hex
  import opened CommunicationAdapter

  /** The one error every failure of `connect` is re-raised as. */
  const FailureMessage: string := "Failed to connect via NativeScript Bluetooth."

  /** The scan window elapsed. No match: the attempt fails and the library is
      not called at all. A match: `stopScanning`, then a transport connect to
      the matched UUID. */
  function WindowElapsed(st: State, a: Attempt): (t: Transition)
    ensures t.state.connectedDevice == st.connectedDevice && t.state.connectionState == st.connectionState
    ensures !a.Scanning? ==> t == Transition(st, a)
    ensures a.Scanning? && a.slot.None? ==>
      t.state == st && t.attempt == Settled(a.deviceName, None, Failed(FailureMessage))
    ensures a.Scanning? && a.slot.Some? ==>
      && t.state.trace == st.trace + [StopScanning, ConnectPeripheral(a.slot.value.uuid)]
      && t.attempt == Connecting(a.deviceName, a.slot.value)
    ensures StopScanning in t.state.trace[|st.trace|..] <==> a.Scanning? && a.slot.Some?
  {
    match a
    case Scanning(name, None) =>
      Transition(st, Settled(name, None, Failed(FailureMessage)))
    case Scanning(name, Some(p)) =>
      var st' := st.(trace := st.trace + [StopScanning, ConnectPeripheral(p.uuid)]);
      assert st'.trace[|st.trace|..] == [StopScanning, ConnectPeripheral(p.uuid)];
      Transition(st', Connecting(name, p))
    case _ =>
      assert st.trace[|st.trace|..] == [];
      Transition(st, a)
  }

  /** The scan or the transport connect rejected: the pending attempt fails
      with the fixed message, whatever the cause. */
  function TransportError(a: Attempt): (r: Attempt)
    ensures !a.Settled? ==> r.Settled? && r.deviceName == a.deviceName && r.outcome == Failed(FailureMessage)
    ensures a.Settled? ==> r == a
  {
    Fail(a, FailureMessage)
  }

  /** The payload on the wire. */
  function Payload(data: string): string {
    StringToHex(data)
  }

  /** `writeData`: dropped without a device; otherwise exactly one write of the
      hex-encoded data to the lift characteristic, which for byte-range
      characters decodes back to the data. */
  function WriteData(st: State, data: string): (r: State)
    ensures r.connectedDevice == st.connectedDevice && r.connectionState == st.connectionState
    ensures st.connectedDevice.None? ==> r == st
    ensures st.connectedDevice.Some? ==>
      r.trace == st.trace + [Write(st.connectedDevice.value.uuid, LiftServiceUuid, LiftCharacteristicUuid, Payload(data))]
    ensures st.connectedDevice.Some? && InByteRange(data) ==>
      DecodePairs(r.trace[|r.trace| - 1].value) == Some(data)
  {
    if InByteRange(data) then
      StringToHexRoundTrip(data);
      WriteValue(st, Payload(data))
    else
      WriteValue(st, Payload(data))
  }

  /** The callbacks handed to the transport connect keep the connection signal
      and the held device in step, from any state. */
  lemma CallbacksKeepSignalInStep(st: State, p: Peripheral)
    ensures Valid(OnConnected(st, p)) && OnConnected(st, p).connectionState
    ensures Valid(OnDisconnected(st)) && !OnDisconnected(st).connectionState
  {
  }
}
