/**
 The Web adapter: after the scan window it stops scanning unconditionally,
 before it looks at the slot, and it writes the data unencoded.
 */
module WebBluetoothAdapter {
  import opened Wrappers
  import opened Ascii
  import opened Transport
  import opened CommunicationAdapter

  /** The one error every failure of `connect` is re-raised as. */
  const FailureMessage: string := "Не удалось подключиться через NativeScript Bluetooth."

  /** The scan window elapsed: `stopScanning` first, always; then either the
      attempt fails, or a transport connect goes to the matched UUID. */
  function WindowElapsed(st: State, a: Attempt): (t: Transition)
    ensures t.state.connectedDevice == st.connectedDevice && t.state.connectionState == st.connectionState
    ensures !a.Scanning? ==> t == Transition(st, a)
    ensures a.Scanning? && a.slot.None? ==>
      && t.state.trace == st.trace + [StopScanning]
      && t.attempt == Settled(a.deviceName, None, Failed(FailureMessage))
    ensures a.Scanning? && a.slot.Some? ==>
      && t.state.trace == st.trace + [StopScanning, ConnectPeripheral(a.slot.value.uuid)]
      && t.attempt == Connecting(a.deviceName, a.slot.value)
  {
    match a
    case Scanning(name, slot) =>
      var stopped := st.(trace := st.trace + [StopScanning]);
      if slot.None? then
        Transition(stopped, Settled(name, None, Failed(FailureMessage)))
      else
        Transition(stopped.(trace := stopped.trace + [ConnectPeripheral(slot.value.uuid)]), Connecting(name, slot.value))
    case _ => Transition(st, a)
  }

  /** The scan or the transport connect rejected: the pending attempt fails
      with the fixed message, whatever the cause. */
  function TransportError(a: Attempt): (r: Attempt)
    ensures !a.Settled? ==> r.Settled? && r.deviceName == a.deviceName && r.outcome == Failed(FailureMessage)
    ensures a.Settled? ==> r == a
  {
    Fail(a, FailureMessage)
  }

  /** The payload on the wire: the string itself. */
  function Payload(data: string): string {
    data
  }

  /** `writeData`: dropped without a device; otherwise exactly one write of the
      raw string to the lift characteristic. */
  function WriteData(st: State, data: string): (r: State)
    ensures r.connectedDevice == st.connectedDevice && r.connectionState == st.connectionState
    ensures st.connectedDevice.None? ==> r == st
    ensures st.connectedDevice.Some? ==>
      r.trace == st.trace + [Write(st.connectedDevice.value.uuid, LiftServiceUuid, LiftCharacteristicUuid, data)]
  {
    WriteValue(st, Payload(data))
  }

  /** The same case-insensitive substring test as the NativeScript adapter;
      a peripheral without a name never matches. */
  lemma MatchIsCaseInsensitiveSubstring(p: Peripheral, deviceName: string)
    ensures Matches(p, deviceName) <==> p.name.Some? && Includes(Lower(p.name.value), Lower(deviceName))
    ensures p.name.None? ==> !Matches(p, deviceName)
  {
    if p.name.Some? {
      IncludesIffOccurs(Lower(p.name.value), Lower(deviceName));
    }
  }
}
