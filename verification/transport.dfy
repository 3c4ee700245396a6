/**
 The BLE library as the adapters see it: a peripheral record, the fixed
 service/characteristic pair of the lift, and the calls the adapters make.
 The library itself is not modelled; each call it receives is recorded, in
 order, in a trace kept by the adapter state.
 */
module Transport {
  import opened Wrappers

  const LiftServiceUuid: string := "0000ffe0-0000-1000-8000-00805f9b34fb"
  const LiftCharacteristicUuid: string := "0000ffe1-0000-1000-8000-00805f9b34fb"

  /** The `seconds` argument of every scan. */
  const ScanSeconds: nat := 5

  /** A discovered peripheral: its UUID and its advertised name, which may be absent. */
  datatype Peripheral = Peripheral(uuid: string, name: Option<string>)

  datatype TransportCall =
    | StartScanning(serviceUuid: string, seconds: nat)
    | StopScanning
    | ConnectPeripheral(uuid: string)
    | DisconnectPeripheral(uuid: string)
    | Write(peripheralUuid: string, serviceUuid: string, characteristicUuid: string, value: string)
}
