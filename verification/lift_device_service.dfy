/**
 `LiftDeviceService`: the fixed command vocabulary and its wire strings, and the
 delegation of every operation to the communication adapter.
 */
module LiftDeviceService {
  import opened Wrappers
  import opened Hex

  datatype Command = MoveUp | MoveDown | Stop

  /** The `LIFT_COMMANDS` map. */
  function WireString(c: Command): (w: string)
    ensures |w| >= 6 && w[..4] == "CMD_"
    ensures InByteRange(w)
  {
    match c
    case MoveUp => "CMD_UP"
    case MoveDown => "CMD_DOWN"
    case Stop => "CMD_STOP"
  }

  /** The three wire strings are pairwise distinct. */
  lemma WireStringsDistinct(c: Command, d: Command)
    ensures WireString(c) == WireString(d) <==> c == d
  {
  }

  /** On the hex-encoding transport each command still arrives distinguishable:
      its payload decodes back to its wire string. */
  lemma HexPayloadDecodesToCommand(c: Command)
    ensures DecodePairs(StringToHex(WireString(c))) == Some(WireString(c))
    ensures |StringToHex(WireString(c))| == 2 * |WireString(c)|
  {
    StringToHexRoundTrip(WireString(c));
  }

  /** The hex payloads of different commands differ. */
  lemma HexPayloadsDistinct(c: Command, d: Command)
    requires c != d
    ensures StringToHex(WireString(c)) != StringToHex(WireString(d))
  {
    HexPayloadDecodesToCommand(c);
    HexPayloadDecodesToCommand(d);
  }

  /** The service's public operations. */
  datatype Operation = Connect(deviceName: string) | Disconnect | Send(command: Command)

  /** The adapter calls a service operation makes. */
  datatype AdapterCall = AdapterConnect(deviceName: string) | AdapterDisconnect | AdapterWriteData(data: string)

  /** Every operation makes exactly one adapter call, passing its argument on
      unchanged; only the three motion commands write. */
  function Delegate(op: Operation): (calls: seq<AdapterCall>)
    ensures |calls| == 1
    ensures calls[0].AdapterWriteData? <==> op.Send?
    ensures op.Send? ==> calls[0].data == WireString(op.command)
    ensures op.Connect? ==> calls[0] == AdapterConnect(op.deviceName)
    ensures op.Disconnect? ==> calls[0] == AdapterDisconnect
  {
    match op
    case Connect(name) => [AdapterConnect(name)]
    case Disconnect => [AdapterDisconnect]
    case Send(c) => [AdapterWriteData(WireString(c))]
  }
}
