# Lift link: a Dafny model of the lift-control device core

This project models the device-communication core of the EPS lift app: the
Bluetooth LE link that finds the lift's controller by name, connects to it,
keeps one boolean connection signal, and sends the three motion commands.

What is modelled, in the system's own terms:

- **The two `CommunicationAdapter` implementations** (NativeScript and Web).
  The adapter state is `connectedDevice` plus the current value of
  `_connectionState$`. Every call the adapter makes on the BLE library is
  appended to a transport-call trace (`startScanning`, `stopScanning`,
  `connect`, `disconnect`, `write`). Every rxjs or zone callback is one atomic
  transition. Each `connect` call creates a connect attempt of its own: scanning
  with its own discovery slot, then connecting, then settled. This holds because
  each call creates its own `discoveredDevice$` subject, so attempts can overlap.
  Behaviour shared by both adapters is in `CommunicationAdapter`. The two
  differences are in `NativescriptBluetoothAdapter` and `WebBluetoothAdapter`:
  - when `stopScanning` is issued (the Web adapter always issues it; the NativeScript adapter only on a match);
  - the write payload (hex for NativeScript, the raw string for Web);
  - the one failure message.
- **Name matching**: `peripheral.name?.toLowerCase().includes(deviceName.toLowerCase())`.
  Lower-casing is ASCII only, and `includes` is proved equal to "occurs at some index".
- **`stringToHex`**: each UTF-16 code unit is rendered with `toString(16)`, in
  lowercase and without zero padding. For codes in [16, 255] it round-trips.
  It is not injective in general.
- **`LiftDeviceService`**: the `LIFT_COMMANDS` map, and the one adapter call
  that each operation makes.
- **`LiftControlFacade`**: the `isConnecting` / `connectionError` status.
- **`LiftSystem`**: the composition, driven by events. It proves invariants of
  every reachable state:
  - the signal agrees with the held device;
  - every write is a command write to the lift characteristic;
  - the link reads connected only after a transport connect;
  - while the facade shows "connecting", the latest attempt is still pending.

Points where the code may surprise a reader, and which the model keeps as written:

- **the last** matching discovery wins (`BehaviorSubject.next` overwrites the slot);
- overlapping connects are never rejected;
- every failure becomes one generic error, with no separate "not found" or "connection failed" kinds;
- hex digits are not zero-padded.

`LiftScenarios.OverlappingConnects` shows one result of this. When the first of
two overlapping attempts fails, `isConnecting` is cleared while the second
attempt is still scanning.

## Model

| member | source | states |
|---|---|---|
| Ascii.Lower | mobile-nativescript/src/adapters/nativescript-bluetooth.adapter.ts:31 | `toLowerCase` keeps the length, maps each character on its own, and leaves no ASCII capital behind |
| Ascii.IncludesIffOccurs | mobile-nativescript/src/adapters/nativescript-bluetooth.adapter.ts:31 | `includes` answers true exactly when the needle occurs as a contiguous run at some index (both directions) |
| CommunicationAdapter.Matches | mobile-nativescript/src/adapters/nativescript-bluetooth.adapter.ts:31 | a peripheral matches iff it has a name and the lowercased filter occurs in the lowercased name; a nameless peripheral never matches |
| CommunicationAdapter.MatchesIgnoresCase | mobile-nativescript/src/adapters/nativescript-bluetooth.adapter.ts:31 | names and filters that lowercase alike give the same match verdict |
| CommunicationAdapter.Init | mobile-nativescript/src/adapters/nativescript-bluetooth.adapter.ts:15-17 | a new adapter is disconnected, holds no device, has called nothing, and satisfies signal == device held |
| CommunicationAdapter.Connect | mobile-nativescript/src/adapters/nativescript-bluetooth.adapter.ts:22-35 | `connect` issues one `startScanning` for the lift service for 5 seconds and starts a scan with an empty slot; it leaves the device and the signal untouched |
| CommunicationAdapter.Discover | mobile-nativescript/src/adapters/nativescript-bluetooth.adapter.ts:29-34 | a matching discovery overwrites the slot of a scanning attempt; any other discovery, or a discovery after scanning, changes nothing |
| CommunicationAdapter.LastMatchWins | mobile-nativescript/src/adapters/nativescript-bluetooth.adapter.ts:31-32 | after any run of discoveries the slot holds the most recent match, and is unchanged if nothing matched |
| CommunicationAdapter.ConnectResolved | mobile-nativescript/src/adapters/nativescript-bluetooth.adapter.ts:47-69 | when the transport connect resolves, the attempt settles successfully and remembers the peripheral it connected to; no other attempt phase reacts |
| CommunicationAdapter.Fail | mobile-nativescript/src/adapters/nativescript-bluetooth.adapter.ts:70-73 | any failure of a pending attempt settles it with the one given message, keeping whether a connect was requested; a settled attempt is final |
| CommunicationAdapter.OnConnected | mobile-nativescript/src/adapters/nativescript-bluetooth.adapter.ts:51-57 | from any state, the connected callback holds `p`, sets the signal, keeps it in step with the device, and calls nothing |
| CommunicationAdapter.OnDisconnected | mobile-nativescript/src/adapters/nativescript-bluetooth.adapter.ts:58-64 | from any state, the disconnected callback drops the device, clears the signal, keeps them in step, and calls nothing |
| CommunicationAdapter.Disconnect | mobile-nativescript/src/adapters/nativescript-bluetooth.adapter.ts:77-81 | without a device nothing happens; with one, exactly one transport disconnect for its UUID; local state is never changed |
| CommunicationAdapter.WriteValue | mobile-nativescript/src/adapters/nativescript-bluetooth.adapter.ts:84-97 | the write guard: nothing without a device; otherwise exactly one write to the held device on the fixed service and characteristic |
| NativescriptBluetoothAdapter.WindowElapsed | mobile-nativescript/src/adapters/nativescript-bluetooth.adapter.ts:38-45 | no match: the attempt fails with the fixed error and no library call at all; match: `stopScanning` then `connect` to the match; `stopScanning` is issued iff a match exists |
| NativescriptBluetoothAdapter.TransportError | mobile-nativescript/src/adapters/nativescript-bluetooth.adapter.ts:70-73 | every failure of a pending attempt surfaces as the one NativeScript error message |
| NativescriptBluetoothAdapter.WriteData | mobile-nativescript/src/adapters/nativescript-bluetooth.adapter.ts:83-102 | no write without a device; with one, exactly one write whose value is `stringToHex(data)`, which decodes back to the data for byte-range characters |
| NativescriptBluetoothAdapter.CallbacksKeepSignalInStep | mobile-nativescript/src/adapters/nativescript-bluetooth.adapter.ts:51-64 | both connection callbacks establish signal == device held, from any state |
| Hex.ToHex | mobile-nativescript/src/adapters/nativescript-bluetooth.adapter.ts:107 | `toString(16)` yields lowercase digits with no leading zero; one digit iff the code is below 16, two iff it is in [16, 255] |
| Hex.ToHexValue | mobile-nativescript/src/adapters/nativescript-bluetooth.adapter.ts:107 | the hex numeral reads back as the number it renders |
| Hex.CodeUnits | mobile-nativescript/src/adapters/nativescript-bluetooth.adapter.ts:106-107 | `charCodeAt` sees the code itself as one 16-bit unit for a character in the Basic Multilingual Plane, and two units above it |
| Hex.SurrogatePair | mobile-nativescript/src/adapters/nativescript-bluetooth.adapter.ts:106-107 | above the Basic Multilingual Plane the two units are a high surrogate then a low surrogate, and they recombine to the character's code |
| Hex.StringToHexLoop | mobile-nativescript/src/adapters/nativescript-bluetooth.adapter.ts:104-110 | the loop over code units builds the concatenated encoding, made only of hex digits |
| Hex.StringToHexRoundTrip | mobile-nativescript/src/adapters/nativescript-bluetooth.adapter.ts:104-110 | for codes in [16, 255] the encoding is twice as long as the input and decodes back to it |
| Hex.StringToHexNotInjective | mobile-nativescript/src/adapters/nativescript-bluetooth.adapter.ts:104-110 | without padding, two different strings encode alike (codes 1,2 and code 18 both give "12") |
| WebBluetoothAdapter.WindowElapsed | web/src/app/adapters/web-bluetooth.adapter.ts:37-45 | `stopScanning` comes first, always; no match: fail with the fixed error and no transport connect; match: one `connect` to the match |
| WebBluetoothAdapter.TransportError | web/src/app/adapters/web-bluetooth.adapter.ts:54-57 | every failure of a pending attempt surfaces as the one Web error message |
| WebBluetoothAdapter.WriteData | web/src/app/adapters/web-bluetooth.adapter.ts:67-82 | no write without a device; with one, exactly one write carrying the raw, unencoded string |
| WebBluetoothAdapter.MatchIsCaseInsensitiveSubstring | web/src/app/adapters/web-bluetooth.adapter.ts:31-32 | the Web match is the same lowercase `includes` test; a nameless peripheral never matches |
| LiftDeviceService.WireString | libs/core-logic/src/lib/services/lift-device.service.ts:7-11 | every wire string starts with "CMD_" and uses only codes in [16, 255] |
| LiftDeviceService.WireStringsDistinct | libs/core-logic/src/lib/services/lift-device.service.ts:7-11 | the three wire strings are pairwise distinct |
| LiftDeviceService.HexPayloadDecodesToCommand | libs/core-logic/src/lib/services/lift-device.service.ts:7-11 | each command's hex payload is twice its length and decodes back to its wire string |
| LiftDeviceService.HexPayloadsDistinct | libs/core-logic/src/lib/services/lift-device.service.ts:7-11 | different commands produce different hex payloads |
| LiftDeviceService.Delegate | libs/core-logic/src/lib/services/lift-device.service.ts:24-45 | every operation makes exactly one adapter call with its argument unchanged; only the motion commands write, each its own wire string |
| LiftControlFacade.Init | libs/core-logic/src/lib/state/lift-control.facade.ts:11-12 | initially not connecting and no error |
| LiftControlFacade.ConnectStarted | libs/core-logic/src/lib/state/lift-control.facade.ts:35-37 | starting a connect sets connecting and clears the error, from any status |
| LiftControlFacade.Finish | libs/core-logic/src/lib/state/lift-control.facade.ts:39-49 | settling clears connecting either way; a failure is swallowed into `false` with the fixed message; a success emits `true` and leaves the error as it was |
| LiftControlFacade.SingleAttemptError | libs/core-logic/src/lib/state/lift-control.facade.ts:35-49 | for one attempt, the error is absent afterwards iff the attempt succeeded |
| LiftSystem.Observe | libs/core-logic/src/lib/state/lift-control.facade.ts:39-49 | the facade reacts only when an attempt settles: `finalize` clears connecting, a failure shows the facade's fixed message whatever the adapter said, a success keeps the error; every other attempt step leaves the status alone |
| LiftSystem.Perform | libs/core-logic/src/lib/state/lift-control.facade.ts:23-54 | a facade intent through the service to the adapter: connect starts a fresh scan and sets connecting with no error; disconnect and the motion intents keep the status and attempts, add at most one transport disconnect or one command write for the held device, and never touch the device or the signal |
| LiftSystem.PlatformPayloads | mobile-nativescript/src/adapters/nativescript-bluetooth.adapter.ts:89-96 | the NativeScript adapter writes the hex encoding of the string the Web adapter writes raw: different, twice as long, and decoding back to it |
| LiftSystem.RunInv | mobile-nativescript/src/adapters/nativescript-bluetooth.adapter.ts:51-64 | every reachable system keeps signal == device held, only command writes, connected only via a registered attempt, and connecting only with the latest attempt pending |
| LiftSystem.NoWriteWhileDisconnected | mobile-nativescript/src/adapters/nativescript-bluetooth.adapter.ts:83-87 | in a reachable state that reads disconnected, no event adds a write to the transport trace |
| LiftSystem.SendWhileConnected | libs/core-logic/src/lib/state/lift-control.facade.ts:23-33 | on a connected link a motion intent adds exactly one write to the held device, carrying that command's payload, and changes nothing else |
| LiftSystem.IsConnectedIffDeviceHeld | libs/core-logic/src/lib/state/lift-control.facade.ts:19-21 | `isConnected$` reads true exactly when the adapter holds a device, in every reachable state |
| LiftSystem.ConnectedOnlyAfterTransportConnect | mobile-nativescript/src/adapters/nativescript-bluetooth.adapter.ts:47-64 | the link reads connected only after a transport `connect` was issued |
| LiftSystem.OnlyCommandWrites | mobile-nativescript/src/adapters/nativescript-bluetooth.adapter.ts:91-97 | every write ever issued targets the lift service and characteristic and carries one of the three command payloads |
| LiftSystem.ConnectNeverRejected | libs/core-logic/src/lib/state/lift-control.facade.ts:35-50 | a connect from any state starts a fresh attempt, sets connecting with no error, and leaves the connection signal alone |
| LiftSystem.DisconnectRequest | libs/core-logic/src/lib/state/lift-control.facade.ts:52-54 | the facade's disconnect keeps its status and the signal; at most one transport disconnect for the held device |
| LiftSystem.ConnectingMeansLatestPending | libs/core-logic/src/lib/state/lift-control.facade.ts:35-49 | while the facade shows connecting, the most recent attempt has not settled |
| LiftScenarios.LiftNameMatches | mobile-nativescript/src/adapters/nativescript-bluetooth.adapter.ts:31 | "MyLiftDevice" is matched by "Lift" and by "mylift" |
| LiftScenarios.StopPayload | mobile-nativescript/src/adapters/nativescript-bluetooth.adapter.ts:104-110 | "CMD_STOP" encodes as "434d445f53544f50" |
| LiftScenarios.ConnectThenStop | libs/core-logic/src/lib/services/lift-device.service.ts:42-45 | discover, connect, then stop: connected, no error, and the trace ends in one write of the stop payload |
| LiftScenarios.NothingFound | libs/core-logic/src/lib/state/lift-control.facade.ts:43-48 | no match: the facade shows its error, the link stays disconnected, no transport connect; only the Web adapter stops the scan |
| LiftScenarios.OverlappingConnects | libs/core-logic/src/lib/state/lift-control.facade.ts:35-49 | when the first of two overlapping attempts fails, connecting is cleared while the second is still scanning |

## Left out

- Timing: the 5000 ms and 5100 ms timers, and the Promise/Observable chaining, become one abstract "window elapsed" event per attempt. The scan's `seconds: 5` is kept only as an argument in the trace.
- `NgZone.run` marshalling: each callback is one atomic transition.
- The BLE library (`@nativescript-community/ble`): its calls are only recorded in the trace. Its answers arrive as events: a rejected promise, a resolved connect, and the two connection callbacks. The connection callbacks are accepted only for attempts that issued a transport connect. The peripheral passed to `onConnected` is taken as the library gives it.
- The result of a transport `write` or `disconnect` promise. The write result is only logged. The disconnect result is ignored: its `subscribe()` has no handlers. Neither affects the state.
- Logging (`console.*`) and the text of the intermediate "not found" error. That error is only logged before it is replaced by the generic one.
- Observable subscriber mechanics (replay to late subscribers, emission history). The connection signal is modelled as its current value, and `connectionState$` as reading it.
- CommunicationAdapter.Matches: lower-cases ASCII letters only. Unicode case mapping of `toLowerCase` is out of scope.
- The UI component (`home.component.ts`), dependency-injection wiring and routes, including the Web configuration's import of a class name the Web adapter file does not define. The platform is a parameter of the composed system instead.
- The abstract `CommunicationAdapter` class: it is only a signature. Its operations appear as the service's `AdapterCall` datatype, and its two implementations are selected by `LiftSystem.Platform`.
