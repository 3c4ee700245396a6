/**
 Concrete runs of the composed system: a successful connection followed by a
 stop command, a scan that finds nothing, and two overlapping connects.
 */
module LiftScenarios {
  import opened Wrappers
  import opened Ascii
  import opened Transport
  import opened Hex
  import Adapter = CommunicationAdapter
  import Service = LiftDeviceService
  import Facade = LiftControlFacade
  import opened LiftSystem

  const Lift: Peripheral := Peripheral("AA:BB:CC:DD:EE:FF", Some("MyLiftDevice"))

  /** "MyLiftDevice" is matched by "Lift" and by "mylift". */
  lemma LiftNameMatches()
    ensures Adapter.Matches(Lift, "Lift") && Adapter.Matches(Lift, "mylift")
  {
    assert Lower("MyLiftDevice") == "myliftdevice";
    assert Lower("Lift") == "lift";
    assert Lower("mylift") == "mylift";
    assert OccursAt("myliftdevice", "lift", 2);
    assert OccursAt("myliftdevice", "mylift", 0);
  }

  lemma TwoDigits(n: nat)
    requires 16 <= n < 256
    ensures ToHex(n) == [DigitChar(n / 16), DigitChar(n % 16)]
  {
  }

  lemma AppendChar(p: string, c: char, hp: string, hc: string)
    requires 16 <= c as int < 256
    requires StringToHex(p) == hp && ToHex(c as int) == hc
    ensures StringToHex(p + [c]) == hp + hc
  {
    StringToHexSnoc(p, c);
  }

  lemma CommandPrefixPayload()
    ensures StringToHex("CMD_") == "434d445f"
  {
    TwoDigits('C' as int);
    assert "" + ['C'] == "C";
    AppendChar("", 'C', "", "43");
    TwoDigits('M' as int);
    assert "C" + ['M'] == "CM";
    AppendChar("C", 'M', "43", "4d");
    TwoDigits('D' as int);
    assert "CM" + ['D'] == "CMD";
    AppendChar("CM", 'D', "434d", "44");
    TwoDigits('_' as int);
    assert "CMD" + ['_'] == "CMD_";
    AppendChar("CMD", '_', "434d44", "5f");
  }

  lemma StopPayloadHalf()
    ensures StringToHex("CMD_ST") == "434d445f5354"
  {
    CommandPrefixPayload();
    TwoDigits('S' as int);
    assert "CMD_" + ['S'] == "CMD_S";
    AppendChar("CMD_", 'S', "434d445f", "53");
    TwoDigits('T' as int);
    assert "CMD_S" + ['T'] == "CMD_ST";
    AppendChar("CMD_S", 'T', "434d445f53", "54");
  }

  /** The NativeScript payload of the stop command. */
  lemma StopPayload()
    ensures StringToHex("CMD_STOP") == "434d445f53544f50"
  {
    StopPayloadHalf();
    TwoDigits('O' as int);
    assert "CMD_ST" + ['O'] == "CMD_STO";
    AppendChar("CMD_ST", 'O', "434d445f5354", "4f");
    TwoDigits('P' as int);
    assert "CMD_STO" + ['P'] == "CMD_STOP";
    AppendChar("CMD_STO", 'P', "434d445f53544f", "50");
  }

  lemma RunSnoc(platform: Platform, events: seq<Event>, e: Event)
    ensures Run(platform, events + [e]) == Step(Run(platform, events), e)
  {
    assert (events + [e])[..|events|] == events;
  }

  /** The system once "MyLiftDevice" has been found and the transport connect issued. */
  lemma {:induction false} FoundAndConnecting(platform: Platform)
    ensures Run(platform, [Request(Service.Connect("Lift")), Discovery(0, Lift), WindowEnd(0)])
         == System(platform,
                   Adapter.State(None, false, [StartScanning(LiftServiceUuid, ScanSeconds), StopScanning, ConnectPeripheral(Lift.uuid)]),
                   [Adapter.Connecting("Lift", Lift)],
                   Facade.Status(true, None))
  {
    LiftNameMatches();
    var e1, e2, e3 := Request(Service.Connect("Lift")), Discovery(0, Lift), WindowEnd(0);
    RunSnoc(platform, [], e1);
    RunSnoc(platform, [e1], e2);
    RunSnoc(platform, [e1, e2], e3);
    assert [] + [e1] == [e1] && [e1] + [e2] == [e1, e2] && [e1, e2] + [e3] == [e1, e2, e3];
    var s1 := Run(platform, [e1]);
    assert s1.attempts == [Adapter.Scanning("Lift", None)];
    var s2 := Run(platform, [e1, e2]);
    assert s2.attempts == [Adapter.Scanning("Lift", Some(Lift))];
    assert s2.link.trace == [StartScanning(LiftServiceUuid, ScanSeconds)];
  }

  /** ... and once the transport connect resolved and `onConnected` fired. */
  lemma {:induction false} FoundAndConnected(platform: Platform)
    ensures Run(platform, [Request(Service.Connect("Lift")), Discovery(0, Lift), WindowEnd(0),
                           TransportConnected(0), PeripheralConnected(0, Lift)])
         == System(platform,
                   Adapter.State(Some(Lift), true, [StartScanning(LiftServiceUuid, ScanSeconds), StopScanning, ConnectPeripheral(Lift.uuid)]),
                   [Adapter.Settled("Lift", Some(Lift), Adapter.Succeeded)],
                   Facade.Status(false, None))
  {
    var e1, e2, e3 := Request(Service.Connect("Lift")), Discovery(0, Lift), WindowEnd(0);
    var e4, e5 := TransportConnected(0), PeripheralConnected(0, Lift);
    FoundAndConnecting(platform);
    RunSnoc(platform, [e1, e2, e3], e4);
    RunSnoc(platform, [e1, e2, e3, e4], e5);
    assert [e1, e2, e3] + [e4] == [e1, e2, e3, e4] && [e1, e2, e3, e4] + [e5] == [e1, e2, e3, e4, e5];
    var s4 := Run(platform, [e1, e2, e3, e4]);
    assert s4.attempts == [Adapter.Settled("Lift", Some(Lift), Adapter.Succeeded)];
    assert s4.facade == Facade.Status(false, None);
  }

  /** Filter "Lift", "MyLiftDevice" discovered inside the window, the transport
      connects, then a stop command: the link reads connected, the facade shows
      neither progress nor error, and exactly one write of "CMD_STOP" went out. */
  lemma {:induction false} ConnectThenStop(platform: Platform)
    ensures var sys := Run(platform, [Request(Service.Connect("Lift")), Discovery(0, Lift), WindowEnd(0),
                                      TransportConnected(0), PeripheralConnected(0, Lift),
                                      Request(Service.Send(Service.Stop))]);
      && IsConnected(sys)
      && sys.facade == Facade.Status(false, None)
      && sys.link.trace == [StartScanning(LiftServiceUuid, ScanSeconds), StopScanning, ConnectPeripheral(Lift.uuid),
                            Write(Lift.uuid, LiftServiceUuid, LiftCharacteristicUuid, Payload(platform, "CMD_STOP"))]
  {
    var e1, e2, e3 := Request(Service.Connect("Lift")), Discovery(0, Lift), WindowEnd(0);
    var e4, e5, e6 := TransportConnected(0), PeripheralConnected(0, Lift), Request(Service.Send(Service.Stop));
    FoundAndConnected(platform);
    RunSnoc(platform, [e1, e2, e3, e4, e5], e6);
    assert [e1, e2, e3, e4, e5] + [e6] == [e1, e2, e3, e4, e5, e6];
    assert Service.Delegate(Service.Send(Service.Stop))[0] == Service.AdapterWriteData("CMD_STOP");
  }

  /** Filter "Lift" and nothing matching before the window ends: the attempt
      fails, the facade shows its error, the link stays disconnected and no
      transport connect is issued. Only the Web adapter stops the scan. */
  lemma {:induction false} NothingFound(platform: Platform)
    ensures var sys := Run(platform, [Request(Service.Connect("Lift")), WindowEnd(0)]);
      && !IsConnected(sys)
      && sys.facade == Facade.Status(false, Some(Facade.ErrorMessage))
      && sys.attempts[0].Settled? && sys.attempts[0].outcome.Failed?
      && (platform == NativeScript ==> sys.link.trace == [StartScanning(LiftServiceUuid, ScanSeconds)])
      && (platform == Web ==> sys.link.trace == [StartScanning(LiftServiceUuid, ScanSeconds), StopScanning])
  {
    var e1, e2 := Request(Service.Connect("Lift")), WindowEnd(0);
    RunSnoc(platform, [], e1);
    RunSnoc(platform, [e1], e2);
    assert [] + [e1] == [e1] && [e1] + [e2] == [e1, e2];
    assert Run(platform, [e1]).attempts == [Adapter.Scanning("Lift", None)];
  }

  /** Two overlapping connects: the first one failing clears `isConnecting`
      although the second is still scanning. */
  lemma {:induction false} OverlappingConnects(platform: Platform)
    ensures var sys := Run(platform, [Request(Service.Connect("a")), Request(Service.Connect("b")), WindowEnd(0)]);
      && !sys.facade.isConnecting
      && |sys.attempts| == 2
      && sys.attempts[1] == Adapter.Scanning("b", None)
  {
    var e1, e2, e3 := Request(Service.Connect("a")), Request(Service.Connect("b")), WindowEnd(0);
    RunSnoc(platform, [], e1);
    RunSnoc(platform, [e1], e2);
    RunSnoc(platform, [e1, e2], e3);
    assert [] + [e1] == [e1] && [e1] + [e2] == [e1, e2] && [e1, e2] + [e3] == [e1, e2, e3];
    assert Run(platform, [e1, e2]).attempts == [Adapter.Scanning("a", None), Adapter.Scanning("b", None)];
  }
}
