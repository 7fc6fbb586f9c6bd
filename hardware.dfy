/** The instrument's devices seen from the controller: every call into a
    driver becomes one command appended to a trace. */
module Hardware {
  import opened Wrappers

  /** The ports of the network power relay. */
  datatype Port =
    | AndorPort
    | SkyScannerPort
    | LaserPort
    | FilterWheelPort
    | CloudSensorPort
    | FilterWheelControlPort

  /** The network devices whose address is found from their MAC address. */
  datatype Device = SkyAlertDevice | FilterWheelDevice

  /** One command sent to a device, or one query made of it. */
  datatype Cmd =
    | PowerOn(port: Port)
    | PowerOff(port: Port)
    | LookUpMac(device: Device)
    | ScannerHome
    | ScannerMove(azimuth: real, zenith: real)
    | FilterHome
    | FilterGo(position: int)
    | CameraSetReadMode
    | CameraSetImage(hbin: int, vbin: int)
    | CameraSetShiftSpeed
    | CameraSetTemperature(setpoint: real)
    | CoolerOn
    | CoolerOff
    | ReadTemperature
    | CameraShutDown
    | BiasImage(exposure: real)
    | DarkImage(exposure: real)
    | LaserImage(exposure: real)
    | SkyImage(tag: string, exposure: real)

  predicate IsPowerCommand(c: Cmd) {
    c.PowerOn? || c.PowerOff?
  }

  /** No command of `s` switches any relay port. */
  predicate NoPowerCommands(s: seq<Cmd>) {
    forall k :: 0 <= k < |s| ==> !IsPowerCommand(s[k])
  }

  /** No command of `s` switches `port`. */
  predicate Untouched(s: seq<Cmd>, port: Port) {
    forall k :: 0 <= k < |s| ==> s[k] != PowerOn(port) && s[k] != PowerOff(port)
  }

  /** `n` copies of the command `c`. */
  function Repeat(c: Cmd, n: nat): (s: seq<Cmd>)
    ensures |s| == n
    ensures forall k :: 0 <= k < n ==> s[k] == c
  {
    if n == 0 then [] else Repeat(c, n - 1) + [c]
  }

  /** The state last commanded to `port` in the trace (true for on), or None
      when the trace never switches it. The relay keeps the last commanded
      state, so this is the port's state after the trace. */
  function LastCommanded(trace: seq<Cmd>, port: Port): Option<bool>
  {
    if |trace| == 0 then None
    else if trace[|trace| - 1] == PowerOn(port) then Some(true)
    else if trace[|trace| - 1] == PowerOff(port) then Some(false)
    else LastCommanded(trace[..|trace| - 1], port)
  }

  /** Commands that never switch `port` leave its state as it was. */
  lemma {:induction false} UntouchedKeepsState(a: seq<Cmd>, b: seq<Cmd>, port: Port)
    requires Untouched(b, port)
    ensures LastCommanded(a + b, port) == LastCommanded(a, port)
    decreases |b|
  {
    if |b| == 0 {
      assert a + b == a;
    } else {
      var b' := b[..|b| - 1];
      assert (a + b)[..|a + b| - 1] == a + b';
      assert (a + b)[|a + b| - 1] == b[|b| - 1];
      UntouchedKeepsState(a, b', port);
    }
  }

  /** A trace extended by `b`: the port ends in the state `b` last commands,
      or as before when `b` does not switch it. */
  lemma {:induction false} LastCommandedAppend(a: seq<Cmd>, b: seq<Cmd>, port: Port)
    ensures LastCommanded(a + b, port) ==
            if LastCommanded(b, port).Some? then LastCommanded(b, port) else LastCommanded(a, port)
    decreases |b|
  {
    if |b| == 0 {
      assert a + b == a;
    } else {
      var b' := b[..|b| - 1];
      assert (a + b)[..|a + b| - 1] == a + b';
      assert (a + b)[|a + b| - 1] == b[|b| - 1];
      LastCommandedAppend(a, b', port);
    }
  }

  /** Without power commands, no port changes state. */
  lemma NoPowerKeepsState(a: seq<Cmd>, b: seq<Cmd>, port: Port)
    requires NoPowerCommands(b)
    ensures LastCommanded(a + b, port) == LastCommanded(a, port)
  {
    assert Untouched(b, port);
    UntouchedKeepsState(a, b, port);
  }

  lemma NoPowerConcat(a: seq<Cmd>, b: seq<Cmd>)
    requires NoPowerCommands(a) && NoPowerCommands(b)
    ensures NoPowerCommands(a + b)
  {
    forall k | 0 <= k < |a + b|
      ensures !IsPowerCommand((a + b)[k])
    {
      if k < |a| { assert (a + b)[k] == a[k]; } else { assert (a + b)[k] == b[k - |a|]; }
    }
  }
}
