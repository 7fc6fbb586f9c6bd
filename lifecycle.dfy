/** How a night ends: the normal end of the night, the interrupt (SIGINT)
    handler and the fault handler. All three finish by switching off the
    Andor camera, SkyScanner, laser and filter-wheel ports, in that order, and
    leave the cloud-sensor and filter-wheel-control ports as they were. */
module Lifecycle {
  import opened Hardware
  import opened Readings
  import opened Wrappers

  /** The ports switched off at the end of every run, in order. */
  const ShutdownPorts: seq<Port> := [AndorPort, SkyScannerPort, LaserPort, FilterWheelPort]

  /** Switch each of `ports` off, in order. */
  function PowerOffAll(ports: seq<Port>): (r: seq<Cmd>)
    ensures |r| == |ports|
  {
    if |ports| == 0 then [] else PowerOffAll(ports[..|ports| - 1]) + [PowerOff(ports[|ports| - 1])]
  }

  /** The power down that ends every run. */
  const PowerDownSequence: seq<Cmd> := PowerOffAll(ShutdownPorts)

  /** The camera is warm enough to shut down at this temperature (degrees C). */
  const WarmTemperature: real := -20.0

  /** Normal end: home the scanner, park the filter wheel, switch the cooler
      off, poll the temperature until warm (each read is one query), shut the
      camera down, then power down. */
  function NormalTeardown(parkPosition: int, temperatureReads: nat): seq<Cmd>
  {
    [ScannerHome, FilterGo(parkPosition), CoolerOff] + Repeat(ReadTemperature, temperatureReads)
    + [CameraShutDown] + PowerDownSequence
  }

  /** Interrupt handler: as the normal end but without waiting for the
      camera to warm up. */
  function InterruptTeardown(parkPosition: int): seq<Cmd>
  {
    [ScannerHome, FilterGo(parkPosition), CoolerOff, CameraShutDown] + PowerDownSequence
  }

  /** Fault handler: only the power down. */
  function FaultTeardown(): seq<Cmd>
  {
    PowerDownSequence
  }

  /** Whatever was commanded before, and whatever non-power commands come
      between, the power-down sequence leaves the four shutdown ports off and
      every other port as it was. */
  lemma PowerDownLeavesSafe(prefix: seq<Cmd>, middle: seq<Cmd>, port: Port)
    requires NoPowerCommands(middle)
    ensures port in ShutdownPorts ==>
              LastCommanded(prefix + middle + PowerDownSequence, port) == Some(false)
    ensures port !in ShutdownPorts ==>
              LastCommanded(prefix + middle + PowerDownSequence, port) == LastCommanded(prefix, port)
  {
    LastCommandedAppend(prefix + middle, PowerDownSequence, port);
    NoPowerKeepsState(prefix, middle, port);
    PowerDownState(port);
  }

  /** After switching `ports` off, a port is off if it is one of them and
      has never been commanded otherwise. */
  lemma {:induction false} PowerOffAllState(ports: seq<Port>, port: Port)
    ensures LastCommanded(PowerOffAll(ports), port) == if port in ports then Some(false) else None
    decreases |ports|
  {
    if |ports| > 0 {
      var init, last := ports[..|ports| - 1], ports[|ports| - 1];
      PowerOffAllState(init, port);
      var r := PowerOffAll(ports);
      assert r[..|r| - 1] == PowerOffAll(init) && r[|r| - 1] == PowerOff(last);
      assert ports == init + [last];
    }
  }

  /** The power-down sequence on its own commands exactly the shutdown ports, off. */
  lemma PowerDownState(port: Port)
    ensures LastCommanded(PowerDownSequence, port) ==
            if port in ShutdownPorts then Some(false) else None
  {
    PowerOffAllState(ShutdownPorts, port);
  }


  /** The only power commands of a teardown are its last four, and they are
      the power-down sequence. */
  predicate EndsWithPowerDown(t: seq<Cmd>)
  {
    |t| >= 4 && NoPowerCommands(t[..|t| - 4]) && t[|t| - 4..] == PowerDownSequence
  }

  lemma TeardownsEndWithPowerDown(parkPosition: int, temperatureReads: nat)
    ensures EndsWithPowerDown(NormalTeardown(parkPosition, temperatureReads))
    ensures EndsWithPowerDown(InterruptTeardown(parkPosition))
    ensures EndsWithPowerDown(FaultTeardown())
  {
    var n := NormalTeardown(parkPosition, temperatureReads);
    var head := [ScannerHome, FilterGo(parkPosition), CoolerOff] + Repeat(ReadTemperature, temperatureReads)
                + [CameraShutDown];
    assert n == head + PowerDownSequence;
    assert n[..|n| - 4] == head && n[|n| - 4..] == PowerDownSequence;
    var i := InterruptTeardown(parkPosition);
    assert i[..|i| - 4] == [ScannerHome, FilterGo(parkPosition), CoolerOff, CameraShutDown];
  }

  /** On every termination path, from any state of the run: the four
      shutdown ports end off and the other ports keep their state. */
  lemma EveryTeardownLeavesSafe(prefix: seq<Cmd>, t: seq<Cmd>, port: Port)
    requires EndsWithPowerDown(t)
    ensures port in ShutdownPorts ==> LastCommanded(prefix + t, port) == Some(false)
    ensures port !in ShutdownPorts ==> LastCommanded(prefix + t, port) == LastCommanded(prefix, port)
  {
    var middle := t[..|t| - 4];
    assert t == middle + PowerDownSequence;
    assert prefix + t == prefix + middle + PowerDownSequence;
    PowerDownLeavesSafe(prefix, middle, port);
  }

  /** The normal end, from any trace: the four shutdown ports end off and
      every other port keeps its state. */
  lemma NormalTeardownLeavesSafe(prefix: seq<Cmd>, parkPosition: int, temperatureReads: nat)
    ensures forall p :: p in ShutdownPorts ==>
              LastCommanded(prefix + NormalTeardown(parkPosition, temperatureReads), p) == Some(false)
    ensures forall p :: p !in ShutdownPorts ==>
              LastCommanded(prefix + NormalTeardown(parkPosition, temperatureReads), p) == LastCommanded(prefix, p)
  {
    var head := [ScannerHome, FilterGo(parkPosition), CoolerOff] + Repeat(ReadTemperature, temperatureReads)
                + [CameraShutDown];
    assert NoPowerCommands(head);
    assert prefix + NormalTeardown(parkPosition, temperatureReads) == prefix + head + PowerDownSequence;
    forall p {
      PowerDownLeavesSafe(prefix, head, p);
    }
  }

  /** The camera warm-up poll: while the temperature read is below -20 C the
      loop reads it once more for its log line and waits. Returns the number
      of temperature reads; `temperatures` are the supplied readings. */
  method WarmUp(temperatures: seq<real>) returns (readCount: nat)
    requires |temperatures| > 0 && temperatures[|temperatures| - 1] >= WarmTemperature
    ensures readCount % 2 == 1
    ensures ReadingAt(temperatures, readCount - 1) >= WarmTemperature
    ensures forall k :: 0 <= k < readCount - 1 && k % 2 == 0 ==> ReadingAt(temperatures, k) < WarmTemperature
  {
    var temperature := ReadingAt(temperatures, 0);
    readCount := 1;
    while temperature < WarmTemperature
      invariant readCount % 2 == 1
      invariant temperature == ReadingAt(temperatures, readCount - 1)
      invariant temperature < WarmTemperature ==> readCount <= |temperatures|
      invariant forall k :: 0 <= k < readCount - 1 && k % 2 == 0 ==> ReadingAt(temperatures, k) < WarmTemperature
      decreases |temperatures| - readCount
    {
      // the log line reads the temperature a second time
      var logged := ReadingAt(temperatures, readCount);
      temperature := ReadingAt(temperatures, readCount + 1);
      readCount := readCount + 2;
    }
  }
}
