/** The nightly observation controller: power up, find the network devices,
    set up the camera, take the initial calibration images, run the
    observation plan until sunrise, and shut down. Device calls are commands
    appended to `trace`; the clock, the moon angle, the image intensity, the
    MAC lookups and the camera temperature are supplied readings. */
module Scheduler {
  import opened Wrappers
  import opened Hardware
  import opened Readings
  import opened Plan
  import Calibration
  import Discovery
  import Lifecycle

  /** Initial calibration images are taken only up to ten minutes after sunset. */
  const GraceWindow: int := 10 * 60

  /** The configuration the controller reads; times in seconds. */
  datatype Config = Config(
    moonThresholdAngle: real,
    maxExposureTime: real,
    laserInterval: Option<int>,           // None when no laser calibration interval is set
    laserAzimuth: real,
    laserZenith: real,
    laserFilterPosition: Option<int>,     // None when the laser position is not an integer
    laserExposure: real,
    biasExposure: real,
    darkExposure: real,
    parkPosition: int,
    hbin: int,
    vbin: int,
    temperatureSetpoint: real,
    filterWheelSerialPort: Option<string>, // None when no filter wheel is in use
    skyAlertAddress: string,               // configured address, kept when discovery fails
    filterWheelAddress: string)

  /** The supplied readings of the outside world. */
  datatype Environment = Environment(
    clock: seq<int>,                       // successive wall-clock readings
    moonAngleAt: nat -> real,              // the k-th moon-angle query
    intensityAt: nat -> real,              // intensity metric of the k-th sky image
    skyAlertLookups: seq<Option<string>>,  // successive MAC lookups of the SkyAlert
    filterWheelLookups: seq<Option<string>>,
    temperatures: seq<real>)               // successive camera temperature reads

  datatype FilterWheelLink = SerialLink(port: string) | NetworkLink(address: string)

  /** The serial port is used only when discovery fell back to it and a port
      is configured; otherwise the network address. */
  function ChooseLink(serial: bool, serialPort: Option<string>, address: string): (link: FilterWheelLink)
    ensures link.SerialLink? <==> serial && serialPort.Some?
    ensures link.SerialLink? ==> link.port == serialPort.value
    ensures link.NetworkLink? ==> link.address == address
  {
    if serial && serialPort.Some? then SerialLink(serialPort.value) else NetworkLink(address)
  }

  /** Switch on the camera, scanner, laser and filter wheel, then power
      cycle the cloud sensor. */
  const PowerUpSequence: seq<Cmd> :=
    [PowerOn(AndorPort), PowerOn(SkyScannerPort), PowerOn(LaserPort), PowerOn(FilterWheelPort),
     PowerOff(CloudSensorPort), PowerOn(CloudSensorPort)]

  function HousekeepingSequence(c: Config): seq<Cmd>
  {
    [ScannerHome, FilterHome, CameraSetReadMode, CameraSetImage(c.hbin, c.vbin), CameraSetShiftSpeed,
     CameraSetTemperature(c.temperatureSetpoint), CoolerOn]
  }

  /** Point at the laser, move the filter wheel when its laser position is
      an integer, take the laser image. */
  function LaserSequence(c: Config): seq<Cmd>
  {
    [ScannerMove(c.laserAzimuth, c.laserZenith)]
    + (if c.laserFilterPosition.Some? then [FilterGo(c.laserFilterPosition.value)] else [])
    + [LaserImage(c.laserExposure)]
  }

  function InitialImages(c: Config): seq<Cmd>
  {
    [BiasImage(c.biasExposure), DarkImage(c.darkExposure)] + LaserSequence(c)
  }

  /** Point at the entry, move its filter, take its sky image. */
  function ExposureSequence(o: Observation, exposureTime: real): seq<Cmd>
  {
    [ScannerMove(o.azimuth, o.zenith), FilterGo(o.filterPosition), SkyImage(o.imageTag, exposureTime)]
  }

  lemma SetupCommandsNoPower(c: Config)
    ensures NoPowerCommands(HousekeepingSequence(c))
    ensures NoPowerCommands(InitialImages(c))
  {
  }

  lemma EntryCommandsNoPower(c: Config, o: Observation, t: real, due: bool)
    ensures NoPowerCommands(ExposureSequence(o, t) + (if due then LaserSequence(c) else []))
  {
  }

  /** The number of lookups discovery makes for the SkyAlert and the filter wheel. */
  function SkyAlertLookups(e: Environment): nat
  {
    Discovery.LookupsUntilFound(e.skyAlertLookups, 0, Discovery.SkyAlertLookupLimit)
  }

  function FilterWheelLookups(e: Environment): nat
  {
    Discovery.LookupsUntilFound(e.filterWheelLookups, 0, Discovery.FilterWheelLookupLimit)
  }

  /** The SkyAlert address after discovery: the URL of the address the last
      lookup found, or the configured address when every lookup failed. */
  function DiscoveredSkyAlert(configured: string, e: Environment): string
  {
    var ip := Discovery.LookupAt(e.skyAlertLookups, SkyAlertLookups(e) - 1);
    if ip.Some? then Discovery.SkyAlertUrl(ip.value) else configured
  }

  /** The filter-wheel address after discovery: the URL of the address the
      last lookup found when a filter wheel is in use, or the configured one. */
  function DiscoveredFilterWheel(configured: string, c: Config, e: Environment): string
  {
    var m := FilterWheelLookups(e);
    var ip := Discovery.LookupAt(e.filterWheelLookups, m - 1);
    if c.filterWheelSerialPort.Some? && ip.Some? then Discovery.FilterWheelUrl(ip.value, m == 1) else configured
  }

  /** Discovery falls back to the serial port: a filter wheel is in use and
      every lookup of it failed. */
  predicate SerialFallback(c: Config, e: Environment)
  {
    c.filterWheelSerialPort.Some? &&
    forall k :: 0 <= k < Discovery.FilterWheelLookupLimit ==> Discovery.LookupAt(e.filterWheelLookups, k).None?
  }

  /** The lookups of discovery and, when a filter wheel is in use, the
      filter wheel's lookups and power cycle. */
  function DiscoveryCommands(c: Config, e: Environment): seq<Cmd>
  {
    Repeat(LookUpMac(SkyAlertDevice), SkyAlertLookups(e))
    + (if c.filterWheelSerialPort.Some? then Discovery.FilterWheelEvents(FilterWheelLookups(e)) else [])
  }

  /** Everything sent before sunset: power up, discovery, housekeeping. */
  function StartupCommands(c: Config, e: Environment): seq<Cmd>
  {
    PowerUpSequence + DiscoveryCommands(c, e) + HousekeepingSequence(c)
  }

  /** The visit exposed its entry: the moon angle it queried was above the threshold. */
  predicate Exposed(c: Config, e: Environment, v: Visit)
  {
    e.moonAngleAt(v.moonRead) > c.moonThresholdAngle
  }

  /** The visit took a laser image: it exposed its entry and strictly more
      than the interval had passed at the clock reading after the log line. */
  predicate LaserTaken(c: Config, e: Environment, v: Visit)
    requires |e.clock| > 0 && c.laserInterval.Some?
  {
    Exposed(c, e, v) && Calibration.LaserDue(ReadingAt(e.clock, v.at + 2), v.laserBefore, c.laserInterval.value)
  }

  /** What the visit did, given its readings: a skipped entry sends nothing
      and it and the laser time and image count stay as they were; an
      exposed one is pointed at, exposed for the feedback-law time, records
      that time and the measured intensity, and is followed by a laser image,
      which resets the laser time from a fresh reading, when one is due. */
  ghost predicate Visited(c: Config, e: Environment, v: Visit)
    requires |e.clock| > 0 && c.laserInterval.Some?
  {
    v.reading == ReadingAt(e.clock, v.at) &&
    v.finish == v.at + (if !Exposed(c, e, v) then 1 else if LaserTaken(c, e, v) then 4 else 3) &&
    v.imagesAfter == (if Exposed(c, e, v) then v.imageRead + 1 else v.imageRead) &&
    v.laserAfter == (if LaserTaken(c, e, v) then ReadingAt(e.clock, v.at + 3) else v.laserBefore) &&
    if !Exposed(c, e, v) then
      v.commands == [] && v.after == v.before
    else
      var t := NextExposure(v.before, c.maxExposureTime);
      v.commands == ExposureSequence(v.before, t) + (if LaserTaken(c, e, v) then LaserSequence(c) else []) &&
      v.after == RecordFeedback(v.before, t, e.intensityAt(v.imageRead))
  }

  /** A pass over a plan of `n` entries begun on the clock reading at `c0`:
      each entry is begun on the reading right after the visit before it,
      and the pass is cut short exactly when that reading is at or after
      sunrise. */
  ghost predicate PassChecks(e: Environment, sunrise: int, n: nat, pass: seq<Visit>, c0: nat)
    requires |e.clock| > 0
  {
    Chained(pass, c0) && (|pass| < n ==> ReadingAt(e.clock, NextRead(pass, c0)) >= sunrise)
  }

  /** Every visit did what `Visited` says. */
  ghost predicate AllVisited(c: Config, e: Environment, vs: seq<Visit>)
    requires |e.clock| > 0 && c.laserInterval.Some?
    decreases |vs|
  {
    |vs| == 0 || (AllVisited(c, e, vs[..|vs| - 1]) && Visited(c, e, vs[|vs| - 1]))
  }

  lemma {:induction false} AllVisitedAt(c: Config, e: Environment, vs: seq<Visit>, k: nat)
    requires |e.clock| > 0 && c.laserInterval.Some?
    requires AllVisited(c, e, vs) && k < |vs|
    ensures Visited(c, e, vs[k])
    decreases |vs|
  {
    if k < |vs| - 1 {
      AllVisitedAt(c, e, vs[..|vs| - 1], k);
    }
  }

  lemma {:induction false} AllVisitedAppend(c: Config, e: Environment, s: seq<Visit>, p: seq<Visit>)
    requires |e.clock| > 0 && c.laserInterval.Some?
    requires AllVisited(c, e, s) && AllVisited(c, e, p)
    ensures AllVisited(c, e, s + p)
    decreases |p|
  {
    if |p| == 0 {
      assert s + p == s;
    } else {
      var p' := p[..|p| - 1];
      assert (s + p)[..|s + p| - 1] == s + p';
      assert (s + p)[|s + p| - 1] == p[|p| - 1];
      AllVisitedAppend(c, e, s, p');
    }
  }

  /** A pass of the night loop begun on the reading right after the check
      at `s`: entries 0, 1, 2, ... of the plan as it stood, each visit as
      `Visited` says and each on a reading before sunrise, one after the
      other with consecutive moon, image and laser readings; cut short
      exactly by a reading at or after sunrise. */
  ghost predicate PassDone(c: Config, e: Environment, sunrise: int, pass: seq<Visit>, s: Loop)
    requires |e.clock| > 0 && c.laserInterval.Some?
  {
    PassLog(pass, sunrise, s.check + 1, AfterPass(pass, s).check, s.plan) && AllVisited(c, e, pass) &&
    Consecutive(pass, s.laser, s.images, s.moon) && PassChecks(e, sunrise, |s.plan|, pass, s.check + 1) &&
    s.check < AfterPass(pass, s).check
  }

  /** The passes of the night loop from its first check at `s0`: each pass
      done right after a check that read at most sunrise, each check right
      after the pass before it. */
  ghost predicate NightRuns(c: Config, e: Environment, sunrise: int, passes: seq<seq<Visit>>, s0: Loop)
    requires |e.clock| > 0 && c.laserInterval.Some?
    decreases |passes|
  {
    |passes| == 0 ||
    (var init := passes[..|passes| - 1];
     NightRuns(c, e, sunrise, init, s0) &&
     ReadingAt(e.clock, NightState(init, s0).check) <= sunrise &&
     PassDone(c, e, sunrise, passes[|passes| - 1], NightState(init, s0)))
  }

  /** A further pass, done right after a check that read at most sunrise,
      extends the night; the loop then stands where the pass left it. */
  lemma NightRunsSnoc(c: Config, e: Environment, sunrise: int, passes: seq<seq<Visit>>, pass: seq<Visit>,
                      s0: Loop)
    requires |e.clock| > 0 && c.laserInterval.Some?
    requires NightRuns(c, e, sunrise, passes, s0)
    requires ReadingAt(e.clock, NightState(passes, s0).check) <= sunrise
    requires PassDone(c, e, sunrise, pass, NightState(passes, s0))
    ensures NightRuns(c, e, sunrise, passes + [pass], s0)
    ensures NightState(passes + [pass], s0) == AfterPass(pass, NightState(passes, s0))
    ensures Flatten(Concat(passes + [pass])) == Flatten(Concat(passes)) + Flatten(pass)
  {
    assert (passes + [pass])[..|passes|] == passes;
    FlattenAppend(Concat(passes), pass);
  }

  /** Every visit of the night did what `Visited` says. */
  lemma {:induction false} NightAllVisited(c: Config, e: Environment, sunrise: int, passes: seq<seq<Visit>>, s0: Loop)
    requires |e.clock| > 0 && c.laserInterval.Some?
    requires NightRuns(c, e, sunrise, passes, s0)
    ensures AllVisited(c, e, Concat(passes))
    decreases |passes|
  {
    if |passes| > 0 {
      var init := passes[..|passes| - 1];
      NightAllVisited(c, e, sunrise, init, s0);
      AllVisitedAppend(c, e, Concat(init), passes[|passes| - 1]);
    }
  }

  /** The night's visits, in order, made consecutive moon-angle queries and
      used the image count and laser time each visit before left; the loop
      stands at the counts and the laser time the last one left. */
  lemma {:induction false} NightCounters(c: Config, e: Environment, sunrise: int, passes: seq<seq<Visit>>, s0: Loop)
    requires |e.clock| > 0 && c.laserInterval.Some?
    requires NightRuns(c, e, sunrise, passes, s0)
    ensures Consecutive(Concat(passes), s0.laser, s0.images, s0.moon)
    ensures NightState(passes, s0).moon == s0.moon + |Concat(passes)|
    ensures NightState(passes, s0).images == ImagesEnd(Concat(passes), s0.images)
    ensures NightState(passes, s0).laser == LaserEnd(Concat(passes), s0.laser)
    decreases |passes|
  {
    if |passes| > 0 {
      var init, pass := passes[..|passes| - 1], passes[|passes| - 1];
      var s := NightState(init, s0);
      NightCounters(c, e, sunrise, init, s0);
      var vs := Concat(init);
      if |vs| > 0 && |pass| > 0 {
        NightClock(c, e, sunrise, init, s0);
        assert vs[|vs| - 1].at < s.check < pass[0].at;
      }
      ConsecutiveAppend(vs, pass, s0.laser, s0.images, s0.moon, s.laser, s.images, s.moon);
    }
  }

  /** Every visit of the night was begun on a reading before sunrise, after
      the first check and before the last one, and kept its entry's target;
      the checks move forward. */
  lemma {:induction false} NightClock(c: Config, e: Environment, sunrise: int, passes: seq<seq<Visit>>, s0: Loop)
    requires |e.clock| > 0 && c.laserInterval.Some?
    requires NightRuns(c, e, sunrise, passes, s0)
    ensures s0.check <= NightState(passes, s0).check
    ensures NightLog(Concat(passes), sunrise, s0.check + 1, NightState(passes, s0).check)
    decreases |passes|
  {
    if |passes| > 0 {
      var init := passes[..|passes| - 1];
      var s := NightState(init, s0);
      NightClock(c, e, sunrise, init, s0);
      NightLogLater(Concat(init), sunrise, s0.check + 1, s.check, s.check + 1);
      NightLogAppend(Concat(init), passes[|passes| - 1], sunrise, s0.check + 1, s.check + 1,
                     NightState(passes, s0).check);
    }
  }

  /** The night's visits form passes from entry 0 in plan order, each visit
      began from its entry as the visits before it left it, and the plan is
      as the last visit to each entry left it. */
  lemma {:induction false} NightPlan(c: Config, e: Environment, sunrise: int, passes: seq<seq<Visit>>, s0: Loop)
    requires |e.clock| > 0 && c.laserInterval.Some?
    requires NightRuns(c, e, sunrise, passes, s0)
    ensures PassesFromFirst(Concat(passes), |s0.plan|)
    ensures BeforesFollow(Concat(passes), s0.plan)
    ensures NightState(passes, s0).plan == NightResult(s0.plan, Concat(passes))
    decreases |passes|
  {
    if |passes| > 0 {
      var init, pass := passes[..|passes| - 1], passes[|passes| - 1];
      var vs, mid := Concat(init), NightState(init, s0).plan;
      NightPlan(c, e, sunrise, init, s0);
      assert |mid| == |s0.plan|;
      PassesExtend(vs, pass, |s0.plan|);
      BeforesFollowExtend(vs, pass, s0.plan, mid);
      NightResultAppend(s0.plan, vs, pass);
    }
  }

  /** Over the night the visits switch no relay port, and every entry of
      the plan keeps its target: only its feedback fields change. */
  lemma NightKeepsTargets(c: Config, e: Environment, sunrise: int, passes: seq<seq<Visit>>, s0: Loop)
    requires |e.clock| > 0 && c.laserInterval.Some?
    requires NightRuns(c, e, sunrise, passes, s0)
    ensures NoPowerCommands(Flatten(Concat(passes)))
    ensures |NightState(passes, s0).plan| == |s0.plan|
    ensures forall i :: 0 <= i < |s0.plan| ==> SameTarget(s0.plan[i], NightState(passes, s0).plan[i])
  {
    NightAllVisited(c, e, sunrise, passes, s0);
    VisitsNoPower(c, e, Concat(passes));
    NightClock(c, e, sunrise, passes, s0);
    NightPlan(c, e, sunrise, passes, s0);
    forall i | 0 <= i < |s0.plan|
      ensures SameTarget(s0.plan[i], NightState(passes, s0).plan[i])
    {
      NightSameTarget(Concat(passes), s0.plan, i);
    }
  }

  lemma {:induction false} VisitsNoPower(c: Config, e: Environment, vs: seq<Visit>)
    requires |e.clock| > 0 && c.laserInterval.Some?
    requires AllVisited(c, e, vs)
    ensures NoPowerCommands(Flatten(vs))
    decreases |vs|
  {
    if |vs| > 0 {
      var v := vs[|vs| - 1];
      VisitsNoPower(c, e, vs[..|vs| - 1]);
      if Exposed(c, e, v) {
        EntryCommandsNoPower(c, v.before, NextExposure(v.before, c.maxExposureTime), LaserTaken(c, e, v));
      }
      NoPowerConcat(Flatten(vs[..|vs| - 1]), v.commands);
    }
  }

  class Controller {
    const config: Config
    const env: Environment
    const sunrise: int
    const sunset: int
    /** The observation plan, updated in place. */
    const plan: array<Observation>

    /** Readings used so far: clock, moon angle, sky image intensity. */
    var cursor: nat
    var moonReads: nat
    var imageReads: nat

    /** Run state: time of the last laser image and discovered devices. */
    var laserLast: Option<int>
    var skyAlertAddress: string
    var filterWheelAddress: string
    var filterWheelSerial: bool
    var filterWheelLink: FilterWheelLink

    /** Every command sent so far. */
    var trace: seq<Cmd>
    /** The plan entries visited during the night, pass by pass. */
    ghost var passes: seq<seq<Visit>>

    constructor (config: Config, env: Environment, sunrise: int, sunset: int, observations: seq<Observation>)
      ensures this.config == config && this.env == env
      ensures this.sunrise == sunrise && this.sunset == sunset
      ensures fresh(plan) && plan[..] == observations
      ensures cursor == 0 && moonReads == 0 && imageReads == 0
      ensures laserLast == None && !filterWheelSerial
      ensures skyAlertAddress == config.skyAlertAddress && filterWheelAddress == config.filterWheelAddress
      ensures trace == [] && passes == []
    {
      this.config := config;
      this.env := env;
      this.sunrise := sunrise;
      this.sunset := sunset;
      plan := new Observation[|observations|](i requires 0 <= i < |observations| => observations[i]);
      cursor, moonReads, imageReads := 0, 0, 0;
      laserLast := None;
      skyAlertAddress := config.skyAlertAddress;
      filterWheelAddress := config.filterWheelAddress;
      filterWheelSerial := false;
      filterWheelLink := NetworkLink(config.filterWheelAddress);
      trace := [];
      passes := [];
    }

    function ClockAt(k: nat): int
      requires |env.clock| > 0
    {
      ReadingAt(env.clock, k)
    }

    /** The counters, the laser time and the plan stand as in `s`. */
    ghost predicate Stands(s: Loop)
      reads this`moonReads, this`imageReads, this`laserLast, plan
    {
      moonReads == s.moon && imageReads == s.images && laserLast == Some(s.laser) && plan[..] == s.plan
    }

    /** Where the night loop stands at its first check, when the night began
        with the grace-window check reading the clock at `c`: the laser time
        seeded from the reading after it, the counters and the plan as the
        night found them. */
    function NightStart(c: nat, moon: nat, images: nat, plan0: seq<Observation>): Loop
      requires |env.clock| > 0
    {
      Loop(c + 2, moon, images, ClockAt(c + 1), plan0)
    }

    /** The filter-wheel control port is power cycled during discovery. */
    predicate FilterWheelCycled()
    {
      config.filterWheelSerialPort.Some? && Discovery.LookupAt(env.filterWheelLookups, 0).None?
    }

    method ReadClock() returns (now: int)
      requires |env.clock| > 0
      modifies this`cursor
      ensures now == ClockAt(old(cursor)) && cursor == old(cursor) + 1
    {
      now := ClockAt(cursor);
      cursor := cursor + 1;
    }

    method PowerUp()
      modifies this`trace
      ensures trace == old(trace) + PowerUpSequence
    {
      trace := trace + PowerUpSequence;
    }

    /** SkyAlert discovery, then filter-wheel discovery when a filter wheel
        is in use; the addresses found replace the configured ones. */
    method DiscoverDevices()
      modifies this`trace, this`skyAlertAddress, this`filterWheelAddress, this`filterWheelSerial
      ensures skyAlertAddress == DiscoveredSkyAlert(old(skyAlertAddress), env)
      ensures filterWheelAddress == DiscoveredFilterWheel(old(filterWheelAddress), config, env)
      ensures filterWheelSerial == SerialFallback(config, env)
      ensures trace == old(trace) + DiscoveryCommands(config, env)
    {
      Discovery.AllLookupsFailed(env.filterWheelLookups, Discovery.FilterWheelLookupLimit);
      var ip, n := Discovery.DiscoverSkyAlert(env.skyAlertLookups);
      assert n == SkyAlertLookups(env);
      trace := trace + Repeat(LookUpMac(SkyAlertDevice), n);
      ghost var t1 := trace;
      if ip.Some? {
        skyAlertAddress := Discovery.SkyAlertUrl(ip.value);
      }
      assert skyAlertAddress == DiscoveredSkyAlert(old(skyAlertAddress), env);
      filterWheelSerial := false;
      if config.filterWheelSerialPort.Some? {
        var address, serial, m, events := Discovery.DiscoverFilterWheel(env.filterWheelLookups);
        assert m == FilterWheelLookups(env);
        trace := trace + events;
        filterWheelSerial := serial;
        if address.Some? {
          filterWheelAddress := address.value;
        }
        assert trace == t1 + Discovery.FilterWheelEvents(m);
      } else {
        assert trace == t1 + [];
      }
    }

    /** Open the filter wheel, home the scanner and the wheel, set up and
        cool the camera. */
    method Housekeeping()
      modifies this`trace, this`filterWheelLink
      ensures filterWheelLink == ChooseLink(filterWheelSerial, config.filterWheelSerialPort, filterWheelAddress)
      ensures trace == old(trace) + HousekeepingSequence(config) && NoPowerCommands(HousekeepingSequence(config))
    {
      SetupCommandsNoPower(config);
      filterWheelLink := ChooseLink(filterWheelSerial, config.filterWheelSerialPort, filterWheelAddress);
      trace := trace + HousekeepingSequence(config);
    }

    /** Bias, dark and laser images when within the grace window after
        sunset; on both branches the laser clock is seeded from a fresh
        clock reading when a laser interval is set. */
    method InitialCalibration()
      requires |env.clock| > 0
      modifies this`cursor, this`laserLast, this`trace
      ensures var inWindow := ClockAt(old(cursor)) < sunset + GraceWindow;
              trace == old(trace) + (if inWindow then InitialImages(config) else [])
      ensures config.laserInterval.Some? ==>
                cursor == old(cursor) + 2 && laserLast == Some(ClockAt(old(cursor) + 1))
      ensures config.laserInterval.None? ==>
                cursor == old(cursor) + 1 && laserLast == old(laserLast)
      ensures NoPowerCommands(InitialImages(config))
    {
      SetupCommandsNoPower(config);
      var now := ReadClock();
      if now < sunset + GraceWindow {
        trace := trace + InitialImages(config);
        if config.laserInterval.Some? {
          var t := ReadClock();
          laserLast := Some(t);
        }
      } else {
        if config.laserInterval.Some? {
          var t := ReadClock();
          laserLast := Some(t);
        }
      }
    }

    /** One plan entry: skipped when the moon is within the threshold angle;
        otherwise point, expose with the feedback-law exposure, record the
        feedback in this entry only, and take a laser image when one is due. */
    method ObserveEntry(i: nat)
      requires i < plan.Length
      requires config.laserInterval.Some? && laserLast.Some?
      requires |env.clock| > 0
      modifies this`cursor, this`moonReads, this`imageReads, this`laserLast, this`trace, plan
      ensures moonReads == old(moonReads) + 1
      ensures env.moonAngleAt(old(moonReads)) <= config.moonThresholdAngle ==>
                plan[..] == old(plan[..]) && trace == old(trace) && cursor == old(cursor) &&
                imageReads == old(imageReads) && laserLast == old(laserLast)
      ensures env.moonAngleAt(old(moonReads)) > config.moonThresholdAngle ==>
                var o := old(plan[i]);
                var t := NextExposure(o, config.maxExposureTime);
                var due := Calibration.LaserDue(ClockAt(old(cursor) + 1), old(laserLast).value,
                                                config.laserInterval.value);
                plan[..] == old(plan[..])[i := RecordFeedback(o, t, env.intensityAt(old(imageReads)))] &&
                imageReads == old(imageReads) + 1 &&
                trace == old(trace) + ExposureSequence(o, t) + (if due then LaserSequence(config) else []) &&
                cursor == old(cursor) + (if due then 3 else 2) &&
                laserLast == (if due then Some(ClockAt(old(cursor) + 2)) else old(laserLast))
      ensures old(trace) <= trace && NoPowerCommands(trace[|old(trace)|..])
      ensures laserLast.Some? && cursor >= old(cursor)
    {
      var angle := env.moonAngleAt(moonReads);
      moonReads := moonReads + 1;
      if angle <= config.moonThresholdAngle {
        return;
      }
      var o := plan[i];
      trace := trace + [ScannerMove(o.azimuth, o.zenith), FilterGo(o.filterPosition)];
      var t := NextExposure(o, config.maxExposureTime);
      trace := trace + [SkyImage(o.imageTag, t)];
      var intensity := env.intensityAt(imageReads);
      imageReads := imageReads + 1;
      plan[i] := RecordFeedback(o, t, intensity);
      // the log line before the check reads the clock too
      var logged := ReadClock();
      var now := ReadClock();
      var due := Calibration.LaserDue(now, laserLast.value, config.laserInterval.value);
      if due {
        trace := trace + LaserSequence(config);
        var after := ReadClock();
        laserLast := Some(after);
      }
      EntryCommandsNoPower(config, o, t, due);
      assert trace == old(trace) + (ExposureSequence(o, t) + (if due then LaserSequence(config) else []));
      assert trace[|old(trace)|..] == ExposureSequence(o, t) + (if due then LaserSequence(config) else []);
    }

    /** Entry `i` visited after the clock reading `reading` at position
        `cursor - 1`: the visit `v` made, as `Visited` describes it. */
    method VisitEntry(i: nat, ghost reading: int) returns (ghost v: Visit)
      requires i < plan.Length
      requires config.laserInterval.Some? && laserLast.Some?
      requires |env.clock| > 0 && cursor > 0 && reading == ClockAt(cursor - 1)
      modifies this`cursor, this`moonReads, this`imageReads, this`laserLast, this`trace, plan
      ensures Visited(config, env, v)
      ensures v.index == i && v.at == old(cursor) - 1 && v.reading == reading
      ensures v.moonRead == old(moonReads) && v.imageRead == old(imageReads) && v.laserBefore == old(laserLast).value
      ensures v.before == old(plan[i]) && plan[..] == old(plan[..])[i := v.after]
      ensures moonReads == old(moonReads) + 1 && imageReads == v.imagesAfter && laserLast == Some(v.laserAfter)
      ensures trace == old(trace) + v.commands && NoPowerCommands(v.commands)
      ensures SameTarget(v.before, v.after)
      ensures cursor == v.finish && cursor >= old(cursor)
    {
      v := Visit(i, cursor - 1, cursor, reading, moonReads, imageReads, imageReads,
                 laserLast.value, laserLast.value, plan[i], plan[i], []);
      ghost var before := trace;
      ObserveEntry(i);
      v := v.(finish := cursor, imagesAfter := imageReads, laserAfter := laserLast.value, after := plan[i],
              commands := trace[|before|..]);
      assert plan[..] == old(plan[..])[i := v.after];
    }

    /** One pass of the night loop over the plan, in plan order, stopping
        early at the first clock reading at or after sunrise, begun right
        after the check at `s`. Returns the visits made. */
    method RunPass(ghost s: Loop) returns (ghost pass: seq<Visit>)
      requires config.laserInterval.Some? && |env.clock| > 0
      requires Stands(s) && cursor == s.check + 1
      modifies this`cursor, this`moonReads, this`imageReads, this`laserLast, this`trace, plan
      ensures PassDone(config, env, sunrise, pass, s)
      ensures Stands(AfterPass(pass, s)) && cursor == AfterPass(pass, s).check
      ensures trace == old(trace) + Flatten(pass)
    {
      ghost var plan0, t0, l0, i0, m0, c0 := plan[..], trace, laserLast.value, imageReads, moonReads, cursor;
      pass := [];
      assert plan[..] == PassResult(plan0, pass);
      var j := 0;
      while j < plan.Length
        invariant 0 <= j <= plan.Length && |pass| == j
        invariant PassLog(pass, sunrise, c0, cursor, plan0)
        invariant AllVisited(config, env, pass) && Consecutive(pass, l0, i0, m0)
        invariant moonReads == m0 + |pass|
        invariant imageReads == ImagesEnd(pass, i0)
        invariant laserLast == Some(LaserEnd(pass, l0))
        invariant trace == t0 + Flatten(pass)
        invariant plan[..] == PassResult(plan0, pass)
        invariant Chained(pass, c0) && cursor == NextRead(pass, c0) && c0 <= cursor
        decreases plan.Length - j
      {
        ghost var c1 := cursor;
        var reading := ReadClock();
        if reading >= sunrise {
          PassLogLater(pass, sunrise, c0, c1, cursor, plan0);
          break;
        }
        assert plan[j] == plan[..][j] == PassResult(plan0, pass)[j] == plan0[j];
        ghost var v := VisitEntry(j, reading);
        PassStep(pass, v, plan0, sunrise, c0, c1, cursor, l0, i0, m0);
        AllVisitedAppend(config, env, pass, [v]);
        AppendAssoc(t0, Flatten(pass), v.commands);
        pass := pass + [v];
        j := j + 1;
      }
    }

    /** One iteration of the night loop, after a check that read at most
        sunrise: a pass over the plan, appended to the night's passes, then
        the next check's clock reading `now`. The night began at `s0` with
        the trace `t0`. */
    method NightPass(ghost s0: Loop, ghost t0: seq<Cmd>) returns (now: int, ghost pass: seq<Visit>)
      requires config.laserInterval.Some? && |env.clock| > 0
      requires NightRuns(config, env, sunrise, passes, s0) && Stands(NightState(passes, s0))
      requires cursor == NightState(passes, s0).check + 1 && ClockAt(cursor - 1) <= sunrise
      requires trace == t0 + Flatten(Concat(passes))
      modifies this`cursor, this`moonReads, this`imageReads, this`laserLast, this`trace, this`passes, plan
      ensures passes == old(passes) + [pass]
      ensures NightRuns(config, env, sunrise, passes, s0) && Stands(NightState(passes, s0))
      ensures cursor == NightState(passes, s0).check + 1 && now == ClockAt(cursor - 1) && cursor > old(cursor)
      ensures trace == t0 + Flatten(Concat(passes))
    {
      ghost var p0, s := passes, NightState(passes, s0);
      pass := RunPass(s);
      NightRunsSnoc(config, env, sunrise, p0, pass, s0);
      AppendAssoc(t0, Flatten(Concat(p0)), Flatten(pass));
      passes := p0 + [pass];
      now := ReadClock();
    }

    /** The night loop: passes over the whole plan, each from its first
        entry, while the clock reads no later than sunrise, from the first
        check at `s0`. The passes are logged in `passes`. */
    method RunNight(ghost s0: Loop)
      requires config.laserInterval.Some? && NightEnds(env.clock, sunrise)
      requires Stands(s0) && cursor == s0.check
      modifies this`cursor, this`moonReads, this`imageReads, this`laserLast, this`trace, this`passes, plan
      ensures NightRuns(config, env, sunrise, passes, s0) && Stands(NightState(passes, s0))
      ensures cursor == NightState(passes, s0).check + 1 && ClockAt(cursor - 1) > sunrise
      ensures trace == old(trace) + Flatten(Concat(passes))
    {
      ghost var t0 := trace;
      passes := [];
      var now := ReadClock();
      while now <= sunrise
        invariant cursor == NightState(passes, s0).check + 1 && now == ClockAt(cursor - 1)
        invariant now <= sunrise ==> cursor <= |env.clock|
        invariant NightRuns(config, env, sunrise, passes, s0) && Stands(NightState(passes, s0))
        invariant trace == t0 + Flatten(Concat(passes))
        decreases |env.clock| - cursor
      {
        ghost var pass;
        now, pass := NightPass(s0, t0);
      }
    }

    /** Normal end of the night: park, warm the camera up, shut it down,
        power down. Returns the number of temperature reads. */
    method FinishNight() returns (temperatureReads: nat)
      requires |env.temperatures| > 0 && env.temperatures[|env.temperatures| - 1] >= Lifecycle.WarmTemperature
      modifies this`trace
      ensures temperatureReads % 2 == 1
      ensures ReadingAt(env.temperatures, temperatureReads - 1) >= Lifecycle.WarmTemperature
      ensures forall k :: 0 <= k < temperatureReads - 1 && k % 2 == 0 ==>
                ReadingAt(env.temperatures, k) < Lifecycle.WarmTemperature
      ensures trace == old(trace) + Lifecycle.NormalTeardown(config.parkPosition, temperatureReads)
    {
      trace := trace + [ScannerHome, FilterGo(config.parkPosition), CoolerOff];
      temperatureReads := Lifecycle.WarmUp(env.temperatures);
      trace := trace + Repeat(ReadTemperature, temperatureReads) + [CameraShutDown]
               + Lifecycle.PowerDownSequence;
    }

    /** The interrupt handler, whatever the run was doing. */
    method Interrupt()
      modifies this`trace
      ensures trace == old(trace) + Lifecycle.InterruptTeardown(config.parkPosition)
      ensures forall p :: p in Lifecycle.ShutdownPorts ==> LastCommanded(trace, p) == Some(false)
      ensures forall p :: p !in Lifecycle.ShutdownPorts ==> LastCommanded(trace, p) == LastCommanded(old(trace), p)
    {
      ghost var before := trace;
      trace := trace + Lifecycle.InterruptTeardown(config.parkPosition);
      Lifecycle.TeardownsEndWithPowerDown(config.parkPosition, 0);
      forall p {
        Lifecycle.EveryTeardownLeavesSafe(before, Lifecycle.InterruptTeardown(config.parkPosition), p);
      }
    }

    /** The fault handler, whatever the run was doing. */
    method Fault()
      modifies this`trace
      ensures trace == old(trace) + Lifecycle.FaultTeardown()
      ensures forall p :: p in Lifecycle.ShutdownPorts ==> LastCommanded(trace, p) == Some(false)
      ensures forall p :: p !in Lifecycle.ShutdownPorts ==> LastCommanded(trace, p) == LastCommanded(old(trace), p)
    {
      ghost var before := trace;
      trace := trace + Lifecycle.FaultTeardown();
      Lifecycle.TeardownsEndWithPowerDown(config.parkPosition, 0);
      forall p {
        Lifecycle.EveryTeardownLeavesSafe(before, Lifecycle.FaultTeardown(), p);
      }
    }

    /** Power up, find the network devices, open the filter wheel and set up
        the camera. */
    method Startup()
      modifies this`skyAlertAddress, this`filterWheelAddress, this`filterWheelSerial,
               this`filterWheelLink, this`trace
      ensures trace == old(trace) + StartupCommands(config, env)
      ensures skyAlertAddress == DiscoveredSkyAlert(old(skyAlertAddress), env)
      ensures filterWheelAddress == DiscoveredFilterWheel(old(filterWheelAddress), config, env)
      ensures filterWheelSerial == SerialFallback(config, env)
      ensures filterWheelLink == ChooseLink(filterWheelSerial, config.filterWheelSerialPort, filterWheelAddress)
      ensures LastCommanded(trace, CloudSensorPort) == Some(true)
      ensures LastCommanded(trace, FilterWheelControlPort) ==
              if FilterWheelCycled() then Some(true) else LastCommanded(old(trace), FilterWheelControlPort)
      ensures forall p :: p != FilterWheelControlPort ==>
                LastCommanded(trace, p) == LastCommanded(old(trace) + PowerUpSequence, p)
    {
      ghost var t0 := trace;
      PowerUp();
      ghost var t1 := trace;
      DiscoverDevices();
      ghost var t2 := trace;
      Housekeeping();
      forall p | true
        ensures LastCommanded(trace, p) == LastCommanded(t2, p)
      {
        NoPowerKeepsState(t2, HousekeepingSequence(config), p);
      }
      DiscoveryPower(t0, t1, t2);
      AppendAssoc(t0, PowerUpSequence, DiscoveryCommands(config, env));
      AppendAssoc(t0, PowerUpSequence + DiscoveryCommands(config, env), HousekeepingSequence(config));
    }

    /** The grace-window calibration and the night loop. */
    method ObserveNight()
      requires NightEnds(env.clock, sunrise) && config.laserInterval.Some?
      modifies this`cursor, this`moonReads, this`imageReads, this`laserLast, this`trace, this`passes, plan
      ensures trace == old(trace) + (if ClockAt(old(cursor)) < sunset + GraceWindow then InitialImages(config) else [])
                       + Flatten(Concat(passes))
      ensures NoPowerCommands(InitialImages(config)) && NoPowerCommands(Flatten(Concat(passes)))
      ensures forall p :: LastCommanded(trace, p) == LastCommanded(old(trace), p)
      ensures var s0 := NightStart(old(cursor), old(moonReads), old(imageReads), old(plan[..]));
              NightRuns(config, env, sunrise, passes, s0) && Stands(NightState(passes, s0)) &&
              cursor == NightState(passes, s0).check + 1 && ClockAt(cursor - 1) > sunrise
    {
      InitialCalibration();
      ghost var t1 := trace;
      ghost var s0 := NightStart(old(cursor), old(moonReads), old(imageReads), old(plan[..]));
      RunNight(s0);
      NightKeepsTargets(config, env, sunrise, passes, s0);
      forall p
        ensures LastCommanded(trace, p) == LastCommanded(old(trace), p)
      {
        NoPowerKeepsState(old(trace), t1[|old(trace)|..], p);
        NoPowerKeepsState(t1, Flatten(Concat(passes)), p);
      }
    }

    /** The night once the start time has come: the grace-window
        calibration, the night loop, the normal end. */
    method Night() returns (temperatureReads: nat)
      requires NightEnds(env.clock, sunrise)
      requires |env.temperatures| > 0 && env.temperatures[|env.temperatures| - 1] >= Lifecycle.WarmTemperature
      requires config.laserInterval.Some?
      modifies this`cursor, this`moonReads, this`imageReads, this`laserLast, this`trace, this`passes, plan
      ensures trace == old(trace) + (if ClockAt(old(cursor)) < sunset + GraceWindow then InitialImages(config) else [])
                       + Flatten(Concat(passes)) + Lifecycle.NormalTeardown(config.parkPosition, temperatureReads)
      ensures temperatureReads % 2 == 1
      ensures ReadingAt(env.temperatures, temperatureReads - 1) >= Lifecycle.WarmTemperature
      ensures forall k :: 0 <= k < temperatureReads - 1 && k % 2 == 0 ==>
                ReadingAt(env.temperatures, k) < Lifecycle.WarmTemperature
      ensures var s0 := NightStart(old(cursor), old(moonReads), old(imageReads), old(plan[..]));
              NightRuns(config, env, sunrise, passes, s0) && Stands(NightState(passes, s0)) &&
              cursor == NightState(passes, s0).check + 1 && ClockAt(cursor - 1) > sunrise
      ensures forall p :: p in Lifecycle.ShutdownPorts ==> LastCommanded(trace, p) == Some(false)
      ensures forall p :: p !in Lifecycle.ShutdownPorts ==> LastCommanded(trace, p) == LastCommanded(old(trace), p)
    {
      ObserveNight();
      ghost var t3 := trace;
      temperatureReads := FinishNight();
      Lifecycle.NormalTeardownLeavesSafe(t3, config.parkPosition, temperatureReads);
    }

    /** A whole night without interrupt or fault. */
    method Run() returns (temperatureReads: nat)
      requires NightEnds(env.clock, sunrise)
      requires |env.temperatures| > 0 && env.temperatures[|env.temperatures| - 1] >= Lifecycle.WarmTemperature
      requires config.laserInterval.Some?
      modifies this`cursor, this`moonReads, this`imageReads, this`laserLast, this`skyAlertAddress,
               this`filterWheelAddress, this`filterWheelSerial, this`filterWheelLink, this`trace,
               this`passes, plan
      ensures trace == old(trace) + StartupCommands(config, env)
                       + (if ClockAt(old(cursor)) < sunset + GraceWindow then InitialImages(config) else [])
                       + Flatten(Concat(passes)) + Lifecycle.NormalTeardown(config.parkPosition, temperatureReads)
      ensures skyAlertAddress == DiscoveredSkyAlert(old(skyAlertAddress), env)
      ensures filterWheelAddress == DiscoveredFilterWheel(old(filterWheelAddress), config, env)
      ensures filterWheelSerial == SerialFallback(config, env)
      ensures filterWheelLink == ChooseLink(filterWheelSerial, config.filterWheelSerialPort, filterWheelAddress)
      ensures temperatureReads % 2 == 1
      ensures ReadingAt(env.temperatures, temperatureReads - 1) >= Lifecycle.WarmTemperature
      ensures forall k :: 0 <= k < temperatureReads - 1 && k % 2 == 0 ==>
                ReadingAt(env.temperatures, k) < Lifecycle.WarmTemperature
      ensures var s0 := NightStart(old(cursor), old(moonReads), old(imageReads), old(plan[..]));
              NightRuns(config, env, sunrise, passes, s0) && Stands(NightState(passes, s0)) &&
              cursor == NightState(passes, s0).check + 1 && ClockAt(cursor - 1) > sunrise
      ensures forall p :: p in Lifecycle.ShutdownPorts ==> LastCommanded(trace, p) == Some(false)
      ensures LastCommanded(trace, CloudSensorPort) == Some(true)
      ensures LastCommanded(trace, FilterWheelControlPort) ==
              if FilterWheelCycled() then Some(true) else LastCommanded(old(trace), FilterWheelControlPort)
    {
      Startup();
      temperatureReads := Night();
      assert CloudSensorPort !in Lifecycle.ShutdownPorts && FilterWheelControlPort !in Lifecycle.ShutdownPorts;
    }

    /** The relay state after power-up and discovery. */
    lemma DiscoveryPower(t0: seq<Cmd>, t1: seq<Cmd>, t2: seq<Cmd>)
      requires t1 == t0 + PowerUpSequence
      requires t2 == t1 + DiscoveryCommands(config, env)
      ensures LastCommanded(t2, CloudSensorPort) == Some(true)
      ensures LastCommanded(t2, FilterWheelControlPort) ==
              if FilterWheelCycled() then Some(true) else LastCommanded(t0, FilterWheelControlPort)
      ensures forall p :: p != FilterWheelControlPort ==> LastCommanded(t2, p) == LastCommanded(t1, p)
    {
      var n := Discovery.LookupsUntilFound(env.skyAlertLookups, 0, Discovery.SkyAlertLookupLimit);
      var m := Discovery.LookupsUntilFound(env.filterWheelLookups, 0, Discovery.FilterWheelLookupLimit);
      var sky := Repeat(LookUpMac(SkyAlertDevice), n);
      assert t2 == t1 + sky + (if config.filterWheelSerialPort.Some? then Discovery.FilterWheelEvents(m) else []);
      forall p
        ensures LastCommanded(t2, p) ==
                if p == FilterWheelControlPort && FilterWheelCycled() then Some(true)
                else LastCommanded(t1, p)
      {
        NoPowerKeepsState(t1, sky, p);
        if config.filterWheelSerialPort.Some? {
          Discovery.FilterWheelEventsPower(t1 + sky, m, p);
        } else {
          assert t2 == t1 + sky;
        }
      }
      assert LastCommanded(t1, CloudSensorPort) == Some(true);
      UntouchedKeepsState(t0, PowerUpSequence, FilterWheelControlPort);
    }
  }
}
